/** Preview rows, evidence arithmetic, and the "Others" summary rows fold into. */
module PreviewModel {
  import opened Wrappers
  import opened Sorting

  const MAX_U128: nat := 0xFFFF_FFFF_FFFF_FFFF_FFFF_FFFF_FFFF_FFFF
  const HEAVY_LEAF_THRESHOLD_BYTES: nat := 32 * 1024 * 1024
  const TOP_HEAVY_CHILDREN: nat := 64
  const ROOT_KEY := "__root__"

  datatype Reason = Overflow | OtherReason(code: string)

  /** A measured quantity: exact, a lower bound, or missing for a reason. */
  datatype Evidence =
    | Known(value: nat)
    | LowerBound(value: nat, reason: Reason)
    | Unknown(reason: Reason)
    | Unsupported(reason: Reason)
    | NotChecked(reason: Reason)

  datatype RowKind = Root | Ancestor | Directory | Leaf | Error | Boundary | Others
  datatype Role = TopHeavyChild | HeavyLeaf | ErrorRole | BoundaryRole | RequiredAncestor | RootRole

  datatype Coverage = Coverage(complete: bool, detailsLost: bool, reasons: seq<Reason>)

  datatype Aggregate = Aggregate(recursiveEntries: Evidence, reasons: seq<Reason>)

  /** One preview row; `detail` carries display name and provenance, which nothing here reads. */
  datatype Row = Row(kind: RowKind, parentId: Option<string>, entryId: string, nativeName: string,
                     logical: Evidence, onDisk: Evidence, direct: Evidence, recursive: Evidence,
                     aggregate: Option<Aggregate>, coverage: Coverage, selectable: bool,
                     roles: set<Role>, detail: string)
  {
    predicate Mandatory() {
      kind.Root? || kind.Ancestor? || kind.Error? || kind.Boundary? || kind.Others?
    }

    predicate IsDirectory() {
      kind.Root? || kind.Ancestor? || kind.Directory?
    }

    /** Allocated size where measured, else logical size where measured. */
    function Rank(): Option<nat> {
      if Measured(onDisk).Some? then Measured(onDisk) else Measured(logical)
    }
  }

  function Measured(e: Evidence): Option<nat> {
    if e.Known? || e.LowerBound? then Some(e.value) else None
  }

  // ---- Ranking ----

  /** Larger first; rows without a measured size last. */
  function CompareRank(a: Option<nat>, b: Option<nat>): Ordering {
    if a.None? && b.None? then Equal
    else if a.None? then Greater
    else if b.None? then Less
    else CompareNat(b.value, a.value)
  }

  function CompareRows(l: Row, r: Row): Ordering {
    Then(Then(CompareRank(l.Rank(), r.Rank()), CompareText(l.nativeName, r.nativeName)), CompareText(l.entryId, r.entryId))
  }

  predicate RowBefore(l: Row, r: Row) {
    CompareRows(l, r).Less?
  }

  lemma CompareRowsFlips(a: Row, b: Row)
    ensures CompareRows(b, a) == Flip(CompareRows(a, b))
  {
    CompareTextFlips(a.nativeName, b.nativeName);
    CompareTextFlips(a.entryId, b.entryId);
  }

  lemma TextTransitive(a: string, b: string, c: string)
    ensures CompareText(a, b).Less? && CompareText(b, c).Less? ==> CompareText(a, c).Less?
    ensures CompareText(a, b).Equal? <==> a == b
    ensures CompareText(b, c).Equal? <==> b == c
  {
    CompareTextFlips(a, b);
    CompareTextFlips(b, c);
    if CompareText(a, b).Less? && CompareText(b, c).Less? {
      CompareTextTransitive(a, b, c);
    }
  }

  /** Comparing rows is transitive in both its strict and its tied form. */
  lemma CompareRowsTransitive(a: Row, b: Row, c: Row)
    requires !CompareRows(a, b).Greater? && !CompareRows(b, c).Greater?
    ensures CompareRows(a, c) == if CompareRows(a, b).Equal? then CompareRows(b, c) else Less
  {
    TextTransitive(a.nativeName, b.nativeName, c.nativeName);
    TextTransitive(a.entryId, b.entryId, c.entryId);
  }

  lemma RowsOrdered()
    ensures StrictWeakOrder(RowBefore)
  {
    forall x ensures !RowBefore(x, x) {
      CompareTextFlips(x.nativeName, x.nativeName);
      CompareTextFlips(x.entryId, x.entryId);
    }
    forall x, y, z | RowBefore(x, y) && RowBefore(y, z) ensures RowBefore(x, z) {
      CompareRowsTransitive(x, y, z);
    }
    forall x, y, z | RowBefore(x, y) ensures RowBefore(x, z) || RowBefore(z, y) {
      CompareRowsFlips(x, z);
      CompareRowsFlips(z, y);
      if !RowBefore(x, z) && !RowBefore(z, y) {
        CompareRowsTransitive(y, z, x);
        CompareRowsFlips(x, y);
      }
    }
  }

  // ---- Evidence arithmetic ----

  /** Adds one more input to a running sum. The first missing input, or the first overflow,
      decides the result for good; the first lower bound's reason is the one kept. */
  function AddEvidence(total: Evidence, next: Evidence): Evidence {
    if !total.Known? && !total.LowerBound? then total
    else if !next.Known? && !next.LowerBound? then Unknown(next.reason)
    else if total.value + next.value > MAX_U128 then Unknown(Overflow)
    else if total.LowerBound? then LowerBound(total.value + next.value, total.reason)
    else if next.LowerBound? then LowerBound(total.value + next.value, next.reason)
    else Known(total.value + next.value)
  }

  function Logical(row: Row): Evidence { row.logical }

  function OnDisk(row: Row): Evidence { row.onDisk }

  function DirectCount(row: Row): Evidence {
    if row.kind.Others? then row.direct else Known(1)
  }

  function RecursiveCount(row: Row): Evidence {
    if row.kind.Others? then row.recursive
    else match row.aggregate
      case Some(a) => a.recursiveEntries
      case None => Known(1)
  }

  function Sum(measure: Row -> Evidence, rows: seq<Row>): Evidence {
    if rows == [] then Known(0) else AddEvidence(Sum(measure, rows[..|rows| - 1]), measure(rows[|rows| - 1]))
  }

  /** `sum_byte_values` and `sum_count_values` over one measure of the rows: a single pass with
      an early return at the first missing value. */
  method SumValues(measure: Row -> Evidence, rows: seq<Row>) returns (sum: Evidence)
    ensures sum == Sum(measure, rows)
  {
    var total := 0;
    var lowerBound: Option<Reason> := None;
    var k := 0;
    while k < |rows|
      invariant 0 <= k <= |rows|
      invariant Sum(measure, rows[..k]) == if lowerBound.Some? then LowerBound(total, lowerBound.value) else Known(total)
    {
      assert rows[..k + 1][..k] == rows[..k];
      match measure(rows[k]) {
        case Known(value) =>
          if total + value > MAX_U128 {
            SumSettled(measure, rows, k + 1);
            return Unknown(Overflow);
          }
          total := total + value;
        case LowerBound(value, reason) =>
          if lowerBound.None? {
            lowerBound := Some(reason);
          }
          if total + value > MAX_U128 {
            SumSettled(measure, rows, k + 1);
            return Unknown(Overflow);
          }
          total := total + value;
        case Unknown(reason) =>
          SumSettled(measure, rows, k + 1);
          return Unknown(reason);
        case Unsupported(reason) =>
          SumSettled(measure, rows, k + 1);
          return Unknown(reason);
        case NotChecked(reason) =>
          SumSettled(measure, rows, k + 1);
          return Unknown(reason);
      }
      k := k + 1;
    }
    assert rows[..k] == rows;
    return if lowerBound.Some? then LowerBound(total, lowerBound.value) else Known(total);
  }

  /** A sum that is already unknown stays what it is, whatever follows. */
  lemma {:induction false} SumSettled(measure: Row -> Evidence, rows: seq<Row>, n: nat)
    requires n <= |rows| && Sum(measure, rows[..n]).Unknown?
    ensures Sum(measure, rows) == Sum(measure, rows[..n])
  {
    if n == |rows| {
      assert rows[..n] == rows;
    } else {
      assert rows[..|rows| - 1][..n] == rows[..n];
      SumSettled(measure, rows[..|rows| - 1], n);
    }
  }

  lemma {:induction false} SumShape(measure: Row -> Evidence, rows: seq<Row>)
    ensures var s := Sum(measure, rows);
            s.Unknown? || ((s.Known? || s.LowerBound?) && s.value <= MAX_U128)
  {
    if rows != [] {
      SumShape(measure, rows[..|rows| - 1]);
    }
  }

  // ---- The Others summary ----

  function AddReasons(known: seq<Reason>, more: seq<Reason>): seq<Reason> {
    if more == [] then known
    else
      var grown := AddReasons(known, more[..|more| - 1]);
      var last := more[|more| - 1];
      if last in grown then grown else grown + [last]
  }

  function RowReasons(row: Row): seq<Reason> {
    row.coverage.reasons + if row.aggregate.Some? then row.aggregate.value.reasons else []
  }

  /** First-seen order, each reason once. */
  function UnionReasons(rows: seq<Row>): seq<Reason> {
    if rows == [] then [] else AddReasons(UnionReasons(rows[..|rows| - 1]), RowReasons(rows[|rows| - 1]))
  }

  method UnionIncompleteReasons(rows: seq<Row>) returns (reasons: seq<Reason>)
    ensures reasons == UnionReasons(rows)
  {
    reasons := [];
    var k := 0;
    while k < |rows|
      invariant 0 <= k <= |rows| && reasons == UnionReasons(rows[..k])
    {
      assert rows[..k + 1][..k] == rows[..k];
      var more := RowReasons(rows[k]);
      ghost var before := reasons;
      var n := 0;
      while n < |more|
        invariant 0 <= n <= |more| && reasons == AddReasons(before, more[..n])
      {
        assert more[..n + 1][..n] == more[..n];
        if more[n] !in reasons {
          reasons := reasons + [more[n]];
        }
        n := n + 1;
      }
      assert more[..n] == more;
      k := k + 1;
    }
    assert rows[..k] == rows;
  }

  predicate AllComplete(rows: seq<Row>) {
    forall row | row in rows :: row.coverage.complete
  }

  function OthersRow(parentId: string, rows: seq<Row>): Row {
    Row(Others, Some(parentId), parentId + "::others", "Others",
        Sum(Logical, rows), Sum(OnDisk, rows), Sum(DirectCount, rows), Sum(RecursiveCount, rows), None,
        Coverage(AllComplete(rows), true, UnionReasons(rows)), false, {}, "Others")
  }

  // ---- Folding one at a time is building once ----

  /** Summing [the sum so far, next] is summing everything so far, then next. */
  lemma SumFolds(measure: Row -> Evidence, rows: seq<Row>, summary: Row, next: Row)
    requires measure(summary) == Sum(measure, rows)
    ensures Sum(measure, [summary, next]) == Sum(measure, rows + [next])
  {
    SumShape(measure, rows);
    assert [summary, next][..1] == [summary] && [summary][..0] == [];
    assert Sum(measure, [summary]) == AddEvidence(Sum(measure, []), measure(summary));
    assert (rows + [next])[..|rows|] == rows;
  }

  predicate Distinct(reasons: seq<Reason>) {
    forall i, j | 0 <= i < j < |reasons| :: reasons[i] != reasons[j]
  }

  lemma {:induction false} AddReasonsKeepsDistinct(known: seq<Reason>, more: seq<Reason>)
    requires Distinct(known)
    ensures Distinct(AddReasons(known, more))
  {
    if more != [] {
      AddReasonsKeepsDistinct(known, more[..|more| - 1]);
    }
  }

  lemma {:induction false} UnionDistinct(rows: seq<Row>)
    ensures Distinct(UnionReasons(rows))
  {
    if rows != [] {
      UnionDistinct(rows[..|rows| - 1]);
      AddReasonsKeepsDistinct(UnionReasons(rows[..|rows| - 1]), RowReasons(rows[|rows| - 1]));
    }
  }

  lemma {:induction false} AddDistinctToNothing(reasons: seq<Reason>)
    requires Distinct(reasons)
    ensures AddReasons([], reasons) == reasons
  {
    if reasons != [] {
      var n := |reasons| - 1;
      AddDistinctToNothing(reasons[..n]);
      assert reasons == reasons[..n] + [reasons[n]];
      assert reasons[n] !in reasons[..n];
    }
  }

  /** Reasons and completeness of a summary folded one row further. */
  lemma FoldedCoverage(parentId: string, omitted: seq<Row>, next: Row)
    ensures var two := [OthersRow(parentId, omitted), next];
            AllComplete(two) == AllComplete(omitted + [next]) && UnionReasons(two) == UnionReasons(omitted + [next])
  {
    var o, all := OthersRow(parentId, omitted), omitted + [next];
    var two := [o, next];
    assert AllComplete(two) == (o.coverage.complete && next.coverage.complete) by {
      assert two[0] in two && two[1] in two;
    }
    assert AllComplete(all) == (AllComplete(omitted) && next.coverage.complete) by {
      assert forall row | row in omitted :: row in all;
      assert next in all;
    }
    UnionDistinct(omitted);
    AddDistinctToNothing(UnionReasons(omitted));
    assert RowReasons(o) == UnionReasons(omitted);
    assert UnionReasons([o]) == UnionReasons(omitted) by {
      assert [o][..0] == [];
    }
    assert two[..1] == [o] && all[..|omitted|] == omitted;
    assert UnionReasons(two) == AddReasons(UnionReasons(omitted), RowReasons(next));
  }

  /** Evicting into an existing Others row loses nothing that one summary over all the omitted
      rows, in eviction order, would have said: sums, unknowns, overflow, reasons and their
      order, and completeness are all the same. */
  lemma FoldingIsBuilding(parentId: string, omitted: seq<Row>, next: Row)
    ensures OthersRow(parentId, [OthersRow(parentId, omitted), next]) == OthersRow(parentId, omitted + [next])
  {
    var o := OthersRow(parentId, omitted);
    FoldedCoverage(parentId, omitted, next);
    SumFolds(Logical, omitted, o, next);
    SumFolds(OnDisk, omitted, o, next);
    SumFolds(DirectCount, omitted, o, next);
    SumFolds(RecursiveCount, omitted, o, next);
  }
}
