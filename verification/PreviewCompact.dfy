/** Grouping preview rows by parent and compacting each parent, and what compaction conserves. */
module PreviewCompact {
  import opened Wrappers
  import opened Sorting
  import opened Totals
  import opened PreviewModel
  import opened PreviewTrim

  // ---- Grouping by parent ----

  datatype Group = Group(key: string, rows: seq<Row>)

  /** The entries of a `BTreeMap` from parent id to rows, in key order. */
  function Push(groups: seq<Group>, key: string, row: Row): seq<Group> {
    if groups == [] || CompareText(key, groups[0].key).Less? then [Group(key, [row])] + groups
    else if groups[0].key == key then [Group(key, groups[0].rows + [row])] + groups[1..]
    else [groups[0]] + Push(groups[1..], key, row)
  }

  /** Sets one key, replacing whatever it held. */
  function Put(groups: seq<Group>, key: string, rows: seq<Row>): seq<Group> {
    if groups == [] || CompareText(key, groups[0].key).Less? then [Group(key, rows)] + groups
    else if groups[0].key == key then [Group(key, rows)] + groups[1..]
    else [groups[0]] + Put(groups[1..], key, rows)
  }

  function Lookup(groups: seq<Group>, key: string): Option<seq<Row>> {
    if groups == [] then None
    else if groups[0].key == key then Some(groups[0].rows)
    else Lookup(groups[1..], key)
  }

  ghost predicate Below(key: string, groups: seq<Group>) {
    forall g {:trigger g in groups} | g in groups :: CompareText(key, g.key).Less?
  }

  ghost predicate KeysSorted(groups: seq<Group>) {
    groups == [] || (Below(groups[0].key, groups[1..]) && KeysSorted(groups[1..]))
  }

  function Roots(summaries: seq<Row>): seq<Row> {
    if summaries == [] then []
    else
      var n := |summaries| - 1;
      Roots(summaries[..n]) + if summaries[n].parentId.None? then [summaries[n]] else []
  }

  function ChildrenOf(summaries: seq<Row>, key: string): seq<Row> {
    if summaries == [] then []
    else
      var n := |summaries| - 1;
      ChildrenOf(summaries[..n], key) + if summaries[n].parentId == Some(key) then [summaries[n]] else []
  }

  function ByParent(summaries: seq<Row>): seq<Group> {
    if summaries == [] then []
    else
      var n := |summaries| - 1;
      match summaries[n].parentId
      case Some(key) => Push(ByParent(summaries[..n]), key, summaries[n])
      case None => ByParent(summaries[..n])
  }

  /** Root rows are filed under a fixed key last, displacing any rows filed there before. */
  function Grouped(summaries: seq<Row>): seq<Group> {
    if Roots(summaries) == [] then ByParent(summaries) else Put(ByParent(summaries), ROOT_KEY, Roots(summaries))
  }

  lemma BelowAll(key: string, groups: seq<Group>)
    requires KeysSorted(groups) && groups != [] && CompareText(key, groups[0].key).Less?
    ensures Below(key, groups) && Lookup(groups, key).None?
  {
    forall g | g in groups ensures CompareText(key, g.key).Less? {
      assert groups == [groups[0]] + groups[1..];
      if g != groups[0] {
        CompareTextTransitive(key, groups[0].key, g.key);
      }
    }
    BelowMisses(key, groups);
  }

  lemma {:induction false} BelowMisses(key: string, groups: seq<Group>)
    requires Below(key, groups)
    ensures Lookup(groups, key).None?
  {
    if groups != [] {
      assert groups[0] in groups && forall g | g in groups[1..] :: g in groups;
      CompareTextFlips(key, groups[0].key);
      BelowMisses(key, groups[1..]);
    }
  }

  lemma {:induction false} PutMembers(groups: seq<Group>, key: string, rows: seq<Row>, g: Group)
    requires g in Put(groups, key, rows)
    ensures g == Group(key, rows) || g in groups
  {
    if groups != [] && g != groups[0] && g in Put(groups[1..], key, rows) {
      PutMembers(groups[1..], key, rows, g);
    }
  }

  lemma PutStaysAbove(low: string, groups: seq<Group>, key: string, rows: seq<Row>)
    requires Below(low, groups) && CompareText(low, key).Less?
    ensures Below(low, Put(groups, key, rows))
  {
    forall g | g in Put(groups, key, rows) ensures CompareText(low, g.key).Less? {
      PutMembers(groups, key, rows, g);
    }
  }

  /** `Put` is map update on sorted association lists. */
  lemma {:induction false} PutUpdates(groups: seq<Group>, key: string, rows: seq<Row>, k: string)
    requires KeysSorted(groups)
    ensures KeysSorted(Put(groups, key, rows))
    ensures Lookup(Put(groups, key, rows), k) == if k == key then Some(rows) else Lookup(groups, k)
  {
    if groups == [] {
      assert ([Group(key, rows)] + groups)[1..] == groups;
    } else if CompareText(key, groups[0].key).Less? {
      BelowAll(key, groups);
      assert ([Group(key, rows)] + groups)[1..] == groups;
    } else if groups[0].key == key {
      assert ([Group(key, rows)] + groups[1..])[1..] == groups[1..];
    } else {
      CompareTextFlips(key, groups[0].key);
      PutUpdates(groups[1..], key, rows, k);
      PutStaysAbove(groups[0].key, groups[1..], key, rows);
      assert Put(groups, key, rows)[1..] == Put(groups[1..], key, rows);
    }
  }

  /** Pushing one row is an update of its group. */
  lemma {:induction false} PushIsPut(groups: seq<Group>, key: string, row: Row)
    requires KeysSorted(groups)
    ensures Push(groups, key, row) == Put(groups, key, Lookup(groups, key).UnwrapOr([]) + [row])
  {
    assert [] + [row] == [row];
    if groups == [] {
    } else if CompareText(key, groups[0].key).Less? {
      BelowAll(key, groups);
    } else if groups[0].key != key {
      PushIsPut(groups[1..], key, row);
    }
  }

  /** A parent is listed exactly when it has children, with all of them, in input order. */
  lemma {:induction false} ByParentExact(summaries: seq<Row>, key: string)
    ensures KeysSorted(ByParent(summaries))
    ensures Lookup(ByParent(summaries), key) ==
            if ChildrenOf(summaries, key) == [] then None else Some(ChildrenOf(summaries, key))
  {
    if summaries != [] {
      var n := |summaries| - 1;
      ByParentExact(summaries[..n], key);
      var before := ChildrenOf(summaries[..n], key);
      assert before + [] == before;
      if summaries[n].parentId.Some? {
        var parent := summaries[n].parentId.value;
        var groups := ByParent(summaries[..n]);
        PushIsPut(groups, parent, summaries[n]);
        PutUpdates(groups, parent, Lookup(groups, parent).UnwrapOr([]) + [summaries[n]], key);
      }
    }
  }

  /** Grouping files every row once: children under their parent, roots under the fixed key. */
  lemma GroupedExact(summaries: seq<Row>, key: string)
    ensures KeysSorted(Grouped(summaries))
    ensures var rows := if key == ROOT_KEY && Roots(summaries) != [] then Roots(summaries) else ChildrenOf(summaries, key);
            Lookup(Grouped(summaries), key) == if rows == [] then None else Some(rows)
  {
    ByParentExact(summaries, key);
    if Roots(summaries) != [] {
      PutUpdates(ByParent(summaries), ROOT_KEY, Roots(summaries), key);
    }
  }

  // ---- Compacting one parent ----

  predicate Eligible(row: Row) {
    && !row.kind.Others? && !row.Mandatory()
    && (row.IsDirectory() || (row.kind.Leaf? && row.Rank().UnwrapOr(0) >= HEAVY_LEAF_THRESHOLD_BYTES))
  }

  predicate Exempt(row: Row) {
    !row.kind.Others? && row.Mandatory()
  }

  predicate Leftover(row: Row) {
    !Eligible(row) && !Exempt(row)
  }

  function Filter(keep: Row -> bool, rows: seq<Row>): seq<Row> {
    if rows == [] then []
    else
      var n := |rows| - 1;
      Filter(keep, rows[..n]) + if keep(rows[n]) then [rows[n]] else []
  }

  function Promoted(row: Row): Row {
    row.(roles := row.roles + {TopHeavyChild})
  }

  function PromoteAll(rows: seq<Row>): seq<Row> {
    if rows == [] then [] else PromoteAll(rows[..|rows| - 1]) + [Promoted(rows[|rows| - 1])]
  }

  function Top(ranked: seq<Row>): seq<Row> {
    if |ranked| <= TOP_HEAVY_CHILDREN then ranked else ranked[..TOP_HEAVY_CHILDREN]
  }

  function Rest(ranked: seq<Row>): seq<Row> {
    if |ranked| <= TOP_HEAVY_CHILDREN then [] else ranked[TOP_HEAVY_CHILDREN..]
  }

  function RankedRows(rows: seq<Row>): seq<Row> {
    Sort(RowBefore, Filter(Eligible, rows))
  }

  /** Rows that go into the summary: those that never qualified, then those ranked too low. */
  function Omitted(rows: seq<Row>): seq<Row> {
    Filter(Leftover, rows) + Rest(RankedRows(rows))
  }

  function Compacted(group: Group): Parent {
    Parent(group.key, group.key, Sort(RowBefore, Filter(Exempt, group.rows) + PromoteAll(Top(RankedRows(group.rows)))),
           SummaryOf(group.key, Omitted(group.rows)))
  }

  /** The first loop of `compact_parent`. */
  method Classify(rows: seq<Row>) returns (mandatory: seq<Row>, eligible: seq<Row>, remainder: seq<Row>)
    ensures mandatory == Filter(Exempt, rows) && eligible == Filter(Eligible, rows) && remainder == Filter(Leftover, rows)
  {
    mandatory, eligible, remainder := [], [], [];
    var k := 0;
    while k < |rows|
      invariant 0 <= k <= |rows|
      invariant mandatory == Filter(Exempt, rows[..k])
      invariant eligible == Filter(Eligible, rows[..k])
      invariant remainder == Filter(Leftover, rows[..k])
    {
      assert rows[..k + 1][..k] == rows[..k];
      var entry := rows[k];
      k := k + 1;
      if entry.kind.Others? {
        remainder := remainder + [entry];
        continue;
      }
      if entry.Mandatory() {
        mandatory := mandatory + [entry];
      } else if entry.IsDirectory() || (entry.kind.Leaf? && entry.Rank().UnwrapOr(0) >= HEAVY_LEAF_THRESHOLD_BYTES) {
        eligible := eligible + [entry];
      } else {
        remainder := remainder + [entry];
      }
    }
    assert rows[..k] == rows;
  }

  /** Its second loop: the best rows are kept and marked, the rest join the remainder. */
  method PromoteBest(mandatory: seq<Row>, eligible: seq<Row>, leftover: seq<Row>)
    returns (retained: seq<Row>, remainder: seq<Row>)
    ensures retained == mandatory + PromoteAll(Top(eligible)) && remainder == leftover + Rest(eligible)
  {
    retained, remainder := mandatory, leftover;
    var index := 0;
    while index < |eligible|
      invariant 0 <= index <= |eligible|
      invariant retained == mandatory + PromoteAll(Top(eligible[..index])) && remainder == leftover + Rest(eligible[..index])
    {
      assert eligible[..index + 1][..index] == eligible[..index];
      if index < TOP_HEAVY_CHILDREN {
        retained := retained + [Promoted(eligible[index])];
      } else {
        assert Top(eligible[..index + 1]) == Top(eligible[..index]);
        remainder := remainder + [eligible[index]];
        assert Rest(eligible[..index + 1]) == Rest(eligible[..index]) + [eligible[index]];
      }
      index := index + 1;
    }
    assert eligible[..index] == eligible;
  }

  /** `compact_parent`. */
  method CompactParent(group: Group) returns (parent: Parent)
    ensures parent == Compacted(group)
  {
    var mandatory, eligible, leftover := Classify(group.rows);
    var retained, remainder := PromoteBest(mandatory, Sort(RowBefore, eligible), leftover);
    parent := Parent(group.key, group.key, Sort(RowBefore, retained), SummaryOf(group.key, remainder));
  }

  /** Exactly one of three predicates holds of everything. */
  ghost predicate OneOf(p: Row -> bool, q: Row -> bool, r: Row -> bool) {
    forall row :: (p(row) || q(row) || r(row)) && !(p(row) && q(row)) && !(p(row) && r(row)) && !(q(row) && r(row))
  }

  lemma {:induction false} FilterTotals(size: Row -> nat, p: Row -> bool, q: Row -> bool, r: Row -> bool, rows: seq<Row>)
    requires OneOf(p, q, r)
    ensures Total(size, Filter(p, rows)) + Total(size, Filter(q, rows)) + Total(size, Filter(r, rows)) == Total(size, rows)
  {
    if rows != [] {
      var n := |rows| - 1;
      FilterTotals(size, p, q, r, rows[..n]);
      TotalOne(size, rows[n]);
      assert p(rows[n]) || q(rows[n]) || r(rows[n]);
      FilterTotalLast(size, p, rows);
      FilterTotalLast(size, q, rows);
      FilterTotalLast(size, r, rows);
    }
  }

  lemma FilterTotalLast(size: Row -> nat, p: Row -> bool, rows: seq<Row>)
    requires rows != []
    ensures var n := |rows| - 1;
            Total(size, Filter(p, rows)) == Total(size, Filter(p, rows[..n])) + if p(rows[n]) then size(rows[n]) else 0
  {
    var n := |rows| - 1;
    var before := Filter(p, rows[..n]);
    TotalConcat(size, before, [rows[n]]);
    TotalOne(size, rows[n]);
    assert before + [] == before;
  }

  /** Every row of a parent is kept, ranked or summarized, exactly once: whatever rows weigh, the
      three parts weigh what the whole does. */
  lemma RowsPartition(weight: Row -> nat, rows: seq<Row>)
    ensures Total(weight, Filter(Exempt, rows)) + Total(weight, Filter(Eligible, rows)) + Total(weight, Filter(Leftover, rows))
         == Total(weight, rows)
  {
    FilterTotals(weight, Exempt, Eligible, Leftover, rows);
  }

  /** The promoted rows are the best ranked: no row left out ranks before one that was promoted. */
  lemma PromotedAreBest(rows: seq<Row>)
    ensures var ranked := RankedRows(rows);
            && Top(ranked) + Rest(ranked) == ranked
            && multiset(ranked) == multiset(Filter(Eligible, rows))
            && (Rest(ranked) != [] ==> |Top(ranked)| == TOP_HEAVY_CHILDREN)
            && forall t, r | t in Top(ranked) && r in Rest(ranked) :: !RowBefore(r, t)
  {
    RowsOrdered();
    SortSorts(RowBefore, Filter(Eligible, rows));
    TopSplits(RankedRows(rows));
  }

  lemma TopSplits(ranked: seq<Row>)
    requires Sorted(RowBefore, ranked)
    ensures Top(ranked) + Rest(ranked) == ranked && (Rest(ranked) != [] ==> |Top(ranked)| == TOP_HEAVY_CHILDREN)
    ensures forall t, r | t in Top(ranked) && r in Rest(ranked) :: !RowBefore(r, t)
  {
    forall t, r | t in Top(ranked) && r in Rest(ranked) ensures !RowBefore(r, t) {
      var i :| 0 <= i < |Top(ranked)| && Top(ranked)[i] == t;
      var j :| 0 <= j < |Rest(ranked)| && Rest(ranked)[j] == r;
      assert ranked[i] == t && ranked[|Top(ranked)| + j] == r;
    }
  }

  // ---- Compacting everything ----

  function CompactAll(groups: seq<Group>): seq<Parent> {
    if groups == [] then [] else CompactAll(groups[..|groups| - 1]) + [Compacted(groups[|groups| - 1])]
  }

  lemma CompactAllNext(groups: seq<Group>, k: nat)
    requires k < |groups|
    ensures CompactAll(groups[..k + 1]) == CompactAll(groups[..k]) + [Compacted(groups[k])]
  {
    assert groups[..k + 1][..k] == groups[..k];
  }

  /** The grouping half of `compact_preview`. */
  method GroupSummaries(summaries: seq<Row>) returns (byParent: seq<Group>)
    ensures byParent == Grouped(summaries)
  {
    byParent := [];
    var roots: seq<Row> := [];
    var k := 0;
    while k < |summaries|
      invariant 0 <= k <= |summaries| && byParent == ByParent(summaries[..k]) && roots == Roots(summaries[..k])
    {
      assert summaries[..k + 1][..k] == summaries[..k];
      match summaries[k].parentId {
        case Some(parent) => byParent := Push(byParent, parent, summaries[k]);
        case None => roots := roots + [summaries[k]];
      }
      k := k + 1;
    }
    assert summaries[..k] == summaries;
    if |roots| != 0 {
      byParent := Put(byParent, ROOT_KEY, roots);
    }
  }

  method CompactGroups(groups: seq<Group>) returns (parents: seq<Parent>)
    ensures parents == CompactAll(groups)
  {
    parents := [];
    var k := 0;
    while k < |groups|
      invariant 0 <= k <= |groups| && parents == CompactAll(groups[..k])
    {
      CompactAllNext(groups, k);
      var parent := CompactParent(groups[k]);
      parents := parents + [parent];
      k := k + 1;
    }
    assert groups[..k] == groups;
  }

  /** `compact_preview`: group, compact each parent, recount, trim. */
  method CompactPreview(size: Row -> nat, summaries: seq<Row>, caps: Caps) returns (preview: Preview)
    ensures var parents := CompactAll(Grouped(summaries));
            preview == Exhausted(Policy(size, FoldInto), Preview(parents, Records(parents), SizeOf(size, parents), false), caps)
  {
    var groups := GroupSummaries(summaries);
    var parents := CompactGroups(groups);
    var records, bytes := RecomputeTotals(size, parents);
    preview := TrimToBudgets(Policy(size, FoldInto), Preview(parents, records, bytes, false), caps);
  }
}