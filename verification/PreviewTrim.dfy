/** Trimming a compacted preview to its record and byte caps: one sort, vacant slots and
    incremental counters, proved equal to exhaustive eviction with a full recount. */
module PreviewTrim {
  import opened Wrappers
  import opened Sorting
  import opened Totals
  import opened PreviewModel

  /** `parents` holds a `BTreeMap`'s entries, so position order is key order. */
  datatype Parent = Parent(key: string, parentId: string, retained: seq<Row>, others: Option<Row>)

  datatype Preview = Preview(parents: seq<Parent>, records: nat, bytes: nat, limited: bool)

  /** How rows are sized, and how an evicted row joins its parent's summary. Everything about
      trimming holds for any policy; the program folds with `FoldInto`. */
  datatype Policy = Policy(size: Row -> nat, fold: (string, Option<Row>, Row) -> Row)

  datatype Caps = Caps(records: nat, bytes: nat)

  predicate Over(caps: Caps, records: nat, bytes: nat) {
    records > caps.records || bytes > caps.bytes
  }

  // ---- Recounting ----

  function OthersSize(size: Row -> nat, others: Option<Row>): nat {
    if others.Some? then size(others.value) else 0
  }

  function Sizes(size: Row -> nat): Parent -> nat {
    (p: Parent) => Total(size, p.retained) + OthersSize(size, p.others)
  }

  function One(row: Row): nat { 1 }

  function Records(parents: seq<Parent>): nat { Total(Sizes(One), parents) }

  function SizeOf(size: Row -> nat, parents: seq<Parent>): nat { Total(Sizes(size), parents) }

  /** `recompute_totals`, for a size estimate that may be any function of a row. */
  method RecomputeTotals(size: Row -> nat, parents: seq<Parent>) returns (records: nat, bytes: nat)
    ensures records == Records(parents) && bytes == SizeOf(size, parents)
  {
    records, bytes := 0, 0;
    var k := 0;
    while k < |parents|
      invariant 0 <= k <= |parents|
      invariant records == Records(parents[..k]) && bytes == SizeOf(size, parents[..k])
    {
      assert parents[..k + 1][..k] == parents[..k];
      CountRows(parents[k].retained);
      records := records + |parents[k].retained|;
      var sum, n := 0, 0;
      while n < |parents[k].retained|
        invariant 0 <= n <= |parents[k].retained| && sum == Total(size, parents[k].retained[..n])
      {
        assert parents[k].retained[..n + 1][..n] == parents[k].retained[..n];
        sum := sum + size(parents[k].retained[n]);
        n := n + 1;
      }
      assert parents[k].retained[..n] == parents[k].retained;
      bytes := bytes + sum;
      if parents[k].others.Some? {
        records := records + 1;
        bytes := bytes + size(parents[k].others.value);
      }
      k := k + 1;
    }
    assert parents[..k] == parents;
  }

  lemma {:induction false} CountRows(rows: seq<Row>)
    ensures Total(One, rows) == |rows|
  {
    if rows != [] {
      CountRows(rows[..|rows| - 1]);
    }
  }

  // ---- Exhaustive eviction ----

  /** A retained row and where it stands. */
  datatype Place = Place(row: Row, parent: nat, slot: nat)

  /** Ranking order; tied rows rank by parent, then position. */
  predicate PlaceBefore(a: Place, b: Place) {
    var o := CompareRows(a.row, b.row);
    o.Less? || (o.Equal? && (a.parent < b.parent || (a.parent == b.parent && a.slot < b.slot)))
  }

  lemma PlacesOrdered()
    ensures StrictWeakOrder(PlaceBefore)
  {
    forall x ensures !PlaceBefore(x, x) {
      CompareRowsFlips(x.row, x.row);
    }
    forall x, y, z | PlaceBefore(x, y) && PlaceBefore(y, z) ensures PlaceBefore(x, z) {
      CompareRowsTransitive(x.row, y.row, z.row);
    }
    forall x, y, z | PlaceBefore(x, y) ensures PlaceBefore(x, z) || PlaceBefore(z, y) {
      CompareRowsFlips(x.row, z.row);
      CompareRowsFlips(z.row, y.row);
      if !PlaceBefore(x, z) && !PlaceBefore(z, y) {
        CompareRowsTransitive(y.row, z.row, x.row);
        CompareRowsFlips(x.row, y.row);
      }
    }
  }

  lemma PlacesTotal(a: Place, b: Place)
    requires a.parent != b.parent || a.slot != b.slot
    ensures PlaceBefore(a, b) != PlaceBefore(b, a)
  {
    CompareRowsFlips(a.row, b.row);
  }

  predicate IsCandidate(parents: seq<Parent>, c: Place) {
    && c.parent < |parents|
    && c.slot < |parents[c.parent].retained|
    && c.row == parents[c.parent].retained[c.slot]
    && !c.row.Mandatory()
  }

  ghost predicate IsWorst(parents: seq<Parent>, c: Place) {
    IsCandidate(parents, c) && forall d | IsCandidate(parents, d) && d != c :: PlaceBefore(d, c)
  }

  function Demoted(row: Row): Row {
    row.(roles := row.roles - {TopHeavyChild})
  }

  function FoldInto(parentId: string, others: Option<Row>, removed: Row): Row {
    OthersRow(parentId, (if others.Some? then [others.value] else []) + [Demoted(removed)])
  }

  function EvictFrom(policy: Policy, parent: Parent, slot: nat): Parent
    requires slot < |parent.retained|
  {
    parent.(retained := Without(parent.retained, slot),
            others := Some(policy.fold(parent.parentId, parent.others, parent.retained[slot])))
  }

  function Evict(policy: Policy, parents: seq<Parent>, c: Place): seq<Parent>
    requires IsCandidate(parents, c)
  {
    parents[c.parent := EvictFrom(policy, parents[c.parent], c.slot)]
  }

  /** How eviction moves any total: the row and the old summary go, the new summary comes. */
  lemma SizeAfterEvict(size: Row -> nat, policy: Policy, parents: seq<Parent>, c: Place)
    requires IsCandidate(parents, c)
    ensures SizeOf(size, Evict(policy, parents, c)) + size(c.row) + OthersSize(size, parents[c.parent].others)
         == SizeOf(size, parents) + OthersSize(size, Evict(policy, parents, c)[c.parent].others)
  {
    var parent := parents[c.parent];
    TotalAfter(Sizes(size), parents, c.parent, EvictFrom(policy, parent, c.slot));
    TotalWithout(size, parent.retained, c.slot);
  }

  function Kept(parents: seq<Parent>): nat {
    Total((p: Parent) => |p.retained|, parents)
  }

  lemma EvictShrinks(policy: Policy, parents: seq<Parent>, c: Place)
    requires IsCandidate(parents, c)
    ensures Kept(Evict(policy, parents, c)) < Kept(parents)
  {
    TotalAfter((p: Parent) => |p.retained|, parents, c.parent, EvictFrom(policy, parents[c.parent], c.slot));
  }

  function Budget(policy: Policy, caps: Caps): seq<Parent> -> bool {
    parents => Over(caps, Records(parents), SizeOf(policy.size, parents))
  }

  /** While the preview is over: search every parent for the lowest-ranked row that may go, merge
      it into that parent's summary, and look again. */
  ghost function Exhaust(policy: Policy, parents: seq<Parent>, over: seq<Parent> -> bool): seq<Parent>
    decreases Kept(parents)
  {
    if !over(parents) then parents
    else if c :| IsWorst(parents, c) then
      EvictShrinks(policy, parents, c);
      Exhaust(policy, Evict(policy, parents, c), over)
    else parents
  }

  /** The outcome of exhaustive eviction with everything recounted at every turn, flagged if a
      cap was ever exceeded. */
  ghost function Exhausted(policy: Policy, start: Preview, caps: Caps): Preview {
    var end := Exhaust(policy, start.parents, Budget(policy, caps));
    Preview(end, Records(end), SizeOf(policy.size, end), start.limited || Budget(policy, caps)(start.parents))
  }

  // ---- Ranking the slots once ----

  ghost predicate NoRepeats<T(!new)>(s: seq<T>) {
    forall i, j | 0 <= i < j < |s| :: s[i] != s[j]
  }

  function RowPlaces(parent: nat, rows: seq<Row>): seq<Place> {
    if rows == [] then []
    else
      var n := |rows| - 1;
      RowPlaces(parent, rows[..n]) + if rows[n].Mandatory() then [] else [Place(rows[n], parent, n)]
  }

  function Places(parents: seq<Parent>): seq<Place> {
    if parents == [] then []
    else
      var n := |parents| - 1;
      Places(parents[..n]) + RowPlaces(n, parents[n].retained)
  }

  lemma {:induction false} RowPlacesExact(parent: nat, rows: seq<Row>)
    ensures NoRepeats(RowPlaces(parent, rows))
    ensures forall c :: c in RowPlaces(parent, rows) <==>
              c.parent == parent && c.slot < |rows| && c.row == rows[c.slot] && !c.row.Mandatory()
  {
    if rows != [] {
      var n := |rows| - 1;
      RowPlacesExact(parent, rows[..n]);
      var first, last := RowPlaces(parent, rows[..n]), if rows[n].Mandatory() then [] else [Place(rows[n], parent, n)];
      forall c: Place ensures c in first + last <==> c.parent == parent && c.slot < |rows| && c.row == rows[c.slot] && !c.row.Mandatory() {
        assert c in first <==> c.parent == parent && c.slot < n && c.row == rows[..n][c.slot] && !c.row.Mandatory();
      }
      forall i, j | 0 <= i < |first| && 0 <= j < |last| ensures first[i] != last[j] {
        assert first[i] in first;
      }
    }
  }

  lemma {:induction false} PlacesExact(parents: seq<Parent>)
    ensures NoRepeats(Places(parents))
    ensures forall c :: c in Places(parents) <==> IsCandidate(parents, c)
  {
    if parents != [] {
      var n := |parents| - 1;
      PlacesExact(parents[..n]);
      RowPlacesExact(n, parents[n].retained);
      var first, last := Places(parents[..n]), RowPlaces(n, parents[n].retained);
      forall c ensures c in first + last <==> IsCandidate(parents, c) {
        assert c in first <==> IsCandidate(parents[..n], c);
      }
      forall i, j | 0 <= i < |first| && 0 <= j < |last| ensures first[i] != last[j] {
        assert first[i] in first && last[j] in last;
      }
    }
  }

  lemma {:induction false} CountedOnce<T(!new)>(s: seq<T>, x: T)
    requires NoRepeats(s)
    ensures multiset(s)[x] <= 1
  {
    if s != [] {
      var n := |s| - 1;
      CountedOnce(s[..n], x);
      assert s == s[..n] + [s[n]];
      assert s[n] !in s[..n];
    }
  }

  lemma RepeatCounts<T(!new)>(s: seq<T>, i: nat, j: nat)
    requires i < j < |s| && s[i] == s[j]
    ensures multiset(s)[s[j]] >= 2
  {
    assert s == s[..j] + [s[j]] + s[j + 1..];
    assert s[..j][i] in s[..j];
    assert multiset(s) == multiset(s[..j]) + multiset{s[j]} + multiset(s[j + 1..]);
  }

  lemma SameElementsNoRepeats<T(!new)>(s: seq<T>, t: seq<T>)
    requires NoRepeats(s) && multiset(s) == multiset(t)
    ensures NoRepeats(t)
  {
    forall i, j | 0 <= i < j < |t| ensures t[i] != t[j] {
      CountedOnce(s, t[j]);
      if t[i] == t[j] {
        RepeatCounts(t, i, j);
        assert false;
      }
    }
  }

  /** `ranked` lists exactly the evictable rows, best first. */
  ghost predicate Ranking(parents: seq<Parent>, ranked: seq<Place>) {
    && (forall c :: c in ranked <==> IsCandidate(parents, c))
    && (forall i, j {:trigger PlaceBefore(ranked[i], ranked[j])} | 0 <= i < j < |ranked| :: PlaceBefore(ranked[i], ranked[j]))
  }

  lemma RankedOnce(parents: seq<Parent>, ranked: seq<Place>, m: nat)
    requires Ranking(parents, ranked) && m < |ranked|
    ensures ranked[m] !in ranked[..m]
  {
    forall i | 0 <= i < m ensures ranked[i] != ranked[m] {
      assert PlaceBefore(ranked[i], ranked[m]);
      CompareRowsFlips(ranked[m].row, ranked[m].row);
    }
  }

  function Ranked(parents: seq<Parent>): seq<Place> {
    Sort(PlaceBefore, Places(parents))
  }

  lemma RankedRanks(parents: seq<Parent>)
    ensures Ranking(parents, Ranked(parents))
  {
    var ranked := Ranked(parents);
    PlacesOrdered();
    SortSorts(PlaceBefore, Places(parents));
    PlacesExact(parents);
    SameElementsNoRepeats(Places(parents), ranked);
    forall c ensures c in ranked <==> IsCandidate(parents, c) {
      assert c in multiset(ranked) <==> c in multiset(Places(parents));
    }
    forall i, j | 0 <= i < j < |ranked| ensures PlaceBefore(ranked[i], ranked[j]) {
      assert ranked[i] in ranked && ranked[j] in ranked && ranked[i] != ranked[j];
      PlacesTotal(ranked[i], ranked[j]);
    }
  }

  // ---- Vacant slots ----

  /** One parent while trimming: evicted rows leave a hole, so positions never shift. */
  datatype Slots = Slots(key: string, parentId: string, retained: seq<Option<Row>>, others: Option<Row>, othersBytes: nat)

  function Occupied(policy: Policy, parents: seq<Parent>): seq<Slots> {
    seq(|parents|, p requires 0 <= p < |parents| =>
      Slots(parents[p].key, parents[p].parentId,
            seq(|parents[p].retained|, i requires 0 <= i < |parents[p].retained| => Some(parents[p].retained[i])),
            parents[p].others, OthersSize(policy.size, parents[p].others)))
  }

  function Flatten<T>(slots: seq<Option<T>>): seq<T> {
    if slots == [] then []
    else
      var n := |slots| - 1;
      Flatten(slots[..n]) + if slots[n].Some? then [slots[n].value] else []
  }

  function Dense(slots: Slots): Parent {
    Parent(slots.key, slots.parentId, Flatten(slots.retained), slots.others)
  }

  function AllDense(all: seq<Slots>): seq<Parent> {
    seq(|all|, p requires 0 <= p < |all| => Dense(all[p]))
  }

  /** Where slot `i` lands once the holes are squeezed out. */
  function Landing<T>(slots: seq<Option<T>>, i: nat): nat
    requires i <= |slots|
  {
    |Flatten(slots[..i])|
  }

  lemma {:induction false} FlattenAt<T>(slots: seq<Option<T>>, i: nat)
    requires i < |slots| && slots[i].Some?
    ensures Landing(slots, i) < |Flatten(slots)| && Flatten(slots)[Landing(slots, i)] == slots[i].value
    ensures Flatten(slots[i := None]) == Without(Flatten(slots), Landing(slots, i))
  {
    var n := |slots| - 1;
    if i == n {
      assert slots[i := None][..n] == slots[..n];
    } else {
      FlattenAt(slots[..n], i);
      assert slots[..n][..i] == slots[..i];
      assert slots[i := None][..n] == slots[..n][i := None];
    }
  }

  lemma {:induction false} FlattenOrigin<T>(slots: seq<Option<T>>, k: nat) returns (i: nat)
    requires k < |Flatten(slots)|
    ensures i < |slots| && slots[i].Some? && Landing(slots, i) == k && slots[i].value == Flatten(slots)[k]
  {
    var n := |slots| - 1;
    if k < |Flatten(slots[..n])| {
      i := FlattenOrigin(slots[..n], k);
      assert slots[..n][..i] == slots[..i];
    } else {
      i := n;
    }
  }

  lemma {:induction false} LandingGrows<T>(slots: seq<Option<T>>, i: nat, j: nat)
    requires i < j <= |slots|
    ensures Landing(slots, i) + (if slots[i].Some? then 1 else 0) <= Landing(slots, j)
  {
    assert slots[..j][..j - 1] == slots[..j - 1];
    if i < j - 1 {
      LandingGrows(slots, i, j - 1);
    }
  }

  lemma {:induction false} FlattenFull<T>(rows: seq<T>, slots: seq<Option<T>>)
    requires |slots| == |rows| && forall i | 0 <= i < |rows| :: slots[i] == Some(rows[i])
    ensures Flatten(slots) == rows
  {
    if rows != [] {
      FlattenFull(rows[..|rows| - 1], slots[..|rows| - 1]);
    }
  }

  // ---- The state after evicting everything ranked at `m` or below ----

  /** What is left in a slot: mandatory rows, and rows ranked above `m`. */
  ghost function SlotAfter(parents: seq<Parent>, ranked: seq<Place>, m: nat, p: nat, i: nat): Option<Row>
    requires m <= |ranked| && p < |parents| && i < |parents[p].retained|
  {
    var row := parents[p].retained[i];
    if row.Mandatory() || Place(row, p, i) in ranked[..m] then Some(row) else None
  }

  ghost predicate ShapeAt(policy: Policy, parents: seq<Parent>, ranked: seq<Place>, m: nat, p: nat, slots: Slots)
    requires m <= |ranked| && p < |parents|
  {
    && slots.key == parents[p].key && slots.parentId == parents[p].parentId
    && slots.othersBytes == OthersSize(policy.size, slots.others)
    && |slots.retained| == |parents[p].retained|
    && forall i | 0 <= i < |slots.retained| :: slots.retained[i] == SlotAfter(parents, ranked, m, p, i)
  }

  ghost predicate Shape(policy: Policy, parents: seq<Parent>, ranked: seq<Place>, m: nat, all: seq<Slots>)
    requires m <= |ranked|
  {
    && |all| == |parents|
    && forall p {:trigger ShapeAt(policy, parents, ranked, m, p, all[p])} | 0 <= p < |all| :: ShapeAt(policy, parents, ranked, m, p, all[p])
  }

  predicate Holds(all: seq<Slots>, c: Place) {
    c.parent < |all| && c.slot < |all[c.parent].retained| && all[c.parent].retained[c.slot] == Some(c.row)
  }

  function EvictSlot(policy: Policy, all: seq<Slots>, c: Place): seq<Slots>
    requires Holds(all, c)
  {
    var slots := all[c.parent];
    var others := policy.fold(slots.parentId, slots.others, c.row);
    all[c.parent := slots.(retained := slots.retained[c.slot := None], others := Some(others), othersBytes := policy.size(others))]
  }

  lemma OccupiedShape(policy: Policy, parents: seq<Parent>, ranked: seq<Place>)
    requires Ranking(parents, ranked)
    ensures Shape(policy, parents, ranked, |ranked|, Occupied(policy, parents))
    ensures AllDense(Occupied(policy, parents)) == parents
  {
    assert ranked[..|ranked|] == ranked;
    forall p | 0 <= p < |parents|
      ensures ShapeAt(policy, parents, ranked, |ranked|, p, Occupied(policy, parents)[p])
      ensures Dense(Occupied(policy, parents)[p]) == parents[p]
    {
      FlattenFull(parents[p].retained, Occupied(policy, parents)[p].retained);
      forall i | 0 <= i < |parents[p].retained|
        ensures SlotAfter(parents, ranked, |ranked|, p, i) == Some(parents[p].retained[i])
      {
        assert parents[p].retained[i].Mandatory() || IsCandidate(parents, Place(parents[p].retained[i], p, i));
      }
    }
  }

  /** The lowest-ranked slot still occupied holds its row. */
  lemma LowestSlotHolds(policy: Policy, parents: seq<Parent>, ranked: seq<Place>, m: nat, slots: Slots)
    requires Ranking(parents, ranked) && m < |ranked| && ranked[m].parent < |parents|
    requires ShapeAt(policy, parents, ranked, m + 1, ranked[m].parent, slots)
    ensures ranked[m].slot < |slots.retained| && slots.retained[ranked[m].slot] == Some(ranked[m].row)
  {
    var c := ranked[m];
    assert c in ranked && IsCandidate(parents, c);
    assert c == ranked[..m + 1][m];
    assert slots.retained[c.slot] == SlotAfter(parents, ranked, m + 1, c.parent, c.slot);
  }

  /** Ranking one place higher changes nothing but that place. */
  lemma SlotAfterOneMore(parents: seq<Parent>, ranked: seq<Place>, m: nat, p: nat, i: nat)
    requires Ranking(parents, ranked) && m < |ranked| && p < |parents| && i < |parents[p].retained|
    ensures SlotAfter(parents, ranked, m, p, i) ==
            if p == ranked[m].parent && i == ranked[m].slot then None else SlotAfter(parents, ranked, m + 1, p, i)
  {
    var c, here := ranked[m], Place(parents[p].retained[i], p, i);
    assert c in ranked && IsCandidate(parents, c);
    assert ranked[..m + 1] == ranked[..m] + [c];
    RankedOnce(parents, ranked, m);
    assert here in ranked[..m + 1] <==> here in ranked[..m] || here == c;
  }

  /** Vacating the lowest-ranked slot keeps the shape. */
  lemma EvictSlotShape(policy: Policy, parents: seq<Parent>, ranked: seq<Place>, m: nat, all: seq<Slots>)
    requires Ranking(parents, ranked) && m < |ranked| && Shape(policy, parents, ranked, m + 1, all)
    ensures var c := ranked[m];
            && Holds(all, c)
            && Shape(policy, parents, ranked, m, EvictSlot(policy, all, c))
  {
    var c := ranked[m];
    assert c in ranked && IsCandidate(parents, c);
    LowestSlotHolds(policy, parents, ranked, m, all[c.parent]);
    var after := EvictSlot(policy, all, c);
    forall p | 0 <= p < |all| ensures ShapeAt(policy, parents, ranked, m, p, after[p]) {
      assert ShapeAt(policy, parents, ranked, m + 1, p, all[p]);
      forall i | 0 <= i < |after[p].retained| ensures after[p].retained[i] == SlotAfter(parents, ranked, m, p, i) {
        SlotAfterOneMore(parents, ranked, m, p, i);
      }
    }
  }

  /** The slots once `ranked[m..]` is gone, lowest first. */
  function Vacated(policy: Policy, parents: seq<Parent>, ranked: seq<Place>, m: nat): seq<Slots>
    requires m <= |ranked|
    decreases |ranked| - m
  {
    if m == |ranked| then Occupied(policy, parents)
    else
      var before := Vacated(policy, parents, ranked, m + 1);
      if Holds(before, ranked[m]) then EvictSlot(policy, before, ranked[m]) else before
  }

  lemma {:induction false} VacatedShape(policy: Policy, parents: seq<Parent>, ranked: seq<Place>, m: nat)
    requires Ranking(parents, ranked) && m <= |ranked|
    ensures Shape(policy, parents, ranked, m, Vacated(policy, parents, ranked, m))
    decreases |ranked| - m
  {
    if m == |ranked| {
      OccupiedShape(policy, parents, ranked);
    } else {
      VacatedShape(policy, parents, ranked, m + 1);
      EvictSlotShape(policy, parents, ranked, m, Vacated(policy, parents, ranked, m + 1));
    }
  }

  // ---- The lowest-ranked occupied slot is the row exhaustive search would pick ----

  /** A candidate among the squeezed rows comes from a ranked slot that is still occupied. */
  lemma CandidateOrigin(policy: Policy, parents: seq<Parent>, ranked: seq<Place>, m: nat, all: seq<Slots>, d: Place)
    returns (n: nat)
    requires Ranking(parents, ranked) && m <= |ranked| && Shape(policy, parents, ranked, m, all)
    requires IsCandidate(AllDense(all), d)
    ensures n < m && ranked[n].row == d.row && ranked[n].parent == d.parent
    ensures ranked[n].slot < |all[d.parent].retained| && all[d.parent].retained[ranked[n].slot].Some?
    ensures Landing(all[d.parent].retained, ranked[n].slot) == d.slot
  {
    var slots := all[d.parent];
    assert ShapeAt(policy, parents, ranked, m, d.parent, slots);
    var i := FlattenOrigin(slots.retained, d.slot);
    assert slots.retained[i] == SlotAfter(parents, ranked, m, d.parent, i);
    var c := Place(d.row, d.parent, i);
    assert c in ranked[..m];
    n :| 0 <= n < m && ranked[..m][n] == c;
  }

  /** Squeezing out the holes keeps the order of places. */
  lemma LandingKeepsOrder(all: seq<Slots>, a: Place, b: Place, i: nat, j: nat)
    requires a.parent < |all| && b.parent < |all|
    requires i < |all[a.parent].retained| && all[a.parent].retained[i].Some?
    requires j < |all[b.parent].retained|
    requires a.slot == Landing(all[a.parent].retained, i) && b.slot == Landing(all[b.parent].retained, j)
    requires PlaceBefore(a.(slot := i), b.(slot := j))
    ensures PlaceBefore(a, b)
  {
    if a.parent == b.parent && i < j {
      LandingGrows(all[a.parent].retained, i, j);
    }
  }

  ghost function Landed(all: seq<Slots>, c: Place): Place
    requires c.parent < |all| && c.slot < |all[c.parent].retained|
  {
    c.(slot := Landing(all[c.parent].retained, c.slot))
  }

  lemma SqueezedAfterEvict(policy: Policy, all: seq<Slots>, c: Place)
    requires Holds(all, c)
    requires !c.row.Mandatory()
    ensures IsCandidate(AllDense(all), Landed(all, c))
    ensures Evict(policy, AllDense(all), Landed(all, c)) == AllDense(EvictSlot(policy, all, c))
  {
    FlattenAt(all[c.parent].retained, c.slot);
  }

  lemma LowestIsBelow(policy: Policy, parents: seq<Parent>, ranked: seq<Place>, m: nat, all: seq<Slots>, d: Place)
    requires Ranking(parents, ranked) && m < |ranked| && Shape(policy, parents, ranked, m + 1, all)
    requires ranked[m].parent < |all| && ranked[m].slot < |all[ranked[m].parent].retained|
    requires IsCandidate(AllDense(all), d) && d != Landed(all, ranked[m])
    ensures PlaceBefore(d, Landed(all, ranked[m]))
  {
    var n := CandidateOrigin(policy, parents, ranked, m + 1, all, d);
    assert n < m;
    assert PlaceBefore(ranked[n], ranked[m]);
    LandingKeepsOrder(all, d, Landed(all, ranked[m]), ranked[n].slot, ranked[m].slot);
  }

  /** The lowest-ranked occupied slot is the row exhaustive search would pick, and vacating it
      is that eviction. */
  lemma LowestIsWorst(policy: Policy, parents: seq<Parent>, ranked: seq<Place>, m: nat, all: seq<Slots>)
    requires Ranking(parents, ranked) && m < |ranked| && Shape(policy, parents, ranked, m + 1, all)
    ensures var c := ranked[m];
            && Holds(all, c)
            && IsWorst(AllDense(all), Landed(all, c))
            && Evict(policy, AllDense(all), Landed(all, c)) == AllDense(EvictSlot(policy, all, c))
  {
    var c := ranked[m];
    assert c in ranked && IsCandidate(parents, c);
    LowestSlotHolds(policy, parents, ranked, m, all[c.parent]);
    SqueezedAfterEvict(policy, all, c);
    var dense, landed := AllDense(all), Landed(all, c);
    forall d | IsCandidate(dense, d) && d != landed ensures PlaceBefore(d, landed) {
      LowestIsBelow(policy, parents, ranked, m, all, d);
    }
  }

  lemma WorstIsOne(parents: seq<Parent>, c: Place, d: Place)
    requires IsWorst(parents, c) && IsWorst(parents, d)
    ensures c == d
  {
    if c != d {
      PlacesTotal(c, d);
    }
  }

  /** Exhaustive search finds a row to evict exactly when some row may go. */
  lemma WorstExists(policy: Policy, parents: seq<Parent>)
    ensures (exists c :: IsWorst(parents, c)) <==> (exists c :: IsCandidate(parents, c))
  {
    var ranked := Ranked(parents);
    RankedRanks(parents);
    if c :| IsCandidate(parents, c) {
      assert c in ranked;
      var m := |ranked| - 1;
      OccupiedShape(policy, parents, ranked);
      LowestIsWorst(policy, parents, ranked, m, Occupied(policy, parents));
    }
  }

  lemma ExhaustEvicts(policy: Policy, parents: seq<Parent>, over: seq<Parent> -> bool, c: Place)
    requires IsWorst(parents, c) && over(parents)
    ensures Exhaust(policy, parents, over) == Exhaust(policy, Evict(policy, parents, c), over)
  {
    forall d | IsWorst(parents, d) ensures d == c {
      WorstIsOne(parents, c, d);
    }
  }

  lemma NothingLeft(policy: Policy, parents: seq<Parent>, ranked: seq<Place>, all: seq<Slots>)
    requires Ranking(parents, ranked) && Shape(policy, parents, ranked, 0, all)
    ensures forall c :: !IsCandidate(AllDense(all), c)
  {
    if c :| IsCandidate(AllDense(all), c) {
      var n := CandidateOrigin(policy, parents, ranked, 0, all, c);
      assert false;
    }
  }

  // ---- Where trimming stops ----

  /** Still over once everything ranked at `k` or below is gone. */
  ghost predicate OverAt(policy: Policy, parents: seq<Parent>, ranked: seq<Place>, over: seq<Parent> -> bool, k: nat)
    requires Ranking(parents, ranked) && k <= |ranked|
  {
    over(AllDense(Vacated(policy, parents, ranked, k)))
  }

  /** Every eviction down to `m` was needed. */
  ghost predicate OverUntil(policy: Policy, parents: seq<Parent>, ranked: seq<Place>, over: seq<Parent> -> bool, m: nat)
    requires Ranking(parents, ranked) && m <= |ranked|
    decreases |ranked| - m
  {
    m < |ranked| ==> OverAt(policy, parents, ranked, over, m + 1) && OverUntil(policy, parents, ranked, over, m + 1)
  }

  lemma OverUntilNext(policy: Policy, parents: seq<Parent>, ranked: seq<Place>, over: seq<Parent> -> bool, m: nat)
    requires Ranking(parents, ranked) && 0 < m <= |ranked|
    requires OverUntil(policy, parents, ranked, over, m) && over(AllDense(Vacated(policy, parents, ranked, m)))
    ensures OverUntil(policy, parents, ranked, over, m - 1)
  {
    assert OverAt(policy, parents, ranked, over, m);
  }

  lemma {:induction false} OverThroughout(policy: Policy, parents: seq<Parent>, ranked: seq<Place>, over: seq<Parent> -> bool, m: nat, k: nat)
    requires Ranking(parents, ranked) && m < k <= |ranked| && OverUntil(policy, parents, ranked, over, m)
    ensures OverAt(policy, parents, ranked, over, k)
    decreases |ranked| - m
  {
    if k != m + 1 {
      OverThroughout(policy, parents, ranked, over, m + 1, k);
    }
  }

  lemma ExhaustStep(policy: Policy, parents: seq<Parent>, ranked: seq<Place>, over: seq<Parent> -> bool, m: nat)
    requires Ranking(parents, ranked) && 0 < m <= |ranked| && OverAt(policy, parents, ranked, over, m)
    ensures Exhaust(policy, AllDense(Vacated(policy, parents, ranked, m)), over)
         == Exhaust(policy, AllDense(Vacated(policy, parents, ranked, m - 1)), over)
  {
    var all := Vacated(policy, parents, ranked, m);
    VacatedShape(policy, parents, ranked, m);
    LowestIsWorst(policy, parents, ranked, m - 1, all);
    ExhaustEvicts(policy, AllDense(all), over, Landed(all, ranked[m - 1]));
  }

  lemma {:induction false} ExhaustReaches(policy: Policy, parents: seq<Parent>, ranked: seq<Place>, over: seq<Parent> -> bool, m: nat)
    requires Ranking(parents, ranked) && m <= |ranked| && OverUntil(policy, parents, ranked, over, m)
    ensures Exhaust(policy, parents, over) == Exhaust(policy, AllDense(Vacated(policy, parents, ranked, m)), over)
    decreases |ranked| - m
  {
    if m < |ranked| {
      ExhaustReaches(policy, parents, ranked, over, m + 1);
      ExhaustStep(policy, parents, ranked, over, m + 1);
    } else {
      OccupiedShape(policy, parents, ranked);
      assert Vacated(policy, parents, ranked, m) == Occupied(policy, parents);
    }
  }

  /** Exhaustive eviction ends with `ranked[m..]` gone, for the highest `m` at which the caps
      hold, or with nothing left to evict. */
  lemma ExhaustEnds(policy: Policy, parents: seq<Parent>, ranked: seq<Place>, over: seq<Parent> -> bool, m: nat)
    requires Ranking(parents, ranked) && m <= |ranked| && OverUntil(policy, parents, ranked, over, m)
    requires m == 0 || !OverAt(policy, parents, ranked, over, m)
    ensures Exhaust(policy, parents, over) == AllDense(Vacated(policy, parents, ranked, m))
  {
    ExhaustReaches(policy, parents, ranked, over, m);
    if m == 0 {
      VacatedShape(policy, parents, ranked, m);
      NothingLeft(policy, parents, ranked, Vacated(policy, parents, ranked, m));
    }
  }

  /** The counters move exactly as a recount would, and never below zero on the way. */
  lemma CountersTrack(policy: Policy, all: seq<Slots>, c: Place)
    requires Holds(all, c)
    requires IsCandidate(AllDense(all), Landed(all, c))
    requires Evict(policy, AllDense(all), Landed(all, c)) == AllDense(EvictSlot(policy, all, c))
    ensures var now, next := AllDense(all), AllDense(EvictSlot(policy, all, c));
            var others := EvictSlot(policy, all, c)[c.parent].others;
            && Records(now) >= 1
            && Records(next) == Records(now) - 1 + (if all[c.parent].others.Some? then 0 else 1)
            && SizeOf(policy.size, now) >= policy.size(c.row) + OthersSize(policy.size, all[c.parent].others)
            && SizeOf(policy.size, next) == SizeOf(policy.size, now) - policy.size(c.row) - OthersSize(policy.size, all[c.parent].others) + policy.size(others.value)
  {
    var now := AllDense(all);
    var landed := Landed(all, c);
    SizeAfterEvict(One, policy, now, landed);
    SizeAfterEvict(policy.size, policy, now, landed);
    EvictedFits(policy.size, now, landed);
    EvictedFits(One, now, landed);
  }

  /** A row and its parent's summary are part of the total. */
  lemma EvictedFits(size: Row -> nat, parents: seq<Parent>, c: Place)
    requires IsCandidate(parents, c)
    ensures SizeOf(size, parents) >= size(c.row) + OthersSize(size, parents[c.parent].others)
  {
    TotalAfter(Sizes(size), parents, c.parent, Parent("", "", [], None));
    TotalWithout(size, parents[c.parent].retained, c.slot);
  }

  /** One turn: the slot is occupied, no counter underflows, and the counters after it are what
      a recount would find. */
  lemma TrimStep(policy: Policy, parents: seq<Parent>, ranked: seq<Place>, m: nat, all: seq<Slots>, records: nat, bytes: nat)
    requires Ranking(parents, ranked) && m < |ranked| && all == Vacated(policy, parents, ranked, m + 1)
    requires records == Records(AllDense(all)) && bytes == SizeOf(policy.size, AllDense(all))
    ensures var c := ranked[m];
            && Holds(all, c) && IsWorst(AllDense(all), Landed(all, c))
            && AllDense(EvictSlot(policy, all, c)) == Evict(policy, AllDense(all), Landed(all, c))
            && records >= 1 && bytes >= policy.size(c.row) + all[c.parent].othersBytes
            && var next := EvictSlot(policy, all, c);
            && next == Vacated(policy, parents, ranked, m)
            && Records(AllDense(next)) == records - 1 + (if all[c.parent].others.Some? then 0 else 1)
            && SizeOf(policy.size, AllDense(next)) == bytes - policy.size(c.row) - all[c.parent].othersBytes + next[c.parent].othersBytes
  {
    var c := ranked[m];
    VacatedShape(policy, parents, ranked, m + 1);
    LowestIsWorst(policy, parents, ranked, m, all);
    CountersTrack(policy, all, c);
    assert ShapeAt(policy, parents, ranked, m + 1, c.parent, all[c.parent]);
  }

  /** The loop body: take the row out of its slot, merge it into the summary, adjust. That is one
      turn of exhaustive search, and the adjusted counters are what a recount would find. */
  method EvictOne(policy: Policy, ghost parents: seq<Parent>, ranked: seq<Place>, m: nat, all: seq<Slots>, records: nat, bytes: nat)
    returns (recordsAfter: nat, bytesAfter: nat, after: seq<Slots>)
    requires Ranking(parents, ranked) && m < |ranked| && all == Vacated(policy, parents, ranked, m + 1)
    requires records == Records(AllDense(all)) && bytes == SizeOf(policy.size, AllDense(all))
    ensures exists worst :: IsWorst(AllDense(all), worst) && AllDense(after) == Evict(policy, AllDense(all), worst)
    ensures recordsAfter == Records(AllDense(after)) && bytesAfter == SizeOf(policy.size, AllDense(after))
    ensures after == Vacated(policy, parents, ranked, m)
  {
    TrimStep(policy, parents, ranked, m, all, records, bytes);
    var c := ranked[m];
    var slots := all[c.parent];
    var removed := slots.retained[c.slot].value;
    var removedBytes := policy.size(removed);
    var others := policy.fold(slots.parentId, slots.others, removed);
    var othersBytes := policy.size(others);
    recordsAfter := records - 1 + if slots.others.Some? then 0 else 1;
    bytesAfter := bytes - removedBytes - slots.othersBytes + othersBytes;
    after := all[c.parent := slots.(retained := slots.retained[c.slot := None], others := Some(others), othersBytes := othersBytes)];
  }

  /** The loop over ranked slots, lowest first, until both caps hold or none is left. */
  method EvictUntilFits(policy: Policy, start: Preview, caps: Caps, ranked: seq<Place>)
    returns (all: seq<Slots>, records: nat, bytes: nat, ghost m: nat)
    requires Ranking(start.parents, ranked)
    requires start.records == Records(start.parents) && start.bytes == SizeOf(policy.size, start.parents)
    ensures m <= |ranked| && all == Vacated(policy, start.parents, ranked, m)
    ensures records == Records(AllDense(all)) && bytes == SizeOf(policy.size, AllDense(all))
    ensures OverUntil(policy, start.parents, ranked, Budget(policy, caps), m) && (m == 0 || !Over(caps, records, bytes))
  {
    all, records, bytes := Occupied(policy, start.parents), start.records, start.bytes;
    var next := |ranked|;
    OccupiedShape(policy, start.parents, ranked);
    while next > 0 && Over(caps, records, bytes)
      invariant 0 <= next <= |ranked| && all == Vacated(policy, start.parents, ranked, next)
      invariant records == Records(AllDense(all)) && bytes == SizeOf(policy.size, AllDense(all))
      invariant OverUntil(policy, start.parents, ranked, Budget(policy, caps), next)
    {
      OverUntilNext(policy, start.parents, ranked, Budget(policy, caps), next);
      next := next - 1;
      records, bytes, all := EvictOne(policy, start.parents, ranked, next, all, records, bytes);
    }
    m := next;
  }

  /** `trim_to_budgets`. `compacted` carries totals that have just been recomputed; `policy.size`
      is any estimate of a row's serialized length. */
  method TrimToBudgets(policy: Policy, compacted: Preview, caps: Caps) returns (trimmed: Preview)
    requires compacted.records == Records(compacted.parents) && compacted.bytes == SizeOf(policy.size, compacted.parents)
    ensures trimmed == Exhausted(policy, compacted, caps)
  {
    if !Over(caps, compacted.records, compacted.bytes) {
      return compacted;
    }
    var ranked := Ranked(compacted.parents);
    RankedRanks(compacted.parents);
    var all, records, bytes, m := EvictUntilFits(policy, compacted, caps, ranked);
    ExhaustEnds(policy, compacted.parents, ranked, Budget(policy, caps), m);
    trimmed := Preview(AllDense(all), records, bytes, true);
  }

  // ---- What trimming leaves ----

  ghost predicate Survives(parents: seq<Parent>, ranked: seq<Place>, m: nat, p: nat, i: nat)
    requires m <= |ranked| && p < |parents| && i < |parents[p].retained|
  {
    SlotAfter(parents, ranked, m, p, i).Some?
  }

  lemma Cutoff(policy: Policy, parents: seq<Parent>, ranked: seq<Place>, over: seq<Parent> -> bool) returns (m: nat)
    requires Ranking(parents, ranked)
    ensures m <= |ranked| && OverUntil(policy, parents, ranked, over, m)
    ensures m == 0 || !OverAt(policy, parents, ranked, over, m)
  {
    m := |ranked|;
    while m > 0 && OverAt(policy, parents, ranked, over, m)
      invariant m <= |ranked| && OverUntil(policy, parents, ranked, over, m)
    {
      OverUntilNext(policy, parents, ranked, over, m);
      m := m - 1;
    }
  }

  /** The outcome, for some cut-off `m` in the one global ranking: the caps hold or nothing more
      may go; each eviction happened while a cap was exceeded; counters equal a recount. */
  lemma TrimOutcome(policy: Policy, start: Preview, caps: Caps) returns (m: nat)
    ensures var end, ranked := Exhausted(policy, start, caps), Ranked(start.parents);
            && Ranking(start.parents, ranked) && m <= |ranked|
            && end.parents == AllDense(Vacated(policy, start.parents, ranked, m))
            && (!Over(caps, end.records, end.bytes) || forall c :: !IsCandidate(end.parents, c))
            && OverUntil(policy, start.parents, ranked, Budget(policy, caps), m)
            && end.records == Records(end.parents) && end.bytes == SizeOf(policy.size, end.parents)
  {
    var ranked := Ranked(start.parents);
    RankedRanks(start.parents);
    m := Cutoff(policy, start.parents, ranked, Budget(policy, caps));
    ExhaustEnds(policy, start.parents, ranked, Budget(policy, caps), m);
    if m == 0 {
      VacatedShape(policy, start.parents, ranked, m);
      NothingLeft(policy, start.parents, ranked, Vacated(policy, start.parents, ranked, m));
    }
  }

  /** Mandatory rows survive any trimming. */
  lemma MandatorySurvives(policy: Policy, start: Preview, caps: Caps, p: nat, i: nat)
    requires p < |start.parents| && i < |start.parents[p].retained| && start.parents[p].retained[i].Mandatory()
    ensures var end := Exhausted(policy, start, caps).parents;
            p < |end| && start.parents[p].retained[i] in end[p].retained
  {
    var m := TrimOutcome(policy, start, caps);
    var ranked := Ranked(start.parents);
    var all := Vacated(policy, start.parents, ranked, m);
    VacatedShape(policy, start.parents, ranked, m);
    assert ShapeAt(policy, start.parents, ranked, m, p, all[p]);
    assert all[p].retained[i] == SlotAfter(start.parents, ranked, m, p, i);
    FlattenAt(all[p].retained, i);
  }

  lemma InPrefix(ranked: seq<Place>, m: nat, g: nat)
    requires g < m <= |ranked|
    ensures ranked[g] in ranked[..m]
  {
    assert ranked[..m][g] == ranked[g];
  }

  /** Whatever was evicted, from any parent, ranks at or below every row that was kept and could
      have gone, in any parent. */
  lemma EvictedRankBelowKept(parents: seq<Parent>, ranked: seq<Place>, m: nat, p: nat, i: nat, q: nat, j: nat)
    requires Ranking(parents, ranked) && m <= |ranked|
    requires p < |parents| && i < |parents[p].retained| && !Survives(parents, ranked, m, p, i)
    requires q < |parents| && j < |parents[q].retained| && Survives(parents, ranked, m, q, j)
    requires !parents[q].retained[j].Mandatory()
    ensures !CompareRows(parents[p].retained[i], parents[q].retained[j]).Less?
  {
    var gone, kept := Place(parents[p].retained[i], p, i), Place(parents[q].retained[j], q, j);
    assert IsCandidate(parents, gone) && IsCandidate(parents, kept);
    var g: nat :| g < |ranked| && ranked[g] == gone;
    var k: nat :| k < m && ranked[..m][k] == kept;
    if g < m {
      InPrefix(ranked, m, g);
      assert false;
    }
    assert PlaceBefore(ranked[k], ranked[g]);
    CompareRowsFlips(kept.row, gone.row);
  }

  /** Rows evicted from parent `p`, in the order they went. */
  function EvictedOf(ranked: seq<Place>, m: nat, p: nat): seq<Row>
    requires m <= |ranked|
    decreases |ranked| - m
  {
    if m == |ranked| then []
    else EvictedOf(ranked, m + 1, p) + if ranked[m].parent == p then [Demoted(ranked[m].row)] else []
  }

  function SummaryOf(parentId: string, omitted: seq<Row>): Option<Row> {
    if omitted == [] then None else Some(OthersRow(parentId, omitted))
  }

  lemma FoldExtends(parentId: string, omitted: seq<Row>, row: Row)
    ensures Some(FoldInto(parentId, SummaryOf(parentId, omitted), row)) == SummaryOf(parentId, omitted + [Demoted(row)])
  {
    if omitted == [] {
      assert [] + [Demoted(row)] == [Demoted(row)] == omitted + [Demoted(row)];
    } else {
      FoldingIsBuilding(parentId, omitted, Demoted(row));
      assert [OthersRow(parentId, omitted)] + [Demoted(row)] == [OthersRow(parentId, omitted), Demoted(row)];
    }
  }

  /** `tell` summarizes some rows, and folding one more row in is summarizing one more row. */
  ghost predicate Tells(fold: (string, Option<Row>, Row) -> Row, tell: (string, seq<Row>) -> Option<Row>) {
    forall parentId, omitted, row {:trigger fold(parentId, tell(parentId, omitted), row)} ::
      Some(fold(parentId, tell(parentId, omitted), row)) == tell(parentId, omitted + [Demoted(row)])
  }

  lemma {:induction false} OthersTell(policy: Policy, tell: (string, seq<Row>) -> Option<Row>,
                                      parents: seq<Parent>, ranked: seq<Place>, m: nat, p: nat, omitted: seq<Row>)
    requires Ranking(parents, ranked) && m <= |ranked| && p < |parents|
    requires Tells(policy.fold, tell) && parents[p].others == tell(parents[p].parentId, omitted)
    ensures var all := Vacated(policy, parents, ranked, m);
            p < |all| && all[p].others == tell(parents[p].parentId, omitted + EvictedOf(ranked, m, p))
    decreases |ranked| - m
  {
    if m == |ranked| {
      assert omitted + [] == omitted;
    } else {
      OthersTell(policy, tell, parents, ranked, m + 1, p, omitted);
      var before, c := Vacated(policy, parents, ranked, m + 1), ranked[m];
      VacatedShape(policy, parents, ranked, m + 1);
      EvictSlotShape(policy, parents, ranked, m, before);
      var gone := omitted + EvictedOf(ranked, m + 1, p);
      if c.parent == p {
        assert ShapeAt(policy, parents, ranked, m + 1, p, before[p]);
        assert gone + [Demoted(c.row)] == omitted + EvictedOf(ranked, m, p);
        assert Some(policy.fold(parents[p].parentId, before[p].others, c.row)) == tell(parents[p].parentId, gone + [Demoted(c.row)]);
      } else {
        assert gone == omitted + EvictedOf(ranked, m, p);
      }
    }
  }

  /** A summary that began as one fold over the rows compaction left out ends as one fold over
      those rows and then the evicted ones, in the order they went. */
  lemma OthersHoldEverything(policy: Policy, parents: seq<Parent>, ranked: seq<Place>, m: nat, p: nat, omitted: seq<Row>)
    requires Ranking(parents, ranked) && m <= |ranked| && p < |parents|
    requires policy.fold == FoldInto && parents[p].others == SummaryOf(parents[p].parentId, omitted)
    ensures var all := Vacated(policy, parents, ranked, m);
            p < |all| && all[p].others == SummaryOf(parents[p].parentId, omitted + EvictedOf(ranked, m, p))
  {
    assert Tells(policy.fold, SummaryOf) by {
      forall parentId, rows, row ensures Some(FoldInto(parentId, SummaryOf(parentId, rows), row)) == SummaryOf(parentId, rows + [Demoted(row)]) {
        FoldExtends(parentId, rows, row);
      }
    }
    OthersTell(policy, SummaryOf, parents, ranked, m, p, omitted);
  }
}
