/** What compaction and trimming conserve: for a measure that is known everywhere and does not
    overflow, retained rows plus summaries carry exactly what went in. */
module PreviewConservation {
  import opened Wrappers
  import opened Sorting
  import opened Totals
  import opened PreviewModel
  import opened PreviewTrim
  import opened PreviewCompact

  function Amount(e: Evidence): nat {
    if e.Known? then e.value else 0
  }

  function Amounts(measure: Row -> Evidence): Row -> nat {
    row => Amount(measure(row))
  }

  ghost predicate AllKnown(measure: Row -> Evidence, rows: seq<Row>) {
    forall row {:trigger row in rows} | row in rows :: measure(row).Known?
  }

  /** A measure that a summary sums and that roles do not affect. */
  ghost predicate Additive(measure: Row -> Evidence) {
    && (forall parentId, rows {:trigger measure(OthersRow(parentId, rows))} :: measure(OthersRow(parentId, rows)) == Sum(measure, rows))
    && (forall row {:trigger measure(Promoted(row))} :: measure(Promoted(row)) == measure(row))
    && (forall row {:trigger measure(Demoted(row))} :: measure(Demoted(row)) == measure(row))
  }

  lemma MeasuresAreAdditive()
    ensures Additive(Logical) && Additive(OnDisk) && Additive(DirectCount) && Additive(RecursiveCount)
  {
  }

  lemma {:induction false} KnownSum(measure: Row -> Evidence, rows: seq<Row>)
    requires AllKnown(measure, rows) && Total(Amounts(measure), rows) <= MAX_U128
    ensures Sum(measure, rows) == Known(Total(Amounts(measure), rows))
  {
    if rows != [] {
      var n := |rows| - 1;
      assert forall row | row in rows[..n] :: row in rows;
      KnownSum(measure, rows[..n]);
      assert rows[n] in rows;
    }
  }

  // ---- Grouping ----

  function GroupTotal(size: Row -> nat): Group -> nat {
    (g: Group) => Total(size, g.rows)
  }

  lemma {:induction false} PutTotal(size: Row -> nat, groups: seq<Group>, key: string, rows: seq<Row>)
    requires KeysSorted(groups)
    ensures Total(GroupTotal(size), Put(groups, key, rows)) + Total(size, Lookup(groups, key).UnwrapOr([]))
         == Total(GroupTotal(size), groups) + Total(size, rows)
  {
    var weight, fresh0 := GroupTotal(size), Group(key, rows);
    TotalOne(weight, fresh0);
    if groups == [] || CompareText(key, groups[0].key).Less? {
      if groups != [] {
        BelowAll(key, groups);
      }
      TotalConcat(weight, [fresh0], groups);
    } else {
      TotalHead(weight, groups);
      if groups[0].key == key {
        TotalConcat(weight, [fresh0], groups[1..]);
      } else {
        PutTotal(size, groups[1..], key, rows);
        TotalOne(weight, groups[0]);
        TotalConcat(weight, [groups[0]], Put(groups[1..], key, rows));
      }
    }
  }

  lemma {:induction false} ByParentTotal(size: Row -> nat, summaries: seq<Row>)
    ensures Total(GroupTotal(size), ByParent(summaries)) + Total(size, Roots(summaries)) == Total(size, summaries)
  {
    if summaries != [] {
      var n := |summaries| - 1;
      var row := summaries[n];
      ByParentTotal(size, summaries[..n]);
      TotalOne(size, row);
      match row.parentId {
        case None =>
          TotalConcat(size, Roots(summaries[..n]), [row]);
        case Some(key) =>
          var groups := ByParent(summaries[..n]);
          ByParentExact(summaries[..n], key);
          PushIsPut(groups, key, row);
          PutTotal(size, groups, key, Lookup(groups, key).UnwrapOr([]) + [row]);
          TotalConcat(size, Lookup(groups, key).UnwrapOr([]), [row]);
          assert Roots(summaries[..n]) + [] == Roots(summaries[..n]);
      }
    }
  }

  /** Rows whose parent id is the fixed root key vanish when there are root rows. */
  function Displaced(summaries: seq<Row>): seq<Row> {
    if Roots(summaries) == [] then [] else ChildrenOf(summaries, ROOT_KEY)
  }

  lemma GroupedTotal(size: Row -> nat, summaries: seq<Row>)
    ensures Total(GroupTotal(size), Grouped(summaries)) + Total(size, Displaced(summaries)) == Total(size, summaries)
  {
    ByParentTotal(size, summaries);
    if Roots(summaries) != [] {
      ByParentExact(summaries, ROOT_KEY);
      PutTotal(size, ByParent(summaries), ROOT_KEY, Roots(summaries));
    }
  }

  // ---- Compacting one parent ----

  lemma {:induction false} FilterWithin(p: Row -> bool, rows: seq<Row>, row: Row)
    requires row in Filter(p, rows)
    ensures row in rows
  {
    var n := |rows| - 1;
    if row in Filter(p, rows[..n]) {
      FilterWithin(p, rows[..n], row);
    }
  }

  lemma {:induction false} PromoteAllTotal(measure: Row -> Evidence, rows: seq<Row>)
    requires Additive(measure)
    ensures Total(Amounts(measure), PromoteAll(rows)) == Total(Amounts(measure), rows)
    ensures AllKnown(measure, rows) ==> AllKnown(measure, PromoteAll(rows))
  {
    if rows != [] {
      var n := |rows| - 1;
      PromoteAllTotal(measure, rows[..n]);
      TotalConcat(Amounts(measure), PromoteAll(rows[..n]), [Promoted(rows[n])]);
      TotalOne(Amounts(measure), Promoted(rows[n]));
      assert AllKnown(measure, rows) ==> AllKnown(measure, rows[..n]) by {
        assert forall row | row in rows[..n] :: row in rows;
      }
      assert rows[n] in rows;
    }
  }

  lemma SortKnown(measure: Row -> Evidence, rows: seq<Row>)
    requires AllKnown(measure, rows)
    ensures AllKnown(measure, Sort(RowBefore, rows))
  {
    RowsOrdered();
    SortSorts(RowBefore, rows);
    forall row | row in Sort(RowBefore, rows) ensures measure(row).Known? {
      assert row in multiset(Sort(RowBefore, rows));
      assert row in rows;
    }
  }

  ghost predicate KnownIn(measure: Row -> Evidence, parent: Parent) {
    AllKnown(measure, parent.retained) && (parent.others.Some? ==> measure(parent.others.value).Known?)
  }

  lemma SummaryTotal(measure: Row -> Evidence, parentId: string, rows: seq<Row>)
    requires Additive(measure) && AllKnown(measure, rows) && Total(Amounts(measure), rows) <= MAX_U128
    ensures OthersSize(Amounts(measure), SummaryOf(parentId, rows)) == Total(Amounts(measure), rows)
    ensures rows != [] ==> measure(OthersRow(parentId, rows)).Known?
  {
    KnownSum(measure, rows);
  }

  /** What a parent's rows amount to is what its compacted form amounts to. */
  lemma ParentConserves(measure: Row -> Evidence, group: Group)
    requires Additive(measure) && AllKnown(measure, group.rows) && Total(Amounts(measure), group.rows) <= MAX_U128
    ensures Sizes(Amounts(measure))(Compacted(group)) == Total(Amounts(measure), group.rows)
    ensures KnownIn(measure, Compacted(group))
  {
    var size, rows, ranked := Amounts(measure), group.rows, RankedRows(group.rows);
    RowsPartition(size, rows);
    TotalSort(size, RowBefore, Filter(Eligible, rows));
    assert Top(ranked) + Rest(ranked) == ranked;
    TotalConcat(size, Top(ranked), Rest(ranked));
    PromoteAllTotal(measure, Top(ranked));
    TotalConcat(size, Filter(Exempt, rows), PromoteAll(Top(ranked)));
    TotalSort(size, RowBefore, Filter(Exempt, rows) + PromoteAll(Top(ranked)));
    TotalConcat(size, Filter(Leftover, rows), Rest(ranked));
    PartsKnown(measure, rows);
    SummaryTotal(measure, group.key, Omitted(rows));
  }

  lemma PartsKnown(measure: Row -> Evidence, rows: seq<Row>)
    requires Additive(measure) && AllKnown(measure, rows)
    ensures AllKnown(measure, Omitted(rows))
    ensures AllKnown(measure, Sort(RowBefore, Filter(Exempt, rows) + PromoteAll(Top(RankedRows(rows)))))
  {
    var ranked := RankedRows(rows);
    FilterKnown(measure, Exempt, rows);
    FilterKnown(measure, Eligible, rows);
    FilterKnown(measure, Leftover, rows);
    SortKnown(measure, Filter(Eligible, rows));
    assert forall row | row in Top(ranked) || row in Rest(ranked) :: row in ranked;
    PromoteAllTotal(measure, Top(ranked));
    SortKnown(measure, Filter(Exempt, rows) + PromoteAll(Top(ranked)));
  }

  lemma FilterKnown(measure: Row -> Evidence, p: Row -> bool, rows: seq<Row>)
    requires AllKnown(measure, rows)
    ensures AllKnown(measure, Filter(p, rows))
  {
    forall row | row in Filter(p, rows) ensures measure(row).Known? {
      FilterWithin(p, rows, row);
    }
  }

  // ---- Compacting everything ----

  ghost predicate KnownInAll(measure: Row -> Evidence, parents: seq<Parent>) {
    forall p {:trigger KnownIn(measure, parents[p])} | 0 <= p < |parents| :: KnownIn(measure, parents[p])
  }

  ghost predicate GroupsKnown(measure: Row -> Evidence, groups: seq<Group>) {
    forall g {:trigger groups[g]} | 0 <= g < |groups| :: AllKnown(measure, groups[g].rows)
  }

  lemma KnownAppend(measure: Row -> Evidence, parents: seq<Parent>, parent: Parent)
    requires KnownInAll(measure, parents) && KnownIn(measure, parent)
    ensures KnownInAll(measure, parents + [parent])
    ensures SizeOf(Amounts(measure), parents + [parent]) == SizeOf(Amounts(measure), parents) + Sizes(Amounts(measure))(parent)
  {
    var after := parents + [parent];
    assert after[..|parents|] == parents;
    forall p | 0 <= p < |after| ensures KnownIn(measure, after[p]) {
      if p < |parents| {
        assert KnownIn(measure, parents[p]);
      }
    }
  }

  lemma {:induction false} GroupsConserve(measure: Row -> Evidence, groups: seq<Group>)
    requires Additive(measure) && GroupsKnown(measure, groups)
    requires Total(GroupTotal(Amounts(measure)), groups) <= MAX_U128
    ensures KnownInAll(measure, CompactAll(groups))
    ensures SizeOf(Amounts(measure), CompactAll(groups)) == Total(GroupTotal(Amounts(measure)), groups)
  {
    if groups != [] {
      var n := |groups| - 1;
      GroupsConserve(measure, groups[..n]);
      ParentConserves(measure, groups[n]);
      KnownAppend(measure, CompactAll(groups[..n]), Compacted(groups[n]));
    }
  }

  lemma {:induction false} PushKnown(measure: Row -> Evidence, groups: seq<Group>, key: string, rows: seq<Row>)
    requires GroupsKnown(measure, groups) && AllKnown(measure, rows)
    ensures GroupsKnown(measure, Put(groups, key, rows))
  {
    var after := Put(groups, key, rows);
    forall i | 0 <= i < |after| ensures AllKnown(measure, after[i].rows) {
      PutMembers(groups, key, rows, after[i]);
      if after[i] in groups {
        var j :| 0 <= j < |groups| && groups[j] == after[i];
      }
    }
  }

  lemma {:induction false} LookupKnown(measure: Row -> Evidence, groups: seq<Group>, key: string)
    requires GroupsKnown(measure, groups)
    ensures AllKnown(measure, Lookup(groups, key).UnwrapOr([]))
  {
    if groups != [] {
      assert forall g | 0 <= g < |groups| - 1 :: groups[1..][g] == groups[g + 1];
      LookupKnown(measure, groups[1..], key);
    }
  }

  lemma {:induction false} ByParentKnown(measure: Row -> Evidence, summaries: seq<Row>)
    requires AllKnown(measure, summaries)
    ensures GroupsKnown(measure, ByParent(summaries)) && AllKnown(measure, Roots(summaries))
  {
    if summaries != [] {
      var n := |summaries| - 1;
      var row := summaries[n];
      assert row in summaries && forall other | other in summaries[..n] :: other in summaries;
      ByParentKnown(measure, summaries[..n]);
      if row.parentId.Some? {
        var groups, key := ByParent(summaries[..n]), row.parentId.value;
        ByParentExact(summaries[..n], key);
        PushIsPut(groups, key, row);
        LookupKnown(measure, groups, key);
        PushKnown(measure, groups, key, Lookup(groups, key).UnwrapOr([]) + [row]);
      }
    }
  }

  /** Before trimming, compaction carries everything but the displaced rows. */
  lemma CompactAllConserves(measure: Row -> Evidence, summaries: seq<Row>)
    requires Additive(measure) && AllKnown(measure, summaries) && Total(Amounts(measure), summaries) <= MAX_U128
    ensures var parents := CompactAll(Grouped(summaries));
            && KnownInAll(measure, parents)
            && SizeOf(Amounts(measure), parents) + Total(Amounts(measure), Displaced(summaries)) == Total(Amounts(measure), summaries)
  {
    ByParentKnown(measure, summaries);
    if Roots(summaries) != [] {
      PushKnown(measure, ByParent(summaries), ROOT_KEY, Roots(summaries));
    }
    GroupedTotal(Amounts(measure), summaries);
    GroupsConserve(measure, Grouped(summaries));
  }

  // ---- Trimming ----

  lemma FoldConserves(measure: Row -> Evidence, parent: Parent, slot: nat)
    requires Additive(measure) && KnownIn(measure, parent) && slot < |parent.retained|
    requires Amount(measure(parent.retained[slot])) + OthersSize(Amounts(measure), parent.others) <= MAX_U128
    ensures var folded := FoldInto(parent.parentId, parent.others, parent.retained[slot]);
            && measure(folded).Known?
            && Amount(measure(folded)) == Amount(measure(parent.retained[slot])) + OthersSize(Amounts(measure), parent.others)
  {
    var row := Demoted(parent.retained[slot]);
    var inputs := (if parent.others.Some? then [parent.others.value] else []) + [row];
    assert parent.retained[slot] in parent.retained;
    var size := Amounts(measure);
    TotalOne(size, row);
    if parent.others.Some? {
      TotalOne(size, parent.others.value);
      TotalConcat(size, [parent.others.value], [row]);
    } else {
      assert inputs == [row];
    }
    KnownSum(measure, inputs);
  }

  lemma EvictConserves(measure: Row -> Evidence, policy: Policy, parents: seq<Parent>, c: Place)
    requires policy.fold == FoldInto && Additive(measure) && KnownInAll(measure, parents)
    requires SizeOf(Amounts(measure), parents) <= MAX_U128 && IsCandidate(parents, c)
    ensures KnownInAll(measure, Evict(policy, parents, c))
    ensures SizeOf(Amounts(measure), Evict(policy, parents, c)) == SizeOf(Amounts(measure), parents)
  {
    var size := Amounts(measure);
    SizeAfterEvict(size, policy, parents, c);
    EvictedFits(size, parents, c);
    assert KnownIn(measure, parents[c.parent]);
    FoldConserves(measure, parents[c.parent], c.slot);
    var after := Evict(policy, parents, c);
    forall p | 0 <= p < |after| ensures KnownIn(measure, after[p]) {
      assert KnownIn(measure, parents[p]);
      if p == c.parent {
        assert forall row | row in after[p].retained :: row in parents[p].retained;
      }
    }
  }

  lemma {:induction false} ExhaustConserves(measure: Row -> Evidence, policy: Policy, parents: seq<Parent>, over: seq<Parent> -> bool)
    requires policy.fold == FoldInto && Additive(measure) && KnownInAll(measure, parents)
    requires SizeOf(Amounts(measure), parents) <= MAX_U128
    ensures SizeOf(Amounts(measure), Exhaust(policy, parents, over)) == SizeOf(Amounts(measure), parents)
    decreases Kept(parents)
  {
    if over(parents) {
      if c :| IsWorst(parents, c) {
        ExhaustEvicts(policy, parents, over, c);
        EvictShrinks(policy, parents, c);
        EvictConserves(measure, policy, parents, c);
        ExhaustConserves(measure, policy, Evict(policy, parents, c), over);
      }
    }
  }

  /** The whole of `compact_preview`, whatever the caps: what the preview carries is what came in,
      less the rows the root rows displaced. */
  lemma PreviewConserves(measure: Row -> Evidence, size: Row -> nat, summaries: seq<Row>, caps: Caps)
    requires Additive(measure) && AllKnown(measure, summaries) && Total(Amounts(measure), summaries) <= MAX_U128
    ensures var parents := CompactAll(Grouped(summaries));
            var start := Preview(parents, Records(parents), SizeOf(size, parents), false);
            SizeOf(Amounts(measure), Exhausted(Policy(size, FoldInto), start, caps).parents) + Total(Amounts(measure), Displaced(summaries))
            == Total(Amounts(measure), summaries)
  {
    CompactAllConserves(measure, summaries);
    var policy := Policy(size, FoldInto);
    ExhaustConserves(measure, policy, CompactAll(Grouped(summaries)), Budget(policy, caps));
  }

  /** Nothing is displaced unless there is a root row and a row whose parent id is the root key. */
  lemma {:induction false} DisplacedIff(summaries: seq<Row>)
    ensures Roots(summaries) != [] <==> exists row :: row in summaries && row.parentId.None?
    ensures ChildrenOf(summaries, ROOT_KEY) != [] <==> exists row :: row in summaries && row.parentId == Some(ROOT_KEY)
  {
    if summaries != [] {
      var n := |summaries| - 1;
      DisplacedIff(summaries[..n]);
      assert forall row :: row in summaries <==> row in summaries[..n] || row == summaries[n];
    }
  }

  /** Where every row counts for something, as each entry does in the direct count, the preview is
      whole if and only if it is not the case that both kinds of row are present. */
  lemma WholeIffNotDisplaced(measure: Row -> Evidence, size: Row -> nat, summaries: seq<Row>, caps: Caps)
    requires Additive(measure) && AllKnown(measure, summaries) && Total(Amounts(measure), summaries) <= MAX_U128
    requires forall row | row in summaries :: Amount(measure(row)) > 0
    ensures var parents := CompactAll(Grouped(summaries));
            var start := Preview(parents, Records(parents), SizeOf(size, parents), false);
            SizeOf(Amounts(measure), Exhausted(Policy(size, FoldInto), start, caps).parents) == Total(Amounts(measure), summaries)
            <==> !((exists row :: row in summaries && row.parentId.None?)
                   && (exists row :: row in summaries && row.parentId == Some(ROOT_KEY)))
  {
    PreviewConserves(measure, size, summaries, caps);
    DisplacedIff(summaries);
    var displaced := Displaced(summaries);
    if displaced != [] {
      ChildrenWithin(summaries, ROOT_KEY, displaced[0]);
      TotalAtLeast(Amounts(measure), displaced, 0);
    }
  }

  lemma {:induction false} ChildrenWithin(summaries: seq<Row>, key: string, row: Row)
    requires row in ChildrenOf(summaries, key)
    ensures row in summaries
  {
    var n := |summaries| - 1;
    if row in ChildrenOf(summaries[..n], key) {
      ChildrenWithin(summaries[..n], key, row);
    }
  }

  /** One root row and one row filed under the literal key. */
  function DisplacingRows(): seq<Row> {
    var complete := Coverage(true, false, []);
    [Row(Root, None, "r", "r", Known(0), Known(0), Known(0), Known(0), None, complete, true, {}, ""),
     Row(Boundary, Some(ROOT_KEY), "c", "c", Known(0), Known(0), Known(0), Known(0), None, complete, true, {}, "")]
  }

  lemma DisplacingRowsCount()
    ensures AllKnown(DirectCount, DisplacingRows()) && Total(Amounts(DirectCount), DisplacingRows()) == 2
    ensures Displaced(DisplacingRows()) == [DisplacingRows()[1]]
  {
    var rows := DisplacingRows();
    var root, child := rows[0], rows[1];
    assert rows == [root] + [child] && rows[..1] == [root] && [root][..0] == [];
    assert Roots([root]) == [root] && ChildrenOf([root], ROOT_KEY) == [];
    TotalConcat(Amounts(DirectCount), [root], [child]);
    TotalOne(Amounts(DirectCount), root);
    TotalOne(Amounts(DirectCount), child);
    assert DirectCount(root) == Known(1) && DirectCount(child) == Known(1);
    assert Amounts(DirectCount)(root) == 1 && Amounts(DirectCount)(child) == 1;
    assert Total(Amounts(DirectCount), [root] + [child]) == 2;
  }

  /** The second of those rows vanishes: the preview counts one entry where two came in. */
  lemma RootRowsDisplace(size: Row -> nat, caps: Caps)
    ensures var parents := CompactAll(Grouped(DisplacingRows()));
            var start := Preview(parents, Records(parents), SizeOf(size, parents), false);
            SizeOf(Amounts(DirectCount), Exhausted(Policy(size, FoldInto), start, caps).parents) == 1
    ensures Total(Amounts(DirectCount), DisplacingRows()) == 2
  {
    var rows := DisplacingRows();
    DisplacingRowsCount();
    MeasuresAreAdditive();
    TotalOne(Amounts(DirectCount), rows[1]);
    PreviewConserves(DirectCount, size, rows, caps);
  }
}
