/** The stages are a fast form of partitioning files by content. */
module DuplicateClasses {
  import opened Wrappers
  import opened Buckets
  import opened Duplicates
  import opened DuplicateStages

  /** No two files with different bytes share a full hash. */
  ghost predicate CollisionFree(s: Setup, content: nat -> seq<nat>) {
    forall i: nat, j: nat {:trigger content(i), content(j)} | i < |s.files| && j < |s.files| && FullKey(s, content)(i) == FullKey(s, content)(j) ::
      content(i) == content(j)
  }

  lemma {:induction false} MatchingConcat(a: seq<nat>, b: seq<nat>, keyOf: nat -> nat, key: nat)
    ensures Matching(a + b, keyOf, key) == Matching(a, keyOf, key) + Matching(b, keyOf, key)
  {
    if b == [] {
      assert a + b == a && Matching(a, keyOf, key) + [] == Matching(a, keyOf, key);
    } else {
      var n := |b| - 1;
      assert (a + b)[..|a + b| - 1] == a + b[..n];
      MatchingConcat(a, b[..n], keyOf, key);
    }
  }

  lemma {:induction false} MatchingNone(items: seq<nat>, keyOf: nat -> nat, key: nat)
    requires forall x | x in items :: keyOf(x) != key
    ensures Matching(items, keyOf, key) == []
  {
    if items != [] {
      assert items[|items| - 1] in items && forall x | x in items[..|items| - 1] :: x in items;
      MatchingNone(items[..|items| - 1], keyOf, key);
    }
  }

  /** Where one key implies the other, picking by the finer key after the coarser changes nothing. */
  lemma {:induction false} MatchingTwice(items: seq<nat>, coarse: nat -> nat, fine: nat -> nat, c: nat, f: nat)
    requires forall x | x in items && fine(x) == f :: coarse(x) == c
    ensures Matching(Matching(items, coarse, c), fine, f) == Matching(items, fine, f)
  {
    if items != [] {
      var n := |items| - 1;
      assert items[n] in items && forall x | x in items[..n] :: x in items;
      MatchingTwice(items[..n], coarse, fine, c, f);
      var kept := Matching(items[..n], coarse, c);
      assert (kept + [items[n]])[..|kept|] == kept;
      assert kept + [] == kept;
    }
  }

  /** What each sample bucket contributes to one full-hash bucket. */
  ghost predicate Contributes(bucket: Bucket, fine: nat -> nat, c: nat, f: nat, all: seq<nat>) {
    Matching(bucket.items, fine, f) == if bucket.key == c then all else []
  }

  lemma BucketContributes(items: seq<nat>, coarse: nat -> nat, fine: nat -> nat, bucket: Bucket, c: nat, f: nat)
    requires NoRepeats(items) && bucket.items == Matching(items, coarse, bucket.key)
    requires forall x | x in items && fine(x) == f :: coarse(x) == c
    ensures Contributes(bucket, fine, c, f, Matching(items, fine, f))
  {
    if bucket.key == c {
      MatchingTwice(items, coarse, fine, c, f);
    } else {
      MatchingSound(items, coarse, bucket.key);
      MatchingNone(bucket.items, fine, f);
    }
  }

  lemma SurvivorsStep(samples: seq<Bucket>, fine: nat -> nat, f: nat)
    requires samples != []
    ensures var n := |samples| - 1;
            Matching(Survivors(samples), fine, f) ==
            Matching(Survivors(samples[..n]), fine, f) + if |samples[n].items| > 1 then Matching(samples[n].items, fine, f) else []
  {
    var n := |samples| - 1;
    MatchingConcat(Survivors(samples[..n]), if |samples[n].items| > 1 then samples[n].items else [], fine, f);
  }

  lemma {:induction false} SurvivorsMissing(samples: seq<Bucket>, fine: nat -> nat, c: nat, f: nat, all: seq<nat>)
    requires forall b {:trigger samples[b]} | 0 <= b < |samples| ::
               Contributes(samples[b], fine, c, f, all) && (samples[b].key == c ==> |samples[b].items| <= 1)
    ensures Matching(Survivors(samples), fine, f) == []
  {
    if samples != [] {
      var n := |samples| - 1;
      assert forall b | 0 <= b < n :: samples[..n][b] == samples[b];
      SurvivorsMissing(samples[..n], fine, c, f, all);
      SurvivorsStep(samples, fine, f);
    }
  }

  /** Everything with full hash `f` sits in the bucket of its common sample, so nothing is missed
      unless it was alone there. */
  lemma {:induction false} SurvivorsFound(samples: seq<Bucket>, at: nat, fine: nat -> nat, c: nat, f: nat, all: seq<nat>)
    requires at < |samples| && samples[at].key == c && |samples[at].items| > 1
    requires forall b {:trigger samples[b]} | 0 <= b < |samples| ::
               Contributes(samples[b], fine, c, f, all) && (samples[b].key == c ==> b == at)
    ensures Matching(Survivors(samples), fine, f) == all
  {
    var n := |samples| - 1;
    assert forall b | 0 <= b < n :: samples[..n][b] == samples[b];
    SurvivorsStep(samples, fine, f);
    if at == n {
      SurvivorsMissing(samples[..n], fine, c, f, all);
    } else {
      SurvivorsFound(samples[..n], at, fine, c, f, all);
      assert samples[n].key != c;
    }
  }

  lemma {:induction false} KeyPresent(buckets: seq<Bucket>, key: nat) returns (at: nat)
    requires Lookup(buckets, key) != []
    ensures at < |buckets| && buckets[at].key == key
  {
    if buckets[0].key == key {
      at := 0;
    } else {
      var rest := KeyPresent(buckets[1..], key);
      at := rest + 1;
    }
  }

  /** Sampling first gives the same large full-hash buckets as hashing everything. */
  lemma SurvivorsSameLarge(items: seq<nat>, coarse: nat -> nat, fine: nat -> nat, f: nat)
    requires NoRepeats(items)
    requires forall x, y | x in items && y in items && fine(x) == fine(y) :: coarse(x) == coarse(y)
    ensures var found, all := Matching(Survivors(Grouped(items, coarse)), fine, f), Matching(items, fine, f);
            found == all || (|found| <= 1 && |all| <= 1)
  {
    var all, samples := Matching(items, fine, f), Grouped(items, coarse);
    MatchingSound(items, fine, f);
    var c := if all == [] then 0 else coarse(all[0]);
    assert forall x | x in items && fine(x) == f :: coarse(x) == c by {
      forall x | x in items && fine(x) == f ensures coarse(x) == c {
        assert x in all;
        assert all[0] in all;
      }
    }
    GroupedExact(items, coarse, c);
    forall b | 0 <= b < |samples| ensures Contributes(samples[b], fine, c, f, all) {
      GroupedExact(items, coarse, samples[b].key);
      ItemsLookUp(samples, b);
      BucketContributes(items, coarse, fine, samples[b], c, f);
    }
    MatchingTwice(items, coarse, fine, c, f);
    if |Lookup(samples, c)| > 1 {
      var at := KeyPresent(samples, c);
      ItemsLookUp(samples, at);
      forall b | 0 <= b < |samples| && samples[b].key == c ensures b == at {
        if b < at {
          KeysAscend(samples, b, at);
        } else if at < b {
          KeysAscend(samples, at, b);
        }
      }
      SurvivorsFound(samples, at, fine, c, f, all);
    } else {
      forall b | 0 <= b < |samples| && samples[b].key == c ensures |samples[b].items| <= 1 {
        ItemsLookUp(samples, b);
      }
      SurvivorsMissing(samples, fine, c, f, all);
      MatchingShorter(Matching(items, coarse, c), fine, f);
    }
  }

  lemma {:induction false} MatchingShorter(items: seq<nat>, keyOf: nat -> nat, key: nat)
    ensures |Matching(items, keyOf, key)| <= |items|
  {
    if items != [] {
      MatchingShorter(items[..|items| - 1], keyOf, key);
    }
  }

  lemma SampledSameLarge(items: seq<nat>, coarse: nat -> nat, fine: nat -> nat)
    requires NoRepeats(items)
    requires forall x, y | x in items && y in items && fine(x) == fine(y) :: coarse(x) == coarse(y)
    ensures Large(Grouped(Survivors(Grouped(items, coarse)), fine)) == Large(Grouped(items, fine))
  {
    var survivors := Survivors(Grouped(items, coarse));
    var a, b := Grouped(survivors, fine), Grouped(items, fine);
    GroupedExact(survivors, fine, 0);
    GroupedExact(items, fine, 0);
    LargeExact(a, 0);
    LargeExact(b, 0);
    forall f: nat ensures Lookup(Large(a), f) == Lookup(Large(b), f) {
      SurvivorsSameLarge(items, coarse, fine, f);
      GroupedExact(survivors, fine, f);
      GroupedExact(items, fine, f);
      LargeExact(a, f);
      LargeExact(b, f);
    }
    SameLookups(Large(a), Large(b));
  }

  // ---- The naive partition ----

  /** Hash every file of a size in full; keep hashes shared by at least two. */
  ghost function NaiveFor(s: Setup, content: nat -> seq<nat>, size: nat, items: seq<nat>): seq<Outline> {
    OutlinesOf(size, Large(Grouped(items, FullKey(s, content))))
  }

  ghost function NaiveCellsOf(s: Setup, content: nat -> seq<nat>): Bucket -> seq<Outline> {
    (b: Bucket) => NaiveFor(s, content, b.key, b.items)
  }

  ghost function Naive(s: Setup, content: nat -> seq<nat>, sizes: seq<Bucket>): seq<Outline> {
    PerSize(NaiveCellsOf(s, content), sizes)
  }

  lemma {:induction false} PerSizeSame(f: Bucket -> seq<Outline>, g: Bucket -> seq<Outline>, sizes: seq<Bucket>)
    requires forall b {:trigger sizes[b]} | 0 <= b < |sizes| :: f(sizes[b]) == g(sizes[b])
    ensures PerSize(f, sizes) == PerSize(g, sizes)
  {
    if sizes != [] {
      var n := |sizes| - 1;
      assert forall b | 0 <= b < n :: sizes[..n][b] == sizes[b];
      PerSizeSame(f, g, sizes[..n]);
    }
  }

  lemma StagedForIsNaive(s: Setup, content: nat -> seq<nat>, size: nat, items: seq<nat>)
    requires CollisionFree(s, content) && NoRepeats(items)
    requires forall x | x in items :: x < |s.files| && SizeKey(s)(x) == size
    ensures StagedFor(s, content, size, items) == NaiveFor(s, content, size, items)
  {
    var coarse, fine := SampleKey(s, content), FullKey(s, content);
    forall x, y | x in items && y in items && fine(x) == fine(y) ensures coarse(x) == coarse(y) {
      assert content(x) == content(y);
    }
    SampledSameLarge(items, coarse, fine);
  }

  /** Each bucket holds distinct files of its size. */
  ghost predicate SizedBuckets(s: Setup, sizes: seq<Bucket>) {
    forall b {:trigger sizes[b]} | 0 <= b < |sizes| ::
      NoRepeats(sizes[b].items) && forall x | x in sizes[b].items :: x < |s.files| && SizeKey(s)(x) == sizes[b].key
  }

  /** Staging finds exactly what hashing everything would, group by group and in the same order,
      however the sample hash behaves. */
  lemma StagedIsNaive(s: Setup, content: nat -> seq<nat>, sizes: seq<Bucket>)
    requires CollisionFree(s, content) && SizedBuckets(s, sizes)
    ensures Staged(s, content, sizes) == Naive(s, content, sizes)
  {
    forall b | 0 <= b < |sizes| ensures StagedCells(s, content)(sizes[b]) == NaiveCellsOf(s, content)(sizes[b]) {
      StagedForIsNaive(s, content, sizes[b].key, sizes[b].items);
    }
    PerSizeSame(StagedCells(s, content), NaiveCellsOf(s, content), sizes);
  }

  // ---- Content classes ----

  /** At least two files, and with any member exactly the files that have its bytes. */
  ghost predicate IsClass(s: Setup, content: nat -> seq<nat>, members: seq<nat>) {
    && |members| > 1 && NoRepeats(members)
    && forall i, j: nat {:trigger i in members, content(j)} | i in members && j < |s.files| :: i < |s.files| && (j in members <==> content(j) == content(i))
  }

  /** A reported outline lists exactly the files with its length and full hash. */
  ghost predicate IsCell(s: Setup, content: nat -> seq<nat>, o: Outline) {
    && |o.members| > 1 && NoRepeats(o.members)
    && forall j: nat {:trigger j in o.members} :: j in o.members <==> j < |s.files| && SizeKey(s)(j) == o.size && FullKey(s, content)(j) == o.digest
  }

  /** Size buckets that hold every file of their size. */
  ghost predicate FullBuckets(s: Setup, sizes: seq<Bucket>) {
    forall b {:trigger sizes[b]} | 0 <= b < |sizes| ::
      NoRepeats(sizes[b].items) && forall x: nat :: x in sizes[b].items <==> x < |s.files| && SizeKey(s)(x) == sizes[b].key
  }

  lemma CellsOfSize(s: Setup, content: nat -> seq<nat>, size: nat, items: seq<nat>, k: nat)
    requires NoRepeats(items) && forall x: nat :: x in items <==> x < |s.files| && SizeKey(s)(x) == size
    requires k < |NaiveFor(s, content, size, items)|
    ensures IsCell(s, content, NaiveFor(s, content, size, items)[k]) && NaiveFor(s, content, size, items)[k].size == size
  {
    var fine := FullKey(s, content);
    var all := Grouped(items, fine);
    var bucket := Large(all)[k];
    LargeWithin(all, bucket);
    var b :| 0 <= b < |all| && all[b] == bucket;
    GroupedExact(items, fine, bucket.key);
    ItemsLookUp(all, b);
    MatchingSound(items, fine, bucket.key);
  }

  lemma SecondPart<T>(first: seq<T>, second: seq<T>, i: nat)
    requires i < |second|
    ensures |first| + i < |first + second| && (first + second)[|first| + i] == second[i]
  {
  }

  /** Which size, and which of its cells, an outline comes from. */
  lemma {:induction false} Locate(cells: Bucket -> seq<Outline>, sizes: seq<Bucket>, k: nat) returns (b: nat, i: nat)
    requires k < |PerSize(cells, sizes)|
    ensures b < |sizes| && i < |cells(sizes[b])| && PerSize(cells, sizes)[k] == cells(sizes[b])[i]
  {
    var n := |sizes| - 1;
    var first := |PerSize(cells, sizes[..n])|;
    if k < first {
      b, i := Locate(cells, sizes[..n], k);
    } else {
      b, i := n, k - first;
    }
  }

  lemma {:induction false} LocatePair(cells: Bucket -> seq<Outline>, sizes: seq<Bucket>, j: nat, k: nat)
    returns (a: nat, h: nat, b: nat, i: nat)
    requires j < k < |PerSize(cells, sizes)|
    ensures a <= b < |sizes| && (a == b ==> h < i)
    ensures h < |cells(sizes[a])| && PerSize(cells, sizes)[j] == cells(sizes[a])[h]
    ensures i < |cells(sizes[b])| && PerSize(cells, sizes)[k] == cells(sizes[b])[i]
  {
    var n := |sizes| - 1;
    var first := |PerSize(cells, sizes[..n])|;
    if k < first {
      a, h, b, i := LocatePair(cells, sizes[..n], j, k);
    } else {
      b, i := n, k - first;
      if j < first {
        a, h := Locate(cells, sizes[..n], j);
      } else {
        a, h := n, j - first;
      }
    }
  }

  lemma {:induction false} PlaceOfCell(cells: Bucket -> seq<Outline>, sizes: seq<Bucket>, at: nat, i: nat) returns (k: nat)
    requires at < |sizes| && |sizes[at].items| > 1 && i < |cells(sizes[at])|
    ensures k < |PerSize(cells, sizes)| && PerSize(cells, sizes)[k] == cells(sizes[at])[i]
  {
    var n := |sizes| - 1;
    if at < n {
      k := PlaceOfCell(cells, sizes[..n], at, i);
    } else {
      SecondPart(PerSize(cells, sizes[..n]), cells(sizes[n]), i);
      k := |PerSize(cells, sizes[..n])| + i;
    }
  }

  lemma NaiveCells(s: Setup, content: nat -> seq<nat>, sizes: seq<Bucket>, k: nat)
    requires FullBuckets(s, sizes) && k < |Naive(s, content, sizes)|
    ensures IsCell(s, content, Naive(s, content, sizes)[k])
  {
    var b, i := Locate(NaiveCellsOf(s, content), sizes, k);
    CellsOfSize(s, content, sizes[b].key, sizes[b].items, i);
  }

  lemma OrderedInSize(s: Setup, content: nat -> seq<nat>, size: nat, items: seq<nat>, h: nat, i: nat)
    requires h < i < |NaiveFor(s, content, size, items)|
    ensures NaiveFor(s, content, size, items)[h].digest < NaiveFor(s, content, size, items)[i].digest
  {
    GroupedExact(items, FullKey(s, content), 0);
    LargeExact(Grouped(items, FullKey(s, content)), 0);
    KeysAscend(Large(Grouped(items, FullKey(s, content))), h, i);
  }

  /** No two outlines have the same length and digest. */
  lemma NaiveOrdered(s: Setup, content: nat -> seq<nat>, sizes: seq<Bucket>, j: nat, k: nat)
    requires FullBuckets(s, sizes) && WellFormed(sizes) && j < k < |Naive(s, content, sizes)|
    ensures var a, b := Naive(s, content, sizes)[j], Naive(s, content, sizes)[k];
            a.size < b.size || (a.size == b.size && a.digest < b.digest)
  {
    var a, h, b, i := LocatePair(NaiveCellsOf(s, content), sizes, j, k);
    if a == b {
      OrderedInSize(s, content, sizes[a].key, sizes[a].items, h, i);
    } else {
      KeysAscend(sizes, a, b);
    }
  }

  /** Two files of one size bucket with one digest are in one of its cells. */
  lemma FoundInSize(s: Setup, content: nat -> seq<nat>, size: nat, items: seq<nat>, i: nat, j: nat) returns (b: nat)
    requires NoRepeats(items) && i in items && j in items && i != j && FullKey(s, content)(i) == FullKey(s, content)(j)
    ensures b < |NaiveFor(s, content, size, items)| && i in NaiveFor(s, content, size, items)[b].members
  {
    var fine := FullKey(s, content);
    var all := Grouped(items, fine);
    GroupedExact(items, fine, fine(i));
    MatchingSound(items, fine, fine(i));
    TwoItems(Lookup(all, fine(i)), i, j);
    LargeExact(all, fine(i));
    b := KeyPresent(Large(all), fine(i));
    ItemsLookUp(Large(all), b);
  }

  /** Two files of one length and digest are reported together. */
  lemma NaiveFinds(s: Setup, content: nat -> seq<nat>, sizes: seq<Bucket>, at: nat, i: nat, j: nat) returns (k: nat)
    requires at < |sizes| && NoRepeats(sizes[at].items) && i in sizes[at].items && j in sizes[at].items && i != j
    requires FullKey(s, content)(i) == FullKey(s, content)(j)
    ensures k < |Naive(s, content, sizes)| && i in Naive(s, content, sizes)[k].members
  {
    TwoItems(sizes[at].items, i, j);
    var b := FoundInSize(s, content, sizes[at].key, sizes[at].items, i, j);
    k := PlaceOfCell(NaiveCellsOf(s, content), sizes, at, b);
  }

  lemma TwoItems(items: seq<nat>, i: nat, j: nat)
    requires i in items && j in items && i != j
    ensures |items| > 1
  {
    var a :| 0 <= a < |items| && items[a] == i;
    var b :| 0 <= b < |items| && items[b] == j;
  }

  /** All files, bucketed by size. */
  ghost function BySize(s: Setup): seq<Bucket> {
    Grouped(Upto(|s.files|), SizeKey(s))
  }

  lemma UptoHas(n: nat)
    ensures forall x: nat :: x in Upto(n) <==> x < n
  {
    forall x: nat | x < n ensures x in Upto(n) {
      assert Upto(n)[x] == x;
    }
  }

  lemma BySizeFull(s: Setup)
    ensures WellFormed(BySize(s)) && FullBuckets(s, BySize(s)) && SizedBuckets(s, BySize(s))
  {
    var sizes := BySize(s);
    GroupedExact(Upto(|s.files|), SizeKey(s), 0);
    forall b | 0 <= b < |sizes|
      ensures NoRepeats(sizes[b].items) && forall x: nat :: x in sizes[b].items <==> x < |s.files| && SizeKey(s)(x) == sizes[b].key
    {
      GroupedExact(Upto(|s.files|), SizeKey(s), sizes[b].key);
      ItemsLookUp(sizes, b);
      MatchingSound(Upto(|s.files|), SizeKey(s), sizes[b].key);
      UptoHas(|s.files|);
    }
  }

  lemma CellIsClass(s: Setup, content: nat -> seq<nat>, o: Outline)
    requires Faithful(s, content) && CollisionFree(s, content) && IsCell(s, content, o)
    ensures IsClass(s, content, o.members)
  {
    forall i, j: nat | i in o.members && j < |s.files| ensures i < |s.files| && (j in o.members <==> content(j) == content(i)) {
      if content(j) == content(i) {
        assert |content(j)| == SizeKey(s)(j);
      }
    }
  }

  lemma ReportedOnce(s: Setup, content: nat -> seq<nat>, j: nat, k: nat, x: nat)
    requires j < k < |Naive(s, content, BySize(s))|
    requires x in Naive(s, content, BySize(s))[j].members
    ensures x !in Naive(s, content, BySize(s))[k].members
  {
    BySizeFull(s);
    NaiveCells(s, content, BySize(s), j);
    NaiveCells(s, content, BySize(s), k);
    NaiveOrdered(s, content, BySize(s), j, k);
  }

  lemma PairFound(s: Setup, content: nat -> seq<nat>, i: nat, j: nat) returns (k: nat)
    requires Faithful(s, content) && CollisionFree(s, content)
    requires i < |s.files| && j < |s.files| && i != j && content(i) == content(j)
    ensures k < |Naive(s, content, BySize(s))| && i in Naive(s, content, BySize(s))[k].members
  {
    var sizes := BySize(s);
    BySizeFull(s);
    assert |content(i)| == SizeKey(s)(i) && |content(j)| == SizeKey(s)(j);
    GroupedExact(Upto(|s.files|), SizeKey(s), SizeKey(s)(i));
    MatchingSound(Upto(|s.files|), SizeKey(s), SizeKey(s)(i));
    assert Upto(|s.files|)[i] == i && Upto(|s.files|)[j] == j;
    var at := KeyPresent(sizes, SizeKey(s)(i));
    ItemsLookUp(sizes, at);
    k := NaiveFinds(s, content, sizes, at, i, j);
  }

  ghost predicate AllClasses(s: Setup, content: nat -> seq<nat>, found: seq<Outline>) {
    forall k {:trigger IsClass(s, content, found[k].members)} | 0 <= k < |found| :: IsClass(s, content, found[k].members)
  }

  ghost predicate NoneTwice(found: seq<Outline>) {
    forall j, k, x {:trigger x in found[j].members, found[k]} | 0 <= j < k < |found| && x in found[j].members :: x !in found[k].members
  }

  ghost predicate Reported(found: seq<Outline>, i: nat) {
    exists k :: 0 <= k < |found| && i in found[k].members
  }

  ghost predicate AllPairsReported(s: Setup, content: nat -> seq<nat>, found: seq<Outline>) {
    forall i: nat, j: nat {:trigger content(i), content(j)} | i < |s.files| && j < |s.files| && i != j && content(i) == content(j) :: Reported(found, i)
  }

  /** `found` is the partition of the files by content, less its singletons: every group is a
      whole content class, every pair of equal files is in some group, no file is in two. */
  ghost predicate PartitionsByContent(s: Setup, content: nat -> seq<nat>, found: seq<Outline>) {
    AllClasses(s, content, found) && NoneTwice(found) && AllPairsReported(s, content, found)
  }

  lemma NaivePartitions(s: Setup, content: nat -> seq<nat>)
    requires Faithful(s, content) && CollisionFree(s, content)
    ensures AllClasses(s, content, Naive(s, content, BySize(s)))
    ensures AllPairsReported(s, content, Naive(s, content, BySize(s)))
  {
    var found := Naive(s, content, BySize(s));
    BySizeFull(s);
    forall k | 0 <= k < |found| ensures IsClass(s, content, found[k].members) {
      NaiveCells(s, content, BySize(s), k);
      CellIsClass(s, content, found[k]);
    }
    forall i: nat, j: nat | i < |s.files| && j < |s.files| && i != j && content(i) == content(j) ensures Reported(found, i) {
      var k := PairFound(s, content, i, j);
    }
  }

  lemma NaiveNoneTwice(s: Setup, content: nat -> seq<nat>)
    ensures NoneTwice(Naive(s, content, BySize(s)))
  {
    var found := Naive(s, content, BySize(s));
    forall j, k, x | 0 <= j < k < |found| && x in found[j].members ensures x !in found[k].members {
      ReportedOnce(s, content, j, k, x);
    }
  }

  /** With faithful content and no full-hash collision, the stages report exactly the content
      classes of two or more files, however the sample hash behaves. */
  lemma StagesFindContentClasses(s: Setup, content: nat -> seq<nat>)
    requires Faithful(s, content) && CollisionFree(s, content)
    ensures PartitionsByContent(s, content, Staged(s, content, BySize(s)))
  {
    BySizeFull(s);
    StagedIsNaive(s, content, BySize(s));
    NaivePartitions(s, content);
    NaiveNoneTwice(s, content);
  }

  /** The whole analysis: entries are collected, then read in stages. Whatever the reader does,
      every group is sound and the read budget holds; if the report is complete, every qualifying
      entry is represented, and against faithful content with no full-hash collision the groups
      are the content classes of the represented objects. */
  method FindDuplicates(options: Options, entries: seq<Entry>, reader: (nat, Request) -> Attempt,
                        sampleHash: (nat, seq<Piece>) -> nat, fullHash: seq<nat> -> nat,
                        traversalComplete: bool, lateCancel: bool, ghost content: nat -> seq<nat>)
    returns (groups: seq<Group>, complete: bool, charged: nat, delivered: nat, attempts: nat)
    ensures delivered <= charged <= options.maxReadBytes
    ensures AllOk(Setup(options, Collect(options, entries).files, reader, sampleHash, fullHash), groups, attempts)
    ensures complete ==> traversalComplete && !lateCancel
    ensures complete ==>
              forall k | 0 <= k < |entries| && Qualifies(options, entries[k]) :: Represented(Collect(options, entries).files, entries[k])
    ensures var s := Setup(options, Collect(options, entries).files, reader, sampleHash, fullHash);
            complete && Faithful(s, content) && CollisionFree(s, content) ==> PartitionsByContent(s, content, Outlines(groups))
  {
    var collector := new DuplicateCollector(options);
    for k := 0 to |entries|
      invariant collector.Valid() && collector.options == options && fresh(collector)
      invariant collector.State() == Collect(options, entries[..k])
    {
      assert entries[..k + 1][..k] == entries[..k];
      collector.Observe(entries[k]);
    }
    assert entries[..|entries|] == entries;
    var s := Setup(options, collector.files, reader, sampleHash, fullHash);
    assert forall i | 0 <= i < |s.files| :: Admissible(options, s.files[i]);
    var analysis := new Analysis(s, collector.gaps);
    groups, complete := analysis.Analyze(traversalComplete, lateCancel, content);
    charged, delivered, attempts := analysis.charged, analysis.delivered, analysis.attempts;
    if complete {
      forall k | 0 <= k < |entries| && Qualifies(options, entries[k]) ensures Represented(s.files, entries[k]) {
        CollectExact(options, entries, k);
      }
    }
    if Faithful(s, content) && CollisionFree(s, content) {
      StagesFindContentClasses(s, content);
    }
  }
}
