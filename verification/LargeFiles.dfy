/** The streaming top-K of large files under a retention budget. */
module LargeFiles {
  import opened Wrappers
  import opened Sorting
  import opened Totals

  const MAX_ORDINAL: nat := 0xFFFF_FFFF_FFFF_FFFF_FFFF_FFFF_FFFF_FFFF

  datatype Entry = Entry(isFile: bool, length: Option<nat>, retained: nat, path: string)

  datatype Options = Options(minimum: nat, maxFiles: nat, maxRetained: nat)

  /** `LargeFileCollector::new` accepts only finite, positive bounds. */
  predicate ValidOptions(o: Options) {
    1 <= o.maxFiles <= 10_000 && 1 <= o.maxRetained <= 64 * 1024 * 1024
  }

  /** A ranked file: `ordinal` counts ordinary files observed so far. */
  datatype Ranked = Ranked(length: nat, ordinal: nat, entry: Entry)

  /** Larger first; among equal lengths, observed earlier first. */
  predicate Before(a: Ranked, b: Ranked) {
    a.length > b.length || (a.length == b.length && a.ordinal < b.ordinal)
  }

  function Cost(r: Ranked): nat {
    r.entry.retained * 2 + 512
  }

  // ---- What the ranking should be ----

  function Files(stream: seq<Entry>): nat {
    if stream == [] then 0 else Files(stream[..|stream| - 1]) + if stream[|stream| - 1].isFile then 1 else 0
  }

  function Unknown(stream: seq<Entry>): nat {
    if stream == [] then 0
    else Unknown(stream[..|stream| - 1]) + if stream[|stream| - 1].isFile && stream[|stream| - 1].length.None? then 1 else 0
  }

  predicate Qualifies(o: Options, entry: Entry) {
    entry.isFile && entry.length.Some? && entry.length.value >= o.minimum
  }

  function RankOf(stream: seq<Entry>): Ranked
    requires stream != [] && stream[|stream| - 1].length.Some?
  {
    Ranked(stream[|stream| - 1].length.value, Files(stream), stream[|stream| - 1])
  }

  function Qualifying(o: Options, stream: seq<Entry>): seq<Ranked> {
    if stream == [] then []
    else
      var n := |stream| - 1;
      Qualifying(o, stream[..n]) + if Qualifies(o, stream[n]) then [RankOf(stream)] else []
  }

  function Take<T>(items: seq<T>, k: nat): seq<T> {
    if |items| <= k then items else items[..k]
  }

  /** The `k` largest, in order. */
  function Top(o: Options, stream: seq<Entry>): seq<Ranked> {
    Take(Sort(Before, Qualifying(o, stream)), o.maxFiles)
  }

  lemma BeforeOrders()
    ensures StrictWeakOrder(Before)
  {
  }

  lemma TakeSplits(sorted: seq<Ranked>, k: nat) returns (rest: seq<Ranked>)
    requires Sorted(Before, sorted)
    ensures Take(sorted, k) + rest == sorted && Sorted(Before, Take(sorted, k))
    ensures |Take(sorted, k)| == if |sorted| <= k then |sorted| else k
    ensures forall t, r | t in Take(sorted, k) && r in rest :: !Before(r, t)
  {
    var top := Take(sorted, k);
    rest := sorted[|top|..];
    forall t, r | t in top && r in rest ensures !Before(r, t) {
      var i :| 0 <= i < |top| && top[i] == t;
      var j :| 0 <= j < |rest| && rest[j] == r;
      assert sorted[i] == t && sorted[|top| + j] == r;
    }
  }

  /** What `Top` means: sorted, as many as fit, and nothing left out ranks before anything kept. */
  lemma TopIsLargest(o: Options, stream: seq<Entry>) returns (rest: seq<Ranked>)
    ensures multiset(Top(o, stream) + rest) == multiset(Qualifying(o, stream))
    ensures Sorted(Before, Top(o, stream))
    ensures |Top(o, stream)| == if |Qualifying(o, stream)| <= o.maxFiles then |Qualifying(o, stream)| else o.maxFiles
    ensures forall t, r | t in Top(o, stream) && r in rest :: !Before(r, t)
  {
    BeforeOrders();
    SortSorts(Before, Qualifying(o, stream));
    rest := TakeSplits(Sort(Before, Qualifying(o, stream)), o.maxFiles);
  }

  // ---- Inserting into a bounded ranking ----

  lemma {:induction false} InsertTake(s: seq<Ranked>, x: Ranked, k: nat)
    ensures Take(Insert(Before, s, x), k) == Take(Insert(Before, Take(s, k), x), k)
  {
    if s == [] {
    } else if k == 0 {
    } else if Before(x, s[0]) {
      assert Take([x] + s, k) == [x] + Take(s, k - 1);
      assert Take([x] + Take(s, k), k) == [x] + Take(s, k - 1);
    } else {
      InsertTake(s[1..], x, k - 1);
      assert Take(s, k) == [s[0]] + Take(s[1..], k - 1);
      assert Take(s, k)[1..] == Take(s[1..], k - 1);
      assert Take([s[0]] + Insert(Before, s[1..], x), k) == [s[0]] + Take(Insert(Before, s[1..], x), k - 1);
      assert Take([s[0]] + Insert(Before, Take(s[1..], k - 1), x), k) == [s[0]] + Take(Insert(Before, Take(s[1..], k - 1), x), k - 1);
    }
  }

  lemma {:induction false} InsertLast(s: seq<Ranked>, x: Ranked)
    requires Sorted(Before, s) && (s != [] ==> !Before(x, s[|s| - 1]))
    ensures Insert(Before, s, x) == s + [x]
  {
    if s != [] {
      if |s| > 1 {
        assert !Before(s[|s| - 1], s[0]);
      }
      InsertLast(s[1..], x);
    }
  }

  /** Dropping the last before or after inserting something that ranks before it. */
  lemma {:induction false} InsertDropsLast(s: seq<Ranked>, x: Ranked)
    requires s != [] && Before(x, s[|s| - 1])
    ensures Insert(Before, s, x) == Insert(Before, s[..|s| - 1], x) + [s[|s| - 1]]
  {
    var n := |s| - 1;
    if n == 0 {
    } else if Before(x, s[0]) {
      assert [x] + s == ([x] + s[..n]) + [s[n]];
    } else {
      InsertDropsLast(s[1..], x);
      assert s[1..][..n - 1] == s[..n][1..];
    }
  }

  lemma {:induction false} InsertLength(s: seq<Ranked>, x: Ranked)
    ensures |Insert(Before, s, x)| == |s| + 1
  {
    if s != [] && !Before(x, s[0]) {
      InsertLength(s[1..], x);
    }
  }

  lemma {:induction false} QualifyingEarlier(o: Options, stream: seq<Entry>, r: Ranked)
    requires r in Qualifying(o, stream)
    ensures r.ordinal <= Files(stream)
  {
    var n := |stream| - 1;
    if r in Qualifying(o, stream[..n]) {
      QualifyingEarlier(o, stream[..n], r);
    }
  }

  /** One more qualifying file against the ranking so far. */
  lemma TopGrows(o: Options, stream: seq<Entry>)
    requires stream != [] && Qualifies(o, stream[|stream| - 1])
    ensures Top(o, stream) == Take(Insert(Before, Top(o, stream[..|stream| - 1]), RankOf(stream)), o.maxFiles)
  {
    var n := |stream| - 1;
    var earlier := Qualifying(o, stream[..n]);
    assert (earlier + [RankOf(stream)])[..|earlier|] == earlier;
    InsertTake(Sort(Before, earlier), RankOf(stream), o.maxFiles);
  }

  // ---- The collector ----

  class LargeFileCollector {
    const options: Options
    var files: seq<Ranked>
    var retained: nat
    var observed: nat
    var qualifying: nat
    var unknown: nat
    var retentionLimited: bool
    ghost var stream: seq<Entry>

    ghost predicate Valid()
      reads this
    {
      && ValidOptions(options) && Sorted(Before, files) && |files| <= options.maxFiles
      && retained == Total(Cost, files) <= options.maxRetained
      && observed == Files(stream) && qualifying == |Qualifying(options, stream)| && unknown == Unknown(stream)
      && (forall r | r in files :: r in Qualifying(options, stream))
      && (!retentionLimited ==> files == Top(options, stream))
    }

    constructor (options: Options)
      requires ValidOptions(options)
      ensures Valid() && this.options == options && stream == []
    {
      this.options := options;
      files, retained, observed, qualifying, unknown, retentionLimited, stream := [], 0, 0, 0, 0, false, [];
    }

    /** `observe`, for streams of fewer than 2^128 files. */
    method Observe(entry: Entry)
      requires Valid() && observed < MAX_ORDINAL
      modifies this
      ensures Valid() && stream == old(stream) + [entry]
    {
      ghost var earlier := stream;
      stream := stream + [entry];
      assert stream[..|stream| - 1] == earlier;
      assert Qualifying(options, earlier) + [] == Qualifying(options, earlier);
      if !entry.isFile {
        return;
      }
      observed := observed + 1;
      if entry.length.None? {
        unknown := unknown + 1;
        return;
      }
      if entry.length.value < options.minimum {
        return;
      }
      qualifying := qualifying + 1;
      Admit(entry, earlier);
    }

    /** The part of `observe` for a qualifying file. */
    method Admit(entry: Entry, ghost earlier: seq<Entry>)
      requires ValidOptions(options) && Sorted(Before, files) && |files| <= options.maxFiles
      requires retained == Total(Cost, files) <= options.maxRetained
      requires stream == earlier + [entry] && Qualifies(options, entry)
      requires observed == Files(stream) && qualifying == |Qualifying(options, stream)| && unknown == Unknown(stream)
      requires forall r | r in files :: r in Qualifying(options, earlier)
      requires !retentionLimited ==> files == Top(options, earlier)
      modifies this`files, this`retained, this`retentionLimited
      ensures Valid()
    {
      var x := Ranked(entry.length.value, observed, entry);
      assert stream[..|stream| - 1] == earlier;
      assert x == RankOf(stream) && Qualifying(options, stream) == Qualifying(options, earlier) + [x];
      TopGrows(options, stream);
      Place(x);
    }

    /** Ranks one file: kept if it fits the count and the budget, at the expense of smaller ones. */
    method Place(x: Ranked)
      requires ValidOptions(options) && Sorted(Before, files) && |files| <= options.maxFiles
      requires retained == Total(Cost, files) <= options.maxRetained
      modifies this`files, this`retained, this`retentionLimited
      ensures Sorted(Before, files) && |files| <= options.maxFiles
      ensures retained == Total(Cost, files) <= options.maxRetained
      ensures forall r | r in files :: r in old(files) || r == x
      ensures !retentionLimited ==> !old(retentionLimited) && files == Take(Insert(Before, old(files), x), options.maxFiles)
    {
      InsertLength(files, x);
      if |files| == options.maxFiles && !Before(x, files[|files| - 1]) {
        InsertLast(files, x);
        assert Take(files + [x], options.maxFiles) == files;
        return;
      }
      var cost := Cost(x);
      if cost > options.maxRetained {
        retentionLimited := true;
        return;
      }
      var refused := MakeRoom(x, cost);
      if !refused {
        Insertion(options, old(files), files, x, retentionLimited);
        retained := retained + cost;
        files := Insert(Before, files, x);
      }
    }

    /** Drops the smallest until there is room, unless what is left is larger than `x`. */
    method MakeRoom(x: Ranked, cost: nat) returns (refused: bool)
      requires Sorted(Before, files) && |files| <= options.maxFiles && cost <= options.maxRetained && options.maxFiles > 0
      requires retained == Total(Cost, files) <= options.maxRetained
      modifies this`files, this`retained, this`retentionLimited
      ensures |files| <= |old(files)| && files == old(files)[..|files|]
      ensures retained == Total(Cost, files) <= options.maxRetained
      ensures refused ==> retentionLimited
      ensures !refused ==> |files| < options.maxFiles && retained + cost <= options.maxRetained
      ensures !retentionLimited ==> !old(retentionLimited) && |files| == if |old(files)| == options.maxFiles then |old(files)| - 1 else |old(files)|
    {
      ghost var before := files;
      while |files| == options.maxFiles || retained + cost > options.maxRetained
        invariant |files| <= |before| && files == before[..|files|]
        invariant retained == Total(Cost, files) <= options.maxRetained
        invariant !retentionLimited ==> !old(retentionLimited)
        invariant !retentionLimited ==> |files| == |before| || (|before| == options.maxFiles && |files| == |before| - 1)
        decreases |files|
      {
        var n := |files| - 1;
        if Before(files[n], x) {
          retentionLimited := true;
          return true;
        }
        if |files| < options.maxFiles {
          retentionLimited := true;
        }
        retained := retained - Cost(files[n]);
        files := files[..n];
      }
      return false;
    }

    /** The report: complete only with full traversal, every length known and nothing refused for
        memory; then it lists exactly the largest qualifying files. */
    method Finish(traversalComplete: bool) returns (report: seq<Entry>, complete: bool, topLimited: bool)
      requires Valid()
      ensures complete ==> traversalComplete && Unknown(stream) == 0
      ensures complete ==> report == Entries(Top(options, stream))
      ensures topLimited <==> |Qualifying(options, stream)| > options.maxFiles
      ensures |report| <= options.maxFiles
    {
      complete := traversalComplete && unknown == 0 && !retentionLimited;
      topLimited := qualifying > options.maxFiles;
      report := Entries(files);
    }
  }

  function Entries(ranked: seq<Ranked>): seq<Entry> {
    seq(|ranked|, i requires 0 <= i < |ranked| => ranked[i].entry)
  }

  /** Inserting into what eviction left keeps the order, the cost and, when nothing was evicted for
      memory, the exact ranking. */
  lemma Insertion(o: Options, before: seq<Ranked>, left: seq<Ranked>, x: Ranked, limited: bool)
    requires Sorted(Before, before) && |left| <= |before| <= o.maxFiles && left == before[..|left|] && |left| < o.maxFiles
    requires |before| == o.maxFiles ==> Before(x, before[|before| - 1])
    requires !limited ==> |left| == if |before| == o.maxFiles then |before| - 1 else |before|
    ensures var after := Insert(Before, left, x);
            && Sorted(Before, after) && |after| == |left| + 1 && Total(Cost, after) == Total(Cost, left) + Cost(x)
            && (forall r | r in after :: r in left || r == x)
            && (!limited ==> after == Take(Insert(Before, before, x), o.maxFiles))
  {
    BeforeOrders();
    InsertKeeps(Before, left, x);
    InsertLength(left, x);
    InsertLength(before, x);
    TotalInsert(Cost, Before, left, x);
    forall r | r in Insert(Before, left, x) ensures r in left || r == x {
      assert r in multiset(Insert(Before, left, x));
    }
    if !limited {
      if |before| == o.maxFiles {
        InsertDropsLast(before, x);
      } else {
        assert left == before;
      }
    }
  }
}
