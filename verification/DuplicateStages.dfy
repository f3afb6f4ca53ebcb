/** The staged content analysis: bounded reads, samples, full hashes, final checks. */
module DuplicateStages {
  import opened Wrappers
  import opened Buckets
  import opened Duplicates

  // ---- An arbitrary reader ----

  datatype Interruption = Running | CancelledNow | TimedOut

  datatype Chunk = Chunk(bytes: seq<nat>, interruption: Interruption)

  datatype StreamResult = StreamResult(bytesRead: nat, before: Observation, after: Observation)

  /** Everything that can happen around one attempted read: whether cancellation or the deadline
      strikes before it, at each chunk or after it, the chunks, and what the source returns. */
  datatype Attempt = Attempt(before: Interruption, chunks: seq<Chunk>, after: Interruption, result: Result<StreamResult, Reason>)

  datatype Request = Request(index: nat, offset: nat, count: nat, previous: Option<Observation>)

  datatype Piece = Piece(offset: nat, count: nat, bytes: seq<nat>)

  /** `reader(n, request)` is what the n-th attempt meets; the hashes are arbitrary functions. */
  datatype Setup = Setup(options: Options, files: seq<Entry>, reader: (nat, Request) -> Attempt,
                         sampleHash: (nat, seq<Piece>) -> nat, fullHash: seq<nat> -> nat)

  function Concat(chunks: seq<Chunk>): seq<nat> {
    if chunks == [] then [] else Concat(chunks[..|chunks| - 1]) + chunks[|chunks| - 1].bytes
  }

  /** Attempt `n` delivered exactly the requested range, uninterrupted, under one observation
      that is the file's own and the same as the previous one. */
  ghost predicate Delivers(s: Setup, n: nat, r: Request, bytes: seq<nat>, o: Observation) {
    var a := s.reader(n, r);
    && a.before.Running? && a.after.Running? && (forall k | 0 <= k < |a.chunks| :: a.chunks[k].interruption.Running?)
    && bytes == Concat(a.chunks) && |bytes| == r.count
    && a.result == Ok(StreamResult(r.count, o, o))
    && (r.previous.Some? ==> r.previous.value == o)
    && r.index < |s.files| && Matches(s.files[r.index], o)
  }

  predicate Stops(reason: Reason) {
    reason.Cancelled? || reason.Deadline?
  }

  datatype Group = Group(size: nat, digest: nat, members: seq<nat>, observations: seq<Observation>)

  datatype Outcome = Good | Bad | Stop

  // ---- What each stage computes when nothing goes wrong ----

  function Min(a: nat, b: nat): nat {
    if a < b then a else b
  }

  /** The sampled ranges: a prefix, and a suffix unless the prefix already reached the end. */
  function Ranges(size: nat, sample: nat): seq<(nat, nat)> {
    var prefix := Min(size, sample);
    var suffix := Min(size - prefix, sample);
    [(0, prefix)] + if suffix == 0 && size - suffix > 0 then [] else [(size - suffix, suffix)]
  }

  function PieceOf(content: seq<nat>, range: (nat, nat)): Piece {
    var end := range.0 + range.1;
    Piece(range.0, range.1, if end <= |content| then content[range.0..end] else [])
  }

  function PiecesOf(content: seq<nat>, ranges: seq<(nat, nat)>): seq<Piece> {
    seq(|ranges|, k requires 0 <= k < |ranges| => PieceOf(content, ranges[k]))
  }

  lemma PiecesOfRanges(content: seq<nat>, size: nat, sample: nat)
    ensures var prefix := Min(size, sample);
            var suffix := Min(size - prefix, sample);
            PiecesOf(content, Ranges(size, sample)) ==
            [PieceOf(content, (0, prefix))] + if suffix == 0 && size - suffix > 0 then [] else [PieceOf(content, (size - suffix, suffix))]
  {
  }

  ghost function SizeKey(s: Setup): nat -> nat {
    (i: nat) => if i < |s.files| && s.files[i].size.Some? then s.files[i].size.value else 0
  }

  function SampleDigest(s: Setup, size: nat, bytes: seq<nat>): nat {
    s.sampleHash(size, PiecesOf(bytes, Ranges(size, s.options.sampleBytes)))
  }

  ghost function SampleKey(s: Setup, content: nat -> seq<nat>): nat -> nat {
    (i: nat) => SampleDigest(s, SizeKey(s)(i), content(i))
  }

  ghost function FullKey(s: Setup, content: nat -> seq<nat>): nat -> nat {
    (i: nat) => s.fullHash(content(i))
  }

  /** Accepted reads return the file's bytes. */
  ghost predicate Faithful(s: Setup, content: nat -> seq<nat>) {
    && (forall i {:trigger content(i)} | 0 <= i < |s.files| :: |content(i)| == SizeKey(s)(i))
    && forall n, r, bytes, o {:trigger Delivers(s, n, r, bytes, o)} | Delivers(s, n, r, bytes, o) ::
         r.offset + r.count <= |content(r.index)| && bytes == content(r.index)[r.offset..r.offset + r.count]
  }

  /** A full hash that some attempt before `limit` computed under observation `o`. */
  ghost predicate Hashed(s: Setup, i: nat, digest: nat, o: Observation, limit: nat) {
    exists n: nat, previous, bytes {:trigger Delivers(s, n, Request(i, 0, SizeKey(s)(i), previous), bytes, o)} ::
      n < limit && Delivers(s, n, Request(i, 0, SizeKey(s)(i), previous), bytes, o) && s.fullHash(bytes) == digest
  }

  /** A metadata-only check, from attempt `from` on, that found the observation unchanged. */
  ghost predicate Rechecked(s: Setup, i: nat, o: Observation, from: nat, limit: nat) {
    exists n: nat {:trigger Delivers(s, n, Request(i, 0, 0, Some(o)), [], o)} :: from <= n < limit && Delivers(s, n, Request(i, 0, 0, Some(o)), [], o)
  }

  ghost predicate NoRepeats(items: seq<nat>) {
    forall i, j | 0 <= i < j < |items| :: items[i] != items[j]
  }

  /** Every member was fully read to the group's digest before attempt `mark`, and checked again
      from then on, under one observation. */
  ghost predicate CheckedFrom(s: Setup, g: Group, mark: nat, limit: nat)
    requires |g.observations| == |g.members|
  {
    forall k {:trigger g.members[k]} | 0 <= k < |g.members| ::
      g.members[k] < |s.files| && s.files[g.members[k]].size == Some(g.size)
      && Hashed(s, g.members[k], g.digest, g.observations[k], mark) && Rechecked(s, g.members[k], g.observations[k], mark, limit)
  }

  /** A reported group: at least two distinct objects of one length, each fully read to the same
      digest under an observation that was found unchanged once all of them had been read. */
  ghost predicate GroupOk(s: Setup, g: Group, limit: nat) {
    && |g.members| > 1 && NoRepeats(g.members) && |g.observations| == |g.members|
    && exists mark {:trigger CheckedFrom(s, g, mark, limit)} :: CheckedFrom(s, g, mark, limit)
  }

  predicate Kept(before: Option<Observation>, after: Option<Observation>) {
    before.Some? ==> after == before
  }

  /** Observations, once made, never change. */
  ghost predicate Extends(before: seq<Option<Observation>>, after: seq<Option<Observation>>) {
    |before| == |after| && forall j {:trigger Kept(before[j], after[j])} | 0 <= j < |before| :: Kept(before[j], after[j])
  }

  lemma ExtendsTrans(a: seq<Option<Observation>>, b: seq<Option<Observation>>, c: seq<Option<Observation>>)
    requires Extends(a, b) && Extends(b, c)
    ensures Extends(a, c)
  {
    forall j | 0 <= j < |a| ensures Kept(a[j], c[j]) {
      assert Kept(a[j], b[j]) && Kept(b[j], c[j]);
    }
  }

  ghost predicate OnceIn(buckets: seq<Bucket>, done: seq<nat>, key: nat) {
    NoRepeats(Lookup(buckets, key)) && forall x | x in Lookup(buckets, key) :: x in done
  }

  ghost predicate ApartIn(buckets: seq<Bucket>, j: nat, k: nat) {
    forall x | x in Lookup(buckets, j) :: x !in Lookup(buckets, k)
  }

  /** Every item comes from `done` and stands in one place of one bucket. */
  ghost predicate Clean(buckets: seq<Bucket>, done: seq<nat>) {
    && WellFormed(buckets)
    && (forall key: nat {:trigger OnceIn(buckets, done, key)} :: OnceIn(buckets, done, key))
    && (forall j: nat, k: nat {:trigger ApartIn(buckets, j, k)} | j != k :: ApartIn(buckets, j, k))
  }

  lemma NothingClean()
    ensures Clean([], [])
  {
  }

  lemma CleanGrows(buckets: seq<Bucket>, done: seq<nat>, more: seq<nat>)
    requires Clean(buckets, done) && forall x | x in done :: x in more
    ensures Clean(buckets, more)
  {
    forall key: nat ensures OnceIn(buckets, more, key) {
      assert OnceIn(buckets, done, key);
    }
  }

  lemma PushClean(buckets: seq<Bucket>, done: seq<nat>, key: nat, item: nat)
    requires Clean(buckets, done) && item !in done
    ensures Clean(Push(buckets, key, item), done + [item])
  {
    var after := Push(buckets, key, item);
    PushAppends(buckets, key, item, key);
    forall k: nat ensures OnceIn(after, done + [item], k) {
      assert OnceIn(buckets, done, k);
      PushAppends(buckets, key, item, k);
    }
    forall j: nat, k: nat | j != k ensures ApartIn(after, j, k) {
      assert ApartIn(buckets, j, k) && OnceIn(buckets, done, j) && OnceIn(buckets, done, k);
      PushAppends(buckets, key, item, j);
      PushAppends(buckets, key, item, k);
    }
  }

  /** Files that share their key with another, bucket by bucket. */
  function Survivors(buckets: seq<Bucket>): seq<nat> {
    if buckets == [] then []
    else
      var n := |buckets| - 1;
      Survivors(buckets[..n]) + if |buckets[n].items| > 1 then buckets[n].items else []
  }

  lemma {:induction false} SurvivorsFrom(buckets: seq<Bucket>, x: nat) returns (b: nat)
    requires x in Survivors(buckets)
    ensures b < |buckets| && |buckets[b].items| > 1 && x in buckets[b].items
  {
    var n := |buckets| - 1;
    if x in Survivors(buckets[..n]) {
      b := SurvivorsFrom(buckets[..n], x);
    } else {
      b := n;
    }
  }

  lemma {:induction false} SurvivorsGrow(buckets: seq<Bucket>, k: nat)
    requires k <= |buckets|
    ensures forall x | x in Survivors(buckets[..k]) :: x in Survivors(buckets)
  {
    if k == |buckets| {
      assert buckets[..k] == buckets;
    } else {
      var n := |buckets| - 1;
      assert buckets[..n][..k] == buckets[..k];
      SurvivorsGrow(buckets[..n], k);
    }
  }

  lemma {:induction false} KeysAscend(buckets: seq<Bucket>, i: nat, j: nat)
    requires WellFormed(buckets) && i < j < |buckets|
    ensures buckets[i].key < buckets[j].key
  {
    if i == 0 {
      assert buckets[j] == buckets[1..][j - 1] && buckets[1..][j - 1] in buckets[1..];
    } else {
      KeysAscend(buckets[1..], i - 1, j - 1);
    }
  }

  lemma {:induction false} ItemsLookUp(buckets: seq<Bucket>, b: nat)
    requires WellFormed(buckets) && b < |buckets|
    ensures Lookup(buckets, buckets[b].key) == buckets[b].items
  {
    if b > 0 {
      KeysAscend(buckets, 0, b);
      ItemsLookUp(buckets[1..], b - 1);
    }
  }

  lemma ItemsApart(buckets: seq<Bucket>, done: seq<nat>, i: nat, b: nat)
    requires Clean(buckets, done) && i < b < |buckets|
    ensures forall x | x in buckets[i].items :: x !in buckets[b].items
  {
    ItemsLookUp(buckets, i);
    ItemsLookUp(buckets, b);
    KeysAscend(buckets, i, b);
    assert ApartIn(buckets, buckets[i].key, buckets[b].key);
  }

  /** A bucket's items are distinct, come from `done`, and none was in an earlier bucket. */
  lemma SurvivorsFresh(buckets: seq<Bucket>, done: seq<nat>, b: nat)
    requires Clean(buckets, done) && b < |buckets|
    ensures NoRepeats(buckets[b].items) && (forall x | x in buckets[b].items :: x in done)
    ensures forall x | x in buckets[b].items :: x !in Survivors(buckets[..b])
  {
    ItemsLookUp(buckets, b);
    assert OnceIn(buckets, done, buckets[b].key);
    forall x | x in buckets[b].items ensures x !in Survivors(buckets[..b]) {
      if x in Survivors(buckets[..b]) {
        var i := SurvivorsFrom(buckets[..b], x);
        ItemsApart(buckets, done, i, b);
        assert false;
      }
    }
  }

  /** Every hashed file's digest and observation can be traced to one accepted read. */
  ghost predicate AllHashed(s: Setup, previous: seq<Option<Observation>>, attempts: nat, full: seq<Bucket>) {
    forall key: nat, x: nat {:trigger x in Lookup(full, key)} | x in Lookup(full, key) ::
      x < |previous| && previous[x].Some? && Hashed(s, x, key, previous[x].value, attempts)
  }

  lemma AllHashedLater(s: Setup, previous: seq<Option<Observation>>, attempts: nat, later: seq<Option<Observation>>, more: nat, full: seq<Bucket>)
    requires AllHashed(s, previous, attempts, full) && attempts <= more && Extends(previous, later)
    ensures AllHashed(s, later, more, full)
  {
    forall key: nat, x: nat | x in Lookup(full, key) ensures x < |later| && later[x].Some? && Hashed(s, x, key, later[x].value, more) {
      assert Kept(previous[x], later[x]);
    }
  }

  lemma PushHashed(s: Setup, previous: seq<Option<Observation>>, attempts: nat, full: seq<Bucket>, digest: nat, item: nat)
    requires WellFormed(full) && AllHashed(s, previous, attempts, full)
    requires item < |previous| && previous[item].Some? && Hashed(s, item, digest, previous[item].value, attempts)
    ensures AllHashed(s, previous, attempts, Push(full, digest, item))
  {
    forall key: nat, x: nat | x in Lookup(Push(full, digest, item), key)
      ensures x < |previous| && previous[x].Some? && Hashed(s, x, key, previous[x].value, attempts)
    {
      PushAppends(full, digest, item, key);
    }
  }

  /** The last observation of each file. */
  function ObservationsOf(previous: seq<Option<Observation>>, items: seq<nat>): (observations: seq<Observation>)
    requires forall x | x in items :: x < |previous| && previous[x].Some?
    ensures |observations| == |items|
    ensures forall k | 0 <= k < |items| :: items[k] in items && observations[k] == previous[items[k]].value
  {
    assert forall k | 0 <= k < |items| :: items[k] in items;
    seq(|items|, k requires 0 <= k < |items| => previous[items[k]].value)
  }

  /** Rechecked members of a sound bucket make a sound group. */
  lemma GroupSound(s: Setup, previous: seq<Option<Observation>>, group: Group, items: seq<nat>, mark: nat, limit: nat)
    requires |group.members| > 1 && NoRepeats(group.members)
    requires forall x | x in items :: x < |s.files| && s.files[x].size == Some(group.size) && x < |previous| && previous[x].Some?
    requires forall x | x in items :: Hashed(s, x, group.digest, previous[x].value, mark)
    requires forall x | x in group.members :: x in items && Rechecked(s, x, previous[x].value, mark, limit)
    requires group.observations == ObservationsOf(previous, group.members)
    ensures GroupOk(s, group, limit)
  {
    forall k | 0 <= k < |group.members|
      ensures group.members[k] in items && group.observations[k] == previous[group.members[k]].value
      ensures Rechecked(s, group.members[k], group.observations[k], mark, limit)
    {
      assert group.members[k] in group.members;
    }
    assert CheckedFrom(s, group, mark, limit);
  }

  /** What a report says, observations aside. */
  datatype Outline = Outline(size: nat, digest: nat, members: seq<nat>)

  function Outlines(groups: seq<Group>): seq<Outline> {
    seq(|groups|, k requires 0 <= k < |groups| => Outline(groups[k].size, groups[k].digest, groups[k].members))
  }

  function OutlinesOf(size: nat, buckets: seq<Bucket>): seq<Outline> {
    seq(|buckets|, k requires 0 <= k < |buckets| => Outline(size, buckets[k].key, buckets[k].items))
  }

  lemma OutlinesAppend(groups: seq<Group>, group: Group)
    ensures Outlines(groups + [group]) == Outlines(groups) + [Outline(group.size, group.digest, group.members)]
  {
  }

  lemma OutlinesGrow(size: nat, buckets: seq<Bucket>, b: nat)
    requires b < |buckets|
    ensures OutlinesOf(size, Large(buckets[..b + 1])) ==
            OutlinesOf(size, Large(buckets[..b])) + if |buckets[b].items| > 1 then [Outline(size, buckets[b].key, buckets[b].items)] else []
  {
    assert buckets[..b + 1][..b] == buckets[..b];
  }

  ghost predicate AllOk(s: Setup, groups: seq<Group>, limit: nat) {
    forall k {:trigger GroupOk(s, groups[k], limit)} | 0 <= k < |groups| :: GroupOk(s, groups[k], limit)
  }

  lemma AllOkLater(s: Setup, groups: seq<Group>, limit: nat, more: nat)
    requires AllOk(s, groups, limit) && limit <= more
    ensures AllOk(s, groups, more)
  {
    forall k | 0 <= k < |groups| ensures GroupOk(s, groups[k], more) {
      assert GroupOk(s, groups[k], limit);
      var mark :| CheckedFrom(s, groups[k], mark, limit);
      assert CheckedFrom(s, groups[k], mark, more);
    }
  }

  lemma AllOkAppend(s: Setup, groups: seq<Group>, group: Group, limit: nat)
    requires AllOk(s, groups, limit) && GroupOk(s, group, limit)
    ensures AllOk(s, groups + [group], limit)
  {
    forall k | 0 <= k < |groups| + 1 ensures GroupOk(s, (groups + [group])[k], limit) {
      if k < |groups| {
        assert GroupOk(s, groups[k], limit);
      }
    }
  }

  /** A bucket of full hashes: distinct files, each hashed to the bucket's digest. */
  lemma BucketSound(s: Setup, previous: seq<Option<Observation>>, attempts: nat, full: seq<Bucket>, done: seq<nat>, b: nat)
    requires Clean(full, done) && AllHashed(s, previous, attempts, full) && b < |full|
    ensures NoRepeats(full[b].items)
    ensures forall x | x in full[b].items ::
              x in done && x < |previous| && previous[x].Some? && Hashed(s, x, full[b].key, previous[x].value, attempts)
  {
    ItemsLookUp(full, b);
    assert OnceIn(full, done, full[b].key);
  }

  /** What the stages report for one size, when every read is accepted and faithful. */
  ghost function StagedFor(s: Setup, content: nat -> seq<nat>, size: nat, items: seq<nat>): seq<Outline> {
    OutlinesOf(size, Large(Grouped(Survivors(Grouped(items, SampleKey(s, content))), FullKey(s, content))))
  }

  /** What each size with at least two files contributes, in order of size. */
  function PerSize(cells: Bucket -> seq<Outline>, sizes: seq<Bucket>): seq<Outline> {
    if sizes == [] then []
    else
      var n := |sizes| - 1;
      PerSize(cells, sizes[..n]) + if |sizes[n].items| > 1 then cells(sizes[n]) else []
  }

  ghost function StagedCells(s: Setup, content: nat -> seq<nat>): Bucket -> seq<Outline> {
    (b: Bucket) => StagedFor(s, content, b.key, b.items)
  }

  ghost function Staged(s: Setup, content: nat -> seq<nat>, sizes: seq<Bucket>): seq<Outline> {
    PerSize(StagedCells(s, content), sizes)
  }

  function Upto(n: nat): seq<nat> {
    seq(n, i => i)
  }

  lemma SurvivorsWithin(buckets: seq<Bucket>, done: seq<nat>)
    requires Clean(buckets, done)
    ensures forall x | x in Survivors(buckets) :: x in done
  {
    forall x | x in Survivors(buckets) ensures x in done {
      var b := SurvivorsFrom(buckets, x);
      ItemsLookUp(buckets, b);
      assert OnceIn(buckets, done, buckets[b].key);
    }
  }

  lemma {:induction false} MatchingSound(items: seq<nat>, keyOf: nat -> nat, key: nat)
    requires NoRepeats(items)
    ensures NoRepeats(Matching(items, keyOf, key))
    ensures forall x :: x in Matching(items, keyOf, key) <==> x in items && keyOf(x) == key
  {
    if items != [] {
      var n := |items| - 1;
      MatchingSound(items[..n], keyOf, key);
      assert items == items[..n] + [items[n]];
    }
  }

  /** Files of one size bucket are distinct and have that size. */
  lemma SizeBucket(s: Setup, n: nat, b: nat)
    requires n <= |s.files| && b < |Grouped(Upto(n), SizeKey(s))|
    requires forall i | 0 <= i < |s.files| :: s.files[i].size.Some?
    ensures var bucket := Grouped(Upto(n), SizeKey(s))[b];
            NoRepeats(bucket.items) && forall i | i in bucket.items :: i < n && s.files[i].size == Some(bucket.key)
  {
    var sizes := Grouped(Upto(n), SizeKey(s));
    GroupedExact(Upto(n), SizeKey(s), sizes[b].key);
    ItemsLookUp(sizes, b);
    MatchingSound(Upto(n), SizeKey(s), sizes[b].key);
  }

  /** The analysis of one collected set of files. */
  class Analysis {
    const s: Setup
    var charged: nat
    var delivered: nat
    var operations: nat
    var attempts: nat
    var gaps: set<Reason>
    var previous: seq<Option<Observation>>

    ghost predicate Valid()
      reads this
    {
      && (forall i | 0 <= i < |s.files| :: s.files[i].size.Some?)
      && |previous| == |s.files|
      && delivered <= charged <= s.options.maxReadBytes && operations <= s.options.maxOperations
    }

    constructor (s: Setup, gaps: set<Reason>)
      requires forall i | 0 <= i < |s.files| :: s.files[i].size.Some?
      ensures Valid() && this.s == s && this.gaps == gaps && attempts == 0
      ensures charged == 0 && operations == 0
    {
      this.s, this.gaps := s, gaps;
      charged, delivered, operations, attempts := 0, 0, 0, 0;
      previous := seq(|s.files|, _ => None);
    }

    /** The chunk callback of `ReadBudget::read`, over every chunk the source hands out. */
    method Consume(chunks: seq<Chunk>, count: nat)
      returns (bytes: seq<nat>, total: nat, timedOut: bool, cancelled: bool, exceeded: bool)
      requires delivered + count <= charged
      modifies this`delivered
      ensures old(delivered) <= delivered <= old(delivered) + count
      ensures !timedOut && !cancelled <==> forall k | 0 <= k < |chunks| :: chunks[k].interruption.Running?
      ensures !timedOut && !cancelled && !exceeded ==> bytes == Concat(chunks) && total == |bytes|
    {
      bytes, total, timedOut, cancelled, exceeded := [], 0, false, false, false;
      var k := 0;
      ghost var taken: nat := 0;
      while k < |chunks|
        invariant 0 <= k <= |chunks|
        invariant delivered == old(delivered) + taken && taken <= count && taken <= total
        invariant !timedOut && !cancelled <==> forall j | 0 <= j < k :: chunks[j].interruption.Running?
        invariant !timedOut && !cancelled && !exceeded ==> bytes == Concat(chunks[..k]) && total == |bytes| == taken
      {
        assert chunks[..k + 1][..k] == chunks[..k];
        var chunk := chunks[k];
        k := k + 1;
        if chunk.interruption.CancelledNow? {
          cancelled := true;
          continue;
        }
        if chunk.interruption.TimedOut? {
          timedOut := true;
          continue;
        }
        total := total + |chunk.bytes|;
        if total > count {
          exceeded := true;
          continue;
        }
        taken := taken + |chunk.bytes|;
        delivered := delivered + |chunk.bytes|;
        bytes := bytes + chunk.bytes;
      }
      assert chunks[..k] == chunks;
    }

    /** `ReadBudget::read`: the range is charged before the attempt, and an attempt that is
        interrupted, refused, short, long or seen to change yields no bytes. */
    method Read(index: nat, offset: nat, count: nat) returns (result: Result<Observation, Reason>, bytes: seq<nat>)
      requires Valid() && index < |s.files|
      modifies this`charged, this`delivered, this`operations, this`attempts
      ensures Valid() && attempts == old(attempts) + 1
      ensures result.Ok? ==> Delivers(s, old(attempts), Request(index, offset, count, previous[index]), bytes, result.value)
    {
      var request := Request(index, offset, count, previous[index]);
      var attempt := s.reader(attempts, request);
      attempts := attempts + 1;
      bytes := [];
      if attempt.before.CancelledNow? {
        return Err(Cancelled), [];
      }
      if attempt.before.TimedOut? {
        return Err(Deadline), [];
      }
      if operations >= s.options.maxOperations || count > s.options.maxReadBytes - charged {
        return Err(ReadLimit), [];
      }
      operations := operations + 1;
      charged := charged + count;
      var total, timedOut, cancelled, exceeded;
      bytes, total, timedOut, cancelled, exceeded := Consume(attempt.chunks, count);
      if timedOut || attempt.after.TimedOut? {
        return Err(Deadline), [];
      }
      if cancelled || attempt.after.CancelledNow? {
        return Err(Cancelled), [];
      }
      if attempt.result.Err? {
        return Err(attempt.result.error), [];
      }
      var r := attempt.result.value;
      if exceeded || total != count || r.bytesRead != count || r.before != r.after
        || (previous[index].Some? && previous[index].value != r.before)
        || !Matches(s.files[index], r.before)
      {
        return Err(ChangedOrUnbound), [];
      }
      return Ok(r.after), bytes;
    }

    ghost predicate Sized(indices: seq<nat>, size: nat) {
      NoRepeats(indices) && forall i | i in indices :: i < |s.files| && s.files[i].size == Some(size)
    }

    /** One sampled range: the observation is kept, a refusal is recorded. */
    method SampleRange(index: nat, offset: nat, count: nat, ghost content: nat -> seq<nat>) returns (outcome: Outcome, piece: Piece)
      requires Valid() && index < |s.files|
      modifies this
      ensures Valid() && attempts >= old(attempts) && gaps >= old(gaps) && Extends(old(previous), previous)
      ensures !outcome.Good? ==> gaps != {}
      ensures outcome.Good? && Faithful(s, content) ==> piece == PieceOf(content(index), (offset, count))
    {
      var result, bytes := Read(index, offset, count);
      piece := Piece(offset, count, bytes);
      if result.Err? {
        gaps := gaps + {result.error};
        outcome := if Stops(result.error) then Stop else Bad;
        return;
      }
      previous := previous[index := Some(result.value)];
      outcome := Good;
    }

    /** The sampled suffix, skipped where the prefix already reached the end. */
    method SampleSuffix(index: nat, size: nat, prefix: nat, ghost content: nat -> seq<nat>) returns (outcome: Outcome, rest: seq<Piece>)
      requires Valid() && index < |s.files| && prefix == Min(size, s.options.sampleBytes)
      modifies this
      ensures Valid() && attempts >= old(attempts) && gaps >= old(gaps) && Extends(old(previous), previous)
      ensures !outcome.Good? ==> gaps != {}
      ensures outcome.Good? && Faithful(s, content) ==>
                [PieceOf(content(index), (0, prefix))] + rest == PiecesOf(content(index), Ranges(size, s.options.sampleBytes))
    {
      var suffix := Min(size - prefix, s.options.sampleBytes);
      PiecesOfRanges(content(index), size, s.options.sampleBytes);
      rest := [];
      if suffix == 0 && size - suffix > 0 {
        return Good, rest;
      }
      var second;
      outcome, second := SampleRange(index, size - suffix, suffix, content);
      rest := [second];
    }

    /** Both sampled ranges of one file. */
    method SampleFile(index: nat, size: nat, ghost content: nat -> seq<nat>) returns (outcome: Outcome, digest: nat)
      requires Valid() && index < |s.files| && s.files[index].size == Some(size)
      modifies this
      ensures Valid() && attempts >= old(attempts) && gaps >= old(gaps) && Extends(old(previous), previous)
      ensures !outcome.Good? ==> gaps != {}
      ensures outcome.Good? && Faithful(s, content) ==> digest == SampleDigest(s, size, content(index))
    {
      var prefix := Min(size, s.options.sampleBytes);
      var first, rest;
      digest := 0;
      outcome, first := SampleRange(index, 0, prefix, content);
      if !outcome.Good? {
        return;
      }
      ghost var seen := previous;
      outcome, rest := SampleSuffix(index, size, prefix, content);
      ExtendsTrans(old(previous), seen, previous);
      if outcome.Good? {
        digest := s.sampleHash(size, [first] + rest);
      }
    }

    /** Samples every file of one size. */
    method SampleStage(indices: seq<nat>, size: nat, ghost content: nat -> seq<nat>) returns (samples: seq<Bucket>, stopped: bool)
      requires Valid() && Sized(indices, size)
      modifies this
      ensures Valid() && attempts >= old(attempts) && gaps >= old(gaps) && Extends(old(previous), previous)
      ensures stopped ==> gaps != {}
      ensures Clean(samples, indices)
      ensures gaps == {} && Faithful(s, content) ==> samples == Grouped(indices, SampleKey(s, content))
    {
      samples, stopped := [], false;
      var k := 0;
      NothingClean();
      while k < |indices|
        invariant 0 <= k <= |indices| && Clean(samples, indices[..k])
        invariant Valid() && attempts >= old(attempts) && gaps >= old(gaps) && Extends(old(previous), previous)
        invariant gaps == {} && Faithful(s, content) ==> samples == Grouped(indices[..k], SampleKey(s, content))
      {
        assert indices[..k + 1] == indices[..k] + [indices[k]] && indices[..k + 1][..k] == indices[..k];
        assert indices[k] in indices && indices[k] !in indices[..k];
        ghost var seen := previous;
        var outcome, digest := SampleFile(indices[k], size, content);
        ExtendsTrans(old(previous), seen, previous);
        if outcome.Stop? {
          CleanGrows(samples, indices[..k], indices);
          return samples, true;
        }
        if outcome.Good? {
          PushClean(samples, indices[..k], digest, indices[k]);
          samples := Push(samples, digest, indices[k]);
        } else {
          CleanGrows(samples, indices[..k], indices[..k + 1]);
        }
        k := k + 1;
      }
      assert indices[..k] == indices;
    }

    /** One full hash. */
    method HashFile(index: nat, size: nat, ghost content: nat -> seq<nat>) returns (outcome: Outcome, digest: nat)
      requires Valid() && index < |s.files| && s.files[index].size == Some(size)
      modifies this
      ensures Valid() && attempts >= old(attempts) && gaps >= old(gaps) && Extends(old(previous), previous)
      ensures !outcome.Good? ==> gaps != {}
      ensures outcome.Good? ==> previous[index].Some? && Hashed(s, index, digest, previous[index].value, attempts)
      ensures outcome.Good? && Faithful(s, content) ==> digest == FullKey(s, content)(index)
    {
      var result, bytes := Read(index, 0, size);
      digest := s.fullHash(bytes);
      if result.Err? {
        gaps := gaps + {result.error};
        outcome := if Stops(result.error) then Stop else Bad;
        return;
      }
      assert Faithful(s, content) ==> |content(index)| == size && bytes == content(index)[0..size] == content(index);
      assert Delivers(s, old(attempts), Request(index, 0, SizeKey(s)(index), previous[index]), bytes, result.value);
      previous := previous[index := Some(result.value)];
      outcome := Good;
    }

    /** Full hashes of the files that share a sample with another file. */
    method FullStage(samples: seq<Bucket>, indices: seq<nat>, size: nat, ghost content: nat -> seq<nat>)
      returns (full: seq<Bucket>, stopped: bool)
      requires Valid() && Sized(indices, size) && Clean(samples, indices)
      modifies this
      ensures Valid() && attempts >= old(attempts) && gaps >= old(gaps) && Extends(old(previous), previous)
      ensures stopped ==> gaps != {}
      ensures Clean(full, Survivors(samples)) && AllHashed(s, previous, attempts, full)
      ensures gaps == {} && Faithful(s, content) ==> full == Grouped(Survivors(samples), FullKey(s, content))
    {
      full, stopped := [], false;
      NothingClean();
      var b := 0;
      while b < |samples|
        invariant 0 <= b <= |samples| && Clean(full, Survivors(samples[..b])) && AllHashed(s, previous, attempts, full)
        invariant Valid() && attempts >= old(attempts) && gaps >= old(gaps) && Extends(old(previous), previous)
        invariant gaps == {} && Faithful(s, content) ==> full == Grouped(Survivors(samples[..b]), FullKey(s, content))
      {
        assert samples[..b + 1][..b] == samples[..b];
        if |samples[b].items| > 1 {
          SurvivorsFresh(samples, indices, b);
          ghost var seen := previous;
          full, stopped := HashBucket(full, Survivors(samples[..b]), samples[b].items, size, content);
          ExtendsTrans(old(previous), seen, previous);
          if stopped {
            SurvivorsGrow(samples, b + 1);
            CleanGrows(full, Survivors(samples[..b + 1]), Survivors(samples));
            return;
          }
        }
        assert Survivors(samples[..b]) + [] == Survivors(samples[..b]);
        b := b + 1;
      }
      assert samples[..b] == samples;
    }

    /** Hashes one more file into the buckets, if it can be read. */
    method HashInto(before: seq<Bucket>, ghost done: seq<nat>, item: nat, size: nat, ghost content: nat -> seq<nat>)
      returns (full: seq<Bucket>, stopped: bool)
      requires Valid() && item < |s.files| && s.files[item].size == Some(size) && item !in done
      requires Clean(before, done) && AllHashed(s, previous, attempts, before)
      modifies this
      ensures Valid() && attempts >= old(attempts) && gaps >= old(gaps) && Extends(old(previous), previous)
      ensures stopped ==> gaps != {}
      ensures Clean(full, done + [item]) && AllHashed(s, previous, attempts, full)
      ensures gaps == {} && Faithful(s, content) ==> full == Push(before, FullKey(s, content)(item), item)
    {
      ghost var seen, tried := previous, attempts;
      var outcome, digest := HashFile(item, size, content);
      AllHashedLater(s, seen, tried, previous, attempts, before);
      if outcome.Good? {
        PushClean(before, done, digest, item);
        PushHashed(s, previous, attempts, before, digest, item);
        full, stopped := Push(before, digest, item), false;
      } else {
        CleanGrows(before, done, done + [item]);
        full, stopped := before, outcome.Stop?;
      }
    }

    method HashBucket(before: seq<Bucket>, ghost done: seq<nat>, items: seq<nat>, size: nat, ghost content: nat -> seq<nat>)
      returns (full: seq<Bucket>, stopped: bool)
      requires Valid() && Sized(items, size) && Clean(before, done) && AllHashed(s, previous, attempts, before)
      requires forall x | x in items :: x !in done
      modifies this
      ensures Valid() && attempts >= old(attempts) && gaps >= old(gaps) && Extends(old(previous), previous)
      ensures stopped ==> gaps != {}
      ensures Clean(full, done + items) && AllHashed(s, previous, attempts, full)
      ensures gaps == {} && Faithful(s, content) && before == Grouped(done, FullKey(s, content)) ==>
                full == Grouped(done + items, FullKey(s, content))
    {
      full, stopped := before, false;
      assert done + items[..0] == done;
      var k := 0;
      while k < |items|
        invariant 0 <= k <= |items| && Clean(full, done + items[..k]) && AllHashed(s, previous, attempts, full)
        invariant Valid() && attempts >= old(attempts) && gaps >= old(gaps) && Extends(old(previous), previous)
        invariant gaps == {} && Faithful(s, content) && before == Grouped(done, FullKey(s, content)) ==>
          full == Grouped(done + items[..k], FullKey(s, content))
      {
        ghost var now := done + items[..k];
        assert items[k] in items && items[k] !in items[..k] && items[k] !in now;
        assert done + items[..k + 1] == now + [items[k]] && (now + [items[k]])[..|now|] == now;
        ghost var seen := previous;
        full, stopped := HashInto(full, now, items[k], size, content);
        ExtendsTrans(old(previous), seen, previous);
        k := k + 1;
        if stopped {
          CleanGrows(full, done + items[..k], done + items);
          return;
        }
      }
      assert items[..k] == items;
    }

    /** The final check of one candidate group, without reading content. */
    method RecheckBucket(items: seq<nat>, digest: nat, size: nat) returns (valid: seq<nat>, stopped: bool)
      requires Valid() && Sized(items, size)
      requires forall x | x in items :: previous[x].Some?
      modifies this`charged, this`delivered, this`operations, this`attempts, this`gaps
      ensures Valid() && attempts >= old(attempts) && gaps >= old(gaps)
      ensures stopped ==> gaps != {}
      ensures NoRepeats(valid) && forall x | x in valid :: x in items && Rechecked(s, x, previous[x].value, old(attempts), attempts)
      ensures gaps == {} ==> valid == items
    {
      valid, stopped := [], false;
      var k := 0;
      while k < |items|
        invariant 0 <= k <= |items| && Valid() && attempts >= old(attempts) && gaps >= old(gaps)
        invariant NoRepeats(valid) && forall x | x in valid :: x in items[..k] && x in items && Rechecked(s, x, previous[x].value, old(attempts), attempts)
        invariant gaps == {} ==> valid == items[..k]
      {
        assert items[k] in items && items[k] !in items[..k] && items[..k + 1] == items[..k] + [items[k]];
        var result, bytes := Read(items[k], 0, 0);
        if result.Ok? {
          assert bytes == [] && result.value == previous[items[k]].value;
          assert Delivers(s, attempts - 1, Request(items[k], 0, 0, Some(previous[items[k]].value)), [], previous[items[k]].value);
          valid := valid + [items[k]];
        } else {
          gaps := gaps + {result.error};
          if Stops(result.error) {
            stopped := true;
            return;
          }
        }
        k := k + 1;
      }
      assert items[..k] == items;
    }

    /** Groups of one size, from its full hashes. */
    method GroupStage(full: seq<Bucket>, indices: seq<nat>, size: nat, before: seq<Group>) returns (groups: seq<Group>, stopped: bool)
      requires Valid() && Sized(indices, size) && Clean(full, indices) && AllHashed(s, previous, attempts, full)
      requires AllOk(s, before, attempts)
      modifies this`charged, this`delivered, this`operations, this`attempts, this`gaps
      ensures Valid() && attempts >= old(attempts) && gaps >= old(gaps)
      ensures stopped ==> gaps != {}
      ensures AllOk(s, groups, attempts)
      ensures gaps == {} ==> Outlines(groups) == Outlines(before) + OutlinesOf(size, Large(full))
    {
      groups, stopped := before, false;
      var b := 0;
      while b < |full|
        invariant 0 <= b <= |full| && Valid() && attempts >= old(attempts) && gaps >= old(gaps)
        invariant AllOk(s, groups, attempts) && AllHashed(s, previous, old(attempts), full)
        invariant gaps == {} ==> Outlines(groups) == Outlines(before) + OutlinesOf(size, Large(full[..b]))
      {
        OutlinesGrow(size, full, b);
        if |full[b].items| > 1 {
          BucketSound(s, previous, old(attempts), full, indices, b);
          ghost var tried := attempts;
          var valid;
          valid, stopped := RecheckBucket(full[b].items, full[b].key, size);
          AllOkLater(s, groups, tried, attempts);
          if stopped {
            return;
          }
          if |valid| > 1 {
            var group := Group(size, full[b].key, valid, ObservationsOf(previous, valid));
            GroupSound(s, previous, group, full[b].items, old(attempts), attempts);
            AllOkAppend(s, groups, group, attempts);
            OutlinesAppend(groups, group);
            groups := groups + [group];
          }
        }
        b := b + 1;
      }
      assert full[..b] == full;
    }

    /** All stages of one size. */
    method AnalyzeSize(indices: seq<nat>, size: nat, before: seq<Group>, ghost content: nat -> seq<nat>)
      returns (groups: seq<Group>, stopped: bool)
      requires Valid() && Sized(indices, size) && AllOk(s, before, attempts)
      modifies this
      ensures Valid() && attempts >= old(attempts) && gaps >= old(gaps)
      ensures stopped ==> gaps != {}
      ensures AllOk(s, groups, attempts)
      ensures gaps == {} && Faithful(s, content) ==> Outlines(groups) == Outlines(before) + StagedFor(s, content, size, indices)
    {
      groups, stopped := before, false;
      ghost var tried := attempts;
      var samples, full;
      samples, stopped := SampleStage(indices, size, content);
      if !stopped {
        full, stopped := FullStage(samples, indices, size, content);
      }
      AllOkLater(s, before, tried, attempts);
      if !stopped {
        SurvivorsWithin(samples, indices);
        CleanGrows(full, Survivors(samples), indices);
        groups, stopped := GroupStage(full, indices, size, before);
      }
    }

    /** The files by size. */
    method GroupSizes() returns (sizes: seq<Bucket>)
      requires Valid()
      ensures sizes == Grouped(Upto(|s.files|), SizeKey(s))
    {
      sizes := [];
      for index := 0 to |s.files|
        invariant sizes == Grouped(Upto(index), SizeKey(s))
      {
        assert Upto(index + 1)[..index] == Upto(index);
        sizes := Push(sizes, s.files[index].size.value, index);
      }
    }

    /** Every size shared by at least two files, until a stage stops. */
    method ContentStages(sizes: seq<Bucket>, ghost content: nat -> seq<nat>) returns (groups: seq<Group>)
      requires Valid() && forall b {:trigger sizes[b]} | 0 <= b < |sizes| :: Sized(sizes[b].items, sizes[b].key)
      modifies this
      ensures Valid() && gaps >= old(gaps) && AllOk(s, groups, attempts)
      ensures gaps == {} && Faithful(s, content) ==> Outlines(groups) == Staged(s, content, sizes)
    {
      groups := [];
      for b := 0 to |sizes|
        invariant Valid() && gaps >= old(gaps) && AllOk(s, groups, attempts)
        invariant gaps == {} && Faithful(s, content) ==> Outlines(groups) == Staged(s, content, sizes[..b])
      {
        assert sizes[..b + 1][..b] == sizes[..b];
        if |sizes[b].items| > 1 {
          var stopped;
          groups, stopped := AnalyzeSize(sizes[b].items, sizes[b].key, groups, content);
          if stopped {
            return;
          }
        }
      }
      assert sizes[..|sizes|] == sizes;
    }

    /** `analyze_with_observer`: sizes first, then the content stages. `lateCancel` is whether
        cancellation is seen once more at the end. The report is complete when no gap remains. */
    method Analyze(traversalComplete: bool, lateCancel: bool, ghost content: nat -> seq<nat>) returns (groups: seq<Group>, complete: bool)
      requires Valid()
      modifies this
      ensures Valid() && gaps >= old(gaps)
      ensures AllOk(s, groups, attempts)
      ensures complete <==> gaps == {}
      ensures complete ==> traversalComplete && !lateCancel
      ensures complete && Faithful(s, content) ==> Outlines(groups) == Staged(s, content, Grouped(Upto(|s.files|), SizeKey(s)))
    {
      if !traversalComplete {
        gaps := gaps + {TraversalIncomplete};
      }
      var sizes := GroupSizes();
      forall b | 0 <= b < |sizes| ensures Sized(sizes[b].items, sizes[b].key) {
        SizeBucket(s, |s.files|, b);
      }
      groups := ContentStages(sizes, content);
      if lateCancel {
        gaps := gaps + {Cancelled};
      }
      complete := gaps == {};
    }
  }
}
