/** Duplicate detection: what is read, what is reported, and the bounded metadata collector. */
module Duplicates {
  import opened Wrappers
  import opened Totals

  datatype Reason =
    | TraversalIncomplete | MetadataUnavailable | RetentionLimit | ReadLimit | Deadline
    | Cancelled | ChangedOrUnbound | ProviderOrOffline | ReadFailed

  /** Filesystem domain, device and inode: one native object. */
  datatype ObjectKey = ObjectKey(domain: nat, device: nat, inode: nat)

  /** One scanned path; `native` and `size` are present only when known. */
  datatype Entry = Entry(isFile: bool, size: Option<nat>, native: Option<ObjectKey>, mount: Option<nat>, retained: nat)

  /** A native observation of an open file; `stamp` is its change evidence. */
  datatype Observation = Observation(isFile: bool, native: ObjectKey, size: nat, mount: nat, stamp: nat)

  datatype Options = Options(minimum: nat, maxFiles: nat, maxRetained: nat, maxReadBytes: nat,
                             maxFileBytes: nat, maxOperations: nat, sampleBytes: nat)

  /** `observation_matches_entry`. */
  predicate Matches(entry: Entry, o: Observation) {
    && entry.native == Some(o.native) && o.isFile && entry.size == Some(o.size)
    && (entry.mount.Some? ==> entry.mount.value == o.mount)
  }

  // ---- Collecting ----

  function Cost(entry: Entry): nat {
    entry.retained * 3 + 1024
  }

  datatype Collected = Collected(files: seq<Entry>, observed: nat, aliases: nat, gaps: set<Reason>)

  function Find(files: seq<Entry>, key: ObjectKey): Option<nat> {
    if files == [] then None
    else
      var n := |files| - 1;
      if files[n].native == Some(key) then Some(n) else Find(files[..n], key)
  }

  /** The effect of one entry. */
  function AfterObserving(options: Options, c: Collected, entry: Entry): Collected {
    if !entry.isFile then c
    else
      var seen := c.(observed := c.observed + 1);
      if entry.size.None? then seen.(gaps := c.gaps + {MetadataUnavailable})
      else if entry.size.value < options.minimum then seen
      else if entry.native.None? then seen.(gaps := c.gaps + {MetadataUnavailable})
      else match Find(c.files, entry.native.value)
        case Some(index) =>
          seen.(aliases := c.aliases + 1,
                gaps := if index < |c.files| && c.files[index].size != entry.size then c.gaps + {ChangedOrUnbound} else c.gaps)
        case None =>
          if entry.size.value > options.maxFileBytes then seen.(gaps := c.gaps + {ReadLimit})
          else if |c.files| >= options.maxFiles || Total(Cost, c.files) + Cost(entry) > options.maxRetained then
            seen.(gaps := c.gaps + {RetentionLimit})
          else seen.(files := c.files + [entry])
  }

  function Collect(options: Options, entries: seq<Entry>): Collected {
    if entries == [] then Collected([], 0, 0, {})
    else AfterObserving(options, Collect(options, entries[..|entries| - 1]), entries[|entries| - 1])
  }

  predicate Admissible(options: Options, entry: Entry) {
    && entry.isFile && entry.native.Some? && entry.size.Some?
    && options.minimum <= entry.size.value <= options.maxFileBytes
  }

  predicate Apart(a: Entry, b: Entry) {
    a.native != b.native
  }

  /** Retained files are admissible, name distinct objects and fit both bounds. */
  ghost predicate Admitted(options: Options, files: seq<Entry>) {
    && (forall i {:trigger Admissible(options, files[i])} | 0 <= i < |files| :: Admissible(options, files[i]))
    && (forall i, j {:trigger Apart(files[i], files[j])} | 0 <= i < j < |files| :: Apart(files[i], files[j]))
    && |files| <= options.maxFiles && Total(Cost, files) <= options.maxRetained
  }

  lemma {:induction false} FindFinds(files: seq<Entry>, key: ObjectKey)
    ensures Find(files, key).Some? ==> Find(files, key).value < |files| && files[Find(files, key).value].native == Some(key)
    ensures Find(files, key).None? ==> forall i | 0 <= i < |files| :: files[i].native != Some(key)
  {
    if files != [] {
      FindFinds(files[..|files| - 1], key);
    }
  }

  /** An entry that duplicate analysis should cover. */
  predicate Qualifies(options: Options, entry: Entry) {
    entry.isFile && (entry.size.None? || entry.size.value >= options.minimum)
  }

  /** `entry` is represented by a retained file of the same object and length. */
  ghost predicate Represented(files: seq<Entry>, entry: Entry) {
    entry.native.Some? && entry.size.Some?
    && exists i :: 0 <= i < |files| && files[i].native == entry.native && files[i].size == entry.size
  }

  lemma ObserveKeeps(options: Options, c: Collected, entry: Entry)
    requires Admitted(options, c.files)
    ensures var after := AfterObserving(options, c, entry);
            && Admitted(options, after.files) && c.files <= after.files && c.gaps <= after.gaps
            && (after.gaps == {} && Qualifies(options, entry) ==> Represented(after.files, entry))
  {
    if entry.native.Some? {
      FindFinds(c.files, entry.native.value);
    }
    var after := AfterObserving(options, c, entry);
    if |after.files| > |c.files| {
      TotalConcat(Cost, c.files, [entry]);
      TotalOne(Cost, entry);
      assert after.files[|c.files|] == entry;
    }
  }

  /** After any stream of entries the retained files are distinct admissible objects within both
      bounds; and if no gap was recorded, every qualifying entry is represented among them. */
  lemma {:induction false} CollectExact(options: Options, entries: seq<Entry>, at: nat)
    requires at < |entries|
    ensures var c := Collect(options, entries);
            && Admitted(options, c.files)
            && (c.gaps == {} && Qualifies(options, entries[at]) ==> Represented(c.files, entries[at]))
  {
    var n := |entries| - 1;
    CollectAdmits(options, entries[..n]);
    ObserveKeeps(options, Collect(options, entries[..n]), entries[n]);
    if at < n {
      CollectExact(options, entries[..n], at);
      var before, after := Collect(options, entries[..n]), Collect(options, entries);
      if after.gaps == {} && Qualifies(options, entries[at]) {
        var i :| 0 <= i < |before.files| && before.files[i].native == entries[at].native && before.files[i].size == entries[at].size;
        assert after.files[i] == before.files[i];
      }
    }
  }

  lemma {:induction false} CollectAdmits(options: Options, entries: seq<Entry>)
    ensures Admitted(options, Collect(options, entries).files)
  {
    if entries != [] {
      var n := |entries| - 1;
      CollectAdmits(options, entries[..n]);
      ObserveKeeps(options, Collect(options, entries[..n]), entries[n]);
    }
  }

  /** The index finds what a search would. */
  ghost predicate Indexed(files: seq<Entry>, objects: map<ObjectKey, nat>) {
    forall key {:trigger Find(files, key)} :: Find(files, key) == if key in objects then Some(objects[key]) else None
  }

  lemma IndexGrows(files: seq<Entry>, objects: map<ObjectKey, nat>, entry: Entry)
    requires Indexed(files, objects) && entry.native.Some?
    ensures Indexed(files + [entry], objects[entry.native.value := |files|])
  {
    var after := files + [entry];
    forall key ensures Find(after, key) == if key == entry.native.value then Some(|files|) else Find(files, key) {
      assert after[..|files|] == files;
    }
  }

  /** The collector as it is kept: an index by object and a running cost. */
  class DuplicateCollector {
    const options: Options
    var files: seq<Entry>
    var objects: map<ObjectKey, nat>
    var retained: nat
    var observed: nat
    var aliases: nat
    var gaps: set<Reason>

    ghost predicate Valid()
      reads this
    {
      Admitted(options, files) && retained == Total(Cost, files) && Indexed(files, objects)
    }

    ghost function State(): Collected
      reads this
    {
      Collected(files, observed, aliases, gaps)
    }

    constructor (options: Options)
      ensures Valid() && this.options == options && State() == Collect(options, [])
    {
      this.options := options;
      files, objects, retained, observed, aliases, gaps := [], map[], 0, 0, 0, {};
    }

    method Observe(entry: Entry)
      requires Valid()
      modifies this
      ensures Valid() && State() == AfterObserving(options, old(State()), entry)
    {
      if !entry.isFile {
        return;
      }
      if entry.size.None? || (entry.size.value >= options.minimum && entry.native.None?) {
        gaps := gaps + {MetadataUnavailable};
      } else if entry.size.value >= options.minimum {
        Retain(entry);
      }
      observed := observed + 1;
    }

    /** The part of `observe` for a file whose length and object are known. */
    method Retain(entry: Entry)
      requires Valid() && entry.isFile && entry.native.Some? && entry.size.Some? && entry.size.value >= options.minimum
      modifies this
      ensures Valid() && observed == old(observed)
      ensures State().(observed := observed + 1) == AfterObserving(options, old(State()), entry)
    {
      var key := entry.native.value;
      FindFinds(files, key);
      assert Find(files, key) == if key in objects then Some(objects[key]) else None;
      if key in objects {
        aliases := aliases + 1;
        if files[objects[key]].size != entry.size {
          gaps := gaps + {ChangedOrUnbound};
        }
        return;
      }
      if entry.size.value > options.maxFileBytes {
        gaps := gaps + {ReadLimit};
        return;
      }
      var cost := Cost(entry);
      if |files| >= options.maxFiles || retained + cost > options.maxRetained {
        gaps := gaps + {RetentionLimit};
        return;
      }
      ObserveKeeps(options, State(), entry);
      TotalConcat(Cost, files, [entry]);
      TotalOne(Cost, entry);
      IndexGrows(files, objects, entry);
      retained := retained + cost;
      objects := objects[key := |files|];
      files := files + [entry];
    }
  }
}
