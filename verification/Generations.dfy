/** One write session over the preview cache: retention, then data-before-pointer publication,
    with every intermediate state of the disk recorded. */
module Generations {
  import opened Wrappers
  import opened Bytes
  import opened Sorting
  import opened Totals
  import opened GenerationDisk

  datatype Error = ResourceLimit | Exists | Io | Invalid

  // ---- Single disk mutations ----

  function Remove(items: seq<Item>, name: string): seq<Item> {
    if items == [] then []
    else if items[0].name == name then items[1..]
    else [items[0]] + Remove(items[1..], name)
  }

  /** Atomic rename over `name`, or a new last entry. */
  function Put(items: seq<Item>, item: Item): seq<Item> {
    if items == [] then [item]
    else if items[0].name == item.name then [item] + items[1..]
    else [items[0]] + Put(items[1..], item)
  }

  lemma {:induction false} FindRemove(items: seq<Item>, gone: string, name: string)
    requires gone != name
    ensures Find(Remove(items, gone), name) == Find(items, name)
  {
    if items != [] && items[0].name != gone {
      FindRemove(items[1..], gone, name);
      assert Remove(items, gone)[1..] == Remove(items[1..], gone);
    }
  }

  lemma {:induction false} FindPut(items: seq<Item>, item: Item, name: string)
    ensures Find(Put(items, item), name) == if name == item.name then Some(item) else Find(items, name)
  {
    if items != [] && items[0].name != item.name {
      FindPut(items[1..], item, name);
      assert Put(items, item)[1..] == Put(items[1..], item);
    } else if items != [] {
      assert Put(items, item)[1..] == items[1..];
    }
  }

  function RemoveAll(items: seq<Item>, gone: seq<Item>): seq<Item> {
    if gone == [] then items else Remove(RemoveAll(items, gone[..|gone| - 1]), gone[|gone| - 1].name)
  }

  /** Names are distinct within a directory. */
  ghost predicate DistinctNames(items: seq<Item>) {
    items == [] || (Find(items[1..], items[0].name).None? && DistinctNames(items[1..]))
  }

  // ---- What removing the planned files does to the totals ----

  lemma {:induction false} RemovePresent(items: seq<Item>, item: Item)
    requires Find(items, item.name) == Some(item)
    ensures |Remove(items, item.name)| == |items| - 1
    ensures Total(Size, Remove(items, item.name)) == Total(Size, items) - Size(item)
    ensures Managed(item.name) ==> |ManagedOf(Remove(items, item.name))| == |ManagedOf(items)| - 1
  {
    TotalHead(Size, items);
    ManagedHead(items);
    if items[0].name != item.name {
      RemovePresent(items[1..], item);
      var rest := Remove(items[1..], item.name);
      var after := [items[0]] + rest;
      assert after[1..] == rest;
      TotalHead(Size, after);
      ManagedHead(after);
    }
  }

  lemma {:induction false} ManagedHead(items: seq<Item>)
    requires items != []
    ensures ManagedOf(items) == (if Managed(items[0].name) then [items[0]] else []) + ManagedOf(items[1..])
  {
    var n := |items| - 1;
    if n == 0 {
      assert items[..0] == [] && items[1..] == [];
    } else {
      ManagedHead(items[..n]);
      var rest := items[1..];
      assert items[..n][1..] == rest[..n - 1] && rest[n - 1] == items[n];
      var head := if Managed(items[0].name) then [items[0]] else [];
      var last := if Managed(items[n].name) then [items[n]] else [];
      assert ManagedOf(rest) == ManagedOf(rest[..n - 1]) + last;
      assert (head + ManagedOf(rest[..n - 1])) + last == head + (ManagedOf(rest[..n - 1]) + last);
    }
  }

  lemma {:induction false} MemberFound(items: seq<Item>, item: Item)
    requires DistinctNames(items) && item in items
    ensures Find(items, item.name) == Some(item)
  {
    if items[0] != item {
      assert item in items[1..];
      MemberFound(items[1..], item);
    }
  }

  ghost predicate DifferentNames(gone: seq<Item>) {
    forall i, j {:trigger gone[i], gone[j]} | 0 <= i < j < |gone| :: gone[i].name != gone[j].name
  }

  ghost predicate AllPresent(items: seq<Item>, gone: seq<Item>) {
    DifferentNames(gone) && forall k {:trigger gone[k]} | 0 <= k < |gone| :: Find(items, gone[k].name) == Some(gone[k]) && Managed(gone[k].name)
  }

  lemma PresentPrefix(items: seq<Item>, gone: seq<Item>)
    requires AllPresent(items, gone) && gone != []
    ensures AllPresent(items, gone[..|gone| - 1])
  {
    var first := gone[..|gone| - 1];
    assert forall k | 0 <= k < |first| :: first[k] == gone[k];
  }

  /** Files not on the list are still found. */
  lemma {:induction false} RemoveAllSpares(items: seq<Item>, gone: seq<Item>, name: string)
    requires forall k {:trigger gone[k]} | 0 <= k < |gone| :: gone[k].name != name
    ensures Find(RemoveAll(items, gone), name) == Find(items, name)
  {
    if gone != [] {
      var n := |gone| - 1;
      assert forall k | 0 <= k < n :: gone[..n][k] == gone[k];
      RemoveAllSpares(items, gone[..n], name);
      FindRemove(RemoveAll(items, gone[..n]), gone[n].name, name);
    }
  }

  /** With the others gone, the last file on the list is still there. */
  lemma LastPresent(items: seq<Item>, gone: seq<Item>)
    requires AllPresent(items, gone) && gone != []
    ensures var last, before := gone[|gone| - 1], RemoveAll(items, gone[..|gone| - 1]);
            Find(before, last.name) == Some(last) && Managed(last.name)
  {
    var n := |gone| - 1;
    forall k | 0 <= k < n ensures gone[..n][k].name != gone[n].name {
      assert gone[..n][k] == gone[k];
    }
    RemoveAllSpares(items, gone[..n], gone[n].name);
  }

  /** Removing distinct managed files, all present, takes exactly their counts and bytes away. */
  lemma {:induction false} RemoveAllCounts(items: seq<Item>, gone: seq<Item>)
    requires AllPresent(items, gone)
    ensures |RemoveAll(items, gone)| == |items| - |gone|
    ensures Total(Size, RemoveAll(items, gone)) == Total(Size, items) - Total(Size, gone)
    ensures |ManagedOf(RemoveAll(items, gone))| == |ManagedOf(items)| - |gone|
  {
    if gone != [] {
      PresentPrefix(items, gone);
      RemoveAllCounts(items, gone[..|gone| - 1]);
      LastPresent(items, gone);
      RemovePresent(RemoveAll(items, gone[..|gone| - 1]), gone[|gone| - 1]);
    }
  }

  lemma {:induction false} PutCounts(items: seq<Item>, item: Item)
    ensures |Put(items, item)| == |items| + if Find(items, item.name).Some? then 0 else 1
    ensures Total(Size, Put(items, item)) + (if Find(items, item.name).Some? then Size(Find(items, item.name).value) else 0)
         == Total(Size, items) + Size(item)
    ensures |ManagedOf(Put(items, item))| == |ManagedOf(items)| + if Find(items, item.name).Some? || !Managed(item.name) then 0 else 1
  {
    if items == [] {
      TotalOne(Size, item);
      assert [item][..0] == [];
    } else {
      var after := Put(items, item);
      TotalHead(Size, items);
      ManagedHead(items);
      TotalHead(Size, after);
      ManagedHead(after);
      if items[0].name != item.name {
        PutCounts(items[1..], item);
        assert after[1..] == Put(items[1..], item);
      } else {
        assert after[1..] == items[1..];
      }
    }
  }

  lemma {:induction false} RemoveUndoesPut(items: seq<Item>, item: Item)
    requires Find(items, item.name).None?
    ensures Remove(Put(items, item), item.name) == items
  {
    if items != [] {
      RemoveUndoesPut(items[1..], item);
      assert Put(items, item)[1..] == Put(items[1..], item);
      assert items == [items[0]] + items[1..];
    } else {
      assert Put(items, item)[1..] == [];
    }
  }

  lemma {:induction false} PutTwice(items: seq<Item>, a: Item, b: Item)
    requires a.name == b.name
    ensures Put(Put(items, a), b) == Put(items, b)
  {
    if items == [] {
      assert [a][1..] == [];
    } else if items[0].name == a.name {
      assert Put(items, a)[1..] == items[1..];
    } else {
      PutTwice(items[1..], a, b);
      assert Put(items, a)[1..] == Put(items[1..], a);
    }
  }

  lemma FileNamesManaged(id: string)
    requires ValidId(id)
    ensures Managed(FileName(id))
  {
    var name := FileName(id);
    assert name[|name| - 5..] == ".json" && name[..|name| - 5] == id;
  }

  lemma FileNamesDiffer(a: string, b: string)
    requires FileName(a) == FileName(b)
    ensures a == b
  {
    assert FileName(a)[..|FileName(a)| - 5] == a && FileName(b)[..|FileName(b)| - 5] == b;
  }

  // ---- Loading sees only the pointer and the file it names ----

  ghost predicate SameForLoading(f: Format, a: Disk, b: Disk) {
    && Find(a.root, CURRENT_FILE) == Find(b.root, CURRENT_FILE)
    && forall id | ValidId(id) && Current(f, a.root) == Some(Some(FileName(id))) :: Find(a.generations, FileName(id)) == Find(b.generations, FileName(id))
  }

  lemma LoadsTheSame(f: Format, a: Disk, b: Disk)
    requires SameForLoading(f, a, b)
    ensures Load(f, a) == Load(f, b)
  {
  }

  function WithoutFirst(f: Format, disk: Disk, n: nat): Disk
    requires n <= |Eligible(InventoryOf(f, disk))|
  {
    disk.(generations := RemoveAll(disk.generations, Eligible(InventoryOf(f, disk))[..n]))
  }

  lemma EligibleNamesDiffer(f: Format, disk: Disk)
    requires DistinctNames(disk.generations)
    ensures DifferentNames(Eligible(InventoryOf(f, disk)))
    ensures forall x | x in Eligible(InventoryOf(f, disk)) :: Find(disk.generations, x.name) == Some(x) && Managed(x.name)
  {
    var inventory := InventoryOf(f, disk);
    var eligible := Eligible(inventory);
    EligibleFacts(f, disk);
    forall x | x in eligible ensures Find(disk.generations, x.name) == Some(x) {
      MemberFound(disk.generations, x);
    }
    EligibleOnce(f, disk);
    forall i, j | 0 <= i < j < |eligible| ensures eligible[i].name != eligible[j].name {
      assert eligible[i] in eligible && eligible[j] in eligible;
    }
  }

  lemma {:induction false} FindNone(items: seq<Item>, name: string, x: Item)
    requires Find(items, name).None? && x in items
    ensures x.name != name
  {
    if items[0] != x {
      FindNone(items[1..], name, x);
    }
  }

  lemma {:induction false} DistinctOnce(items: seq<Item>, x: Item)
    requires DistinctNames(items)
    ensures multiset(items)[x] <= 1
  {
    if items != [] {
      DistinctOnce(items[1..], x);
      assert items == [items[0]] + items[1..];
      if x == items[0] && x in items[1..] {
        FindNone(items[1..], x.name, x);
      }
    }
  }

  lemma MultisetGrows(some: seq<Item>, all: seq<Item>, x: Item)
    requires multiset(some) <= multiset(all)
    ensures multiset(some + [x]) <= multiset(all + [x]) && multiset(some + []) <= multiset(all + [x])
  {
    assert some + [] == some;
  }

  lemma {:induction false} ManagedMultiset(items: seq<Item>)
    ensures multiset(ManagedOf(items)) <= multiset(items)
  {
    if items != [] {
      var n := |items| - 1;
      ManagedMultiset(items[..n]);
      assert items == items[..n] + [items[n]];
      MultisetGrows(ManagedOf(items[..n]), items[..n], items[n]);
    }
  }

  lemma {:induction false} EvictablesMultiset(current: Option<Option<string>>, items: seq<Item>)
    ensures multiset(EvictablesOf(current, items)) <= multiset(items)
  {
    if items != [] {
      var n := |items| - 1;
      EvictablesMultiset(current, items[..n]);
      assert items == items[..n] + [items[n]];
      MultisetGrows(EvictablesOf(current, items[..n]), items[..n], items[n]);
    }
  }

  /** No file is listed for eviction twice. */
  lemma EligibleOnce(f: Format, disk: Disk)
    requires DistinctNames(disk.generations)
    ensures var eligible := Eligible(InventoryOf(f, disk)); forall i, j | 0 <= i < j < |eligible| :: eligible[i] != eligible[j]
  {
    var inventory := InventoryOf(f, disk);
    var eligible := Eligible(inventory);
    OlderOrders();
    SortSorts(Older, EvictablesOf(inventory.current, inventory.generations));
    ManagedMultiset(disk.generations);
    EvictablesMultiset(inventory.current, inventory.generations);
    forall i, j | 0 <= i < j < |eligible| ensures eligible[i] != eligible[j] {
      if eligible[i] == eligible[j] {
        TwiceCounted(eligible, i, j);
        DistinctOnce(disk.generations, eligible[j]);
        assert false;
      }
    }
  }

  lemma TwiceCounted(items: seq<Item>, i: nat, j: nat)
    requires i < j < |items| && items[i] == items[j]
    ensures multiset(items)[items[j]] >= 2
  {
    assert items == items[..j] + [items[j]] + items[j + 1..];
    assert items[..j][i] in items[..j];
    assert multiset(items) == multiset(items[..j]) + multiset{items[j]} + multiset(items[j + 1..]);
  }

  lemma EligiblePresent(f: Format, disk: Disk, n: nat)
    requires DistinctNames(disk.generations) && n <= |Eligible(InventoryOf(f, disk))|
    ensures AllPresent(disk.generations, Eligible(InventoryOf(f, disk))[..n])
    ensures forall k | 0 <= k < n :: Evictable(Current(f, disk.root), Eligible(InventoryOf(f, disk))[k])
  {
    var eligible := Eligible(InventoryOf(f, disk));
    EligibleFacts(f, disk);
    EligibleNamesDiffer(f, disk);
    forall k | 0 <= k < |eligible| ensures Find(disk.generations, eligible[k].name) == Some(eligible[k]) && Managed(eligible[k].name) && Evictable(Current(f, disk.root), eligible[k]) {
      assert eligible[k] in eligible;
    }
    assert forall k | 0 <= k < n :: eligible[..n][k] == eligible[k];
  }

  /** However far retention gets, the store loads what it loaded before. */
  lemma RetentionKeepsLoad(f: Format, disk: Disk, n: nat)
    requires DistinctNames(disk.generations) && n <= |Eligible(InventoryOf(f, disk))|
    ensures Load(f, WithoutFirst(f, disk, n)) == Load(f, disk)
  {
    var gone := Eligible(InventoryOf(f, disk))[..n];
    EligiblePresent(f, disk, n);
    forall id | ValidId(id) && Current(f, disk.root) == Some(Some(FileName(id)))
      ensures Find(RemoveAll(disk.generations, gone), FileName(id)) == Find(disk.generations, FileName(id))
    {
      RemoveAllSpares(disk.generations, gone, FileName(id));
    }
    LoadsTheSame(f, disk, WithoutFirst(f, disk, n));
  }

  /** Retention's totals: exactly the removed files' counts and bytes are gone. */
  lemma RetentionTotals(f: Format, disk: Disk, n: nat)
    requires DistinctNames(disk.generations) && n <= |Eligible(InventoryOf(f, disk))|
    ensures var before, after := InventoryOf(f, disk), InventoryOf(f, WithoutFirst(f, disk, n));
            && after.entries == before.entries - n && |after.generations| == |before.generations| - n
            && after.bytes == before.bytes - Total(Size, Eligible(before)[..n]) && after.current == before.current
  {
    EligiblePresent(f, disk, n);
    RemoveAllCounts(disk.generations, Eligible(InventoryOf(f, disk))[..n]);
  }

  /** Retention spares unknown files, the current generation, and everything while the pointer
      cannot be read. */
  lemma RetentionSpares(f: Format, disk: Disk, n: nat, item: Item)
    requires DistinctNames(disk.generations) && n <= |Eligible(InventoryOf(f, disk))| && item in disk.generations
    requires var current := Current(f, disk.root); !Managed(item.name) || current.None? || current.value == Some(item.name)
    ensures Find(WithoutFirst(f, disk, n).generations, item.name) == Some(item)
  {
    var gone := Eligible(InventoryOf(f, disk))[..n];
    EligiblePresent(f, disk, n);
    RemoveAllSpares(disk.generations, gone, item.name);
    MemberFound(disk.generations, item);
  }

  /** Whatever goes is least recently used: nothing kept that could have gone is older. */
  lemma RemovedAreOldest(f: Format, disk: Disk, n: nat, i: nat, j: nat)
    requires i < n <= j < |Eligible(InventoryOf(f, disk))|
    ensures var eligible := Eligible(InventoryOf(f, disk)); !Older(eligible[j], eligible[i])
  {
    EligibleFacts(f, disk);
  }

  // ---- Publication ----

  datatype Place = InRoot | InGenerations

  function Files(disk: Disk, place: Place): seq<Item> {
    if place.InRoot? then disk.root else disk.generations
  }

  function WithFiles(disk: Disk, place: Place, items: seq<Item>): Disk {
    if place.InRoot? then disk.(root := items) else disk.(generations := items)
  }

  /** The temporary file of a publication, at any stage of being written. */
  function WithTemp(disk: Disk, place: Place, temp: Item): Disk {
    WithFiles(disk, place, Put(Files(disk, place), temp))
  }

  function Published(disk: Disk, place: Place, item: Item): Disk {
    WithFiles(disk, place, Put(Files(disk, place), item))
  }

  /** A temporary file is invisible to loading. */
  lemma TempInvisible(f: Format, disk: Disk, place: Place, temp: Item)
    requires !Managed(temp.name) && temp.name != CURRENT_FILE
    ensures Load(f, WithTemp(disk, place, temp)) == Load(f, disk)
  {
    FindPut(Files(disk, place), temp, CURRENT_FILE);
    forall id | ValidId(id) ensures Find(Put(disk.generations, temp), FileName(id)) == Find(disk.generations, FileName(id)) {
      FileNamesManaged(id);
      FindPut(disk.generations, temp, FileName(id));
    }
    LoadsTheSame(f, disk, WithTemp(disk, place, temp));
  }

  function EnvelopeOf(f: Format, payload: Payload): Envelope {
    Envelope(payload.generation, f.checksum(payload), payload)
  }

  function GenerationItem(f: Format, payload: Payload, now: nat): Item {
    Item(FileName(payload.generation), f.encodeEnvelope(EnvelopeOf(f, payload)), now)
  }

  function PointerItem(f: Format, payload: Payload, now: nat): Item {
    Item(CURRENT_FILE, f.encodePointer(payload.generation), now)
  }

  /** What a writer admits before touching storage. */
  predicate Prepared(f: Format, payload: Payload) {
    && ValidId(payload.generation) && f.admits(payload) && f.healthy(payload)
    && |f.encodeEnvelope(EnvelopeOf(f, payload))| <= f.generationLimit
  }

  lemma GenerationLoads(f: Format, generations: seq<Item>, payload: Payload, now: nat)
    requires Lawful(f) && Prepared(f, payload)
    ensures LoadGeneration(f, Put(generations, GenerationItem(f, payload, now)), payload.generation) == Hit(payload)
  {
    FindPut(generations, GenerationItem(f, payload, now), FileName(payload.generation));
  }

  /** Once the data is in place: the old outcome, or, where the old pointer already named this
      missing generation, the new one. */
  lemma DataPublishedLoads(f: Format, disk: Disk, payload: Payload, now: nat)
    requires Lawful(f) && Prepared(f, payload)
    ensures var after := Published(disk, InGenerations, GenerationItem(f, payload, now));
            Load(f, after) == Load(f, disk) || Load(f, after) == Hit(payload)
  {
    var after := Published(disk, InGenerations, GenerationItem(f, payload, now));
    if Current(f, disk.root) == Some(Some(FileName(payload.generation))) {
      var id := f.parsePointer(Find(disk.root, CURRENT_FILE).value.content).value;
      FileNamesDiffer(id, payload.generation);
      GenerationLoads(f, disk.generations, payload, now);
    } else {
      forall id | ValidId(id) && Current(f, disk.root) == Some(Some(FileName(id)))
        ensures Find(after.generations, FileName(id)) == Find(disk.generations, FileName(id))
      {
        FindPut(disk.generations, GenerationItem(f, payload, now), FileName(id));
      }
      LoadsTheSame(f, disk, after);
    }
  }

  /** Once the pointer is in place too, the new generation loads. */
  lemma PointerPublishedLoads(f: Format, disk: Disk, payload: Payload, now: nat)
    requires Lawful(f) && Prepared(f, payload)
    ensures Load(f, Published(Published(disk, InGenerations, GenerationItem(f, payload, now)), InRoot, PointerItem(f, payload, now))) == Hit(payload)
  {
    FindPut(disk.root, PointerItem(f, payload, now), CURRENT_FILE);
    GenerationLoads(f, disk.generations, payload, now);
  }

  /** What one finished publication loads as, and where temporary names still are not. */
  lemma PublishedLoads(f: Format, disk: Disk, place: Place, item: Item, payload: Payload, now: nat, temp: string)
    requires Lawful(f) && Prepared(f, payload) && !Managed(temp) && temp != CURRENT_FILE
    requires place.InGenerations? ==> item == GenerationItem(f, payload, now)
    requires place.InRoot? ==> item.name == CURRENT_FILE && Load(f, Published(disk, InRoot, item)) == Hit(payload)
    ensures var after := Published(disk, place, item);
            && (Load(f, after) == Load(f, disk) || Load(f, after) == Hit(payload))
            && Find(Files(after, place), temp) == Find(Files(disk, place), temp)
  {
    FindPut(Files(disk, place), item, temp);
    if place.InGenerations? {
      DataPublishedLoads(f, disk, payload, now);
      FileNamesManaged(payload.generation);
    }
  }

  /** Renaming the finished temporary file is publishing. */
  lemma RenameIsPublish(disk: Disk, place: Place, temp: Item, item: Item)
    requires Find(Files(disk, place), temp.name).None?
    ensures var written := WithTemp(disk, place, temp);
            WithFiles(written, place, Put(Remove(Files(written, place), temp.name), item)) == Published(disk, place, item)
  {
    RemoveUndoesPut(Files(disk, place), temp);
  }
}
