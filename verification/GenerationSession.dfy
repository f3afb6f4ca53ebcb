/** The exclusive write session: refresh, retention, reservation and two-step publication. Every
    state the disk passes through is kept in `trace`, so a crash is any point of it. */
module GenerationSession {
  import opened Wrappers
  import opened Bytes
  import opened Sorting
  import opened Totals
  import opened GenerationDisk
  import opened Generations

  /** Removing the first `n` makes room, and removing fewer does not. */
  ghost predicate Shortest(inventory: Inventory, eligible: seq<Item>, limits: Limits, growth: Growth, n: nat) {
    && n <= |eligible| && Suffices(inventory, eligible, limits, growth, n)
    && NoneBelow(inventory, eligible, limits, growth, n)
  }

  ghost predicate NoneBelow(inventory: Inventory, eligible: seq<Item>, limits: Limits, growth: Growth, n: nat)
    requires n <= |eligible| + 1
  {
    forall m {:trigger Suffices(inventory, eligible, limits, growth, m)} | 0 <= m < n :: !Suffices(inventory, eligible, limits, growth, m)
  }

  /** The planning half of `prune`: `eligible` files are part of the inventory's totals, so the
      running totals never go below zero. */
  method Plan(inventory: Inventory, eligible: seq<Item>, limits: Limits, growth: Growth) returns (needed: Option<nat>)
    requires |eligible| <= |inventory.generations| <= inventory.entries && Total(Size, eligible) <= inventory.bytes
    ensures needed.Some? ==> Shortest(inventory, eligible, limits, growth, needed.value)
    ensures needed.None? ==>
              NoneBelow(inventory, eligible, limits, growth, |eligible| + 1) || inventory.bytes + growth.bytes >= TWO64
  {
    if inventory.bytes + growth.bytes >= TWO64 {
      return None;
    }
    var bytes := inventory.bytes + growth.bytes;
    var count := |inventory.generations| + growth.generations;
    var entries := inventory.entries + growth.entries;
    assert Total(Size, eligible[..0]) == 0;
    if Within(limits, bytes, count, entries) {
      return Some(0);
    }
    var n := 0;
    while n < |eligible| && !Within(limits, bytes, count, entries)
      invariant 0 <= n <= |eligible|
      invariant bytes == inventory.bytes + growth.bytes - Total(Size, eligible[..n])
      invariant count == |inventory.generations| + growth.generations - n && entries == inventory.entries + growth.entries - n
      invariant NoneBelow(inventory, eligible, limits, growth, n)
    {
      assert !Suffices(inventory, eligible, limits, growth, n);
      assert eligible[..n + 1][..n] == eligible[..n];
      PrefixTotal(eligible, n + 1);
      var lessBytes: nat, lessCount: nat, lessEntries: nat := bytes - Size(eligible[n]), count - 1, entries - 1;
      bytes, count, entries := lessBytes, lessCount, lessEntries;
      n := n + 1;
    }
    return if Within(limits, bytes, count, entries) then Some(n) else None;
  }

  /** Everything from position `from` on loads as one of two outcomes. */
  ghost predicate LoadsAs(f: Format, trace: seq<Disk>, from: nat, old0: LoadResult, new0: LoadResult) {
    forall i {:trigger trace[i]} | from <= i < |trace| :: Load(f, trace[i]) == old0 || Load(f, trace[i]) == new0
  }

  /** Room for the growth to come. */
  predicate Fits(limits: Limits, inventory: Inventory, growth: Growth) {
    Within(limits, inventory.bytes + growth.bytes, |inventory.generations| + growth.generations, inventory.entries + growth.entries)
  }

  /** Retention brings back no name. */
  lemma {:induction false} StillAbsent(f: Format, disk: Disk, n: nat, name: string)
    requires n <= |Eligible(InventoryOf(f, disk))| && Find(disk.generations, name).None?
    requires DistinctNames(disk.generations)
    ensures Find(WithoutFirst(f, disk, n).generations, name).None? && DistinctNames(WithoutFirst(f, disk, n).generations)
  {
    var eligible := Eligible(InventoryOf(f, disk));
    if n == 0 {
      assert eligible[..0] == [];
    } else {
      StillAbsent(f, disk, n - 1, name);
      assert eligible[..n][..n - 1] == eligible[..n - 1];
      RemoveKeeps(WithoutFirst(f, disk, n - 1).generations, eligible[n - 1].name, name);
    }
  }

  lemma {:induction false} RemoveKeeps(items: seq<Item>, gone: string, name: string)
    requires DistinctNames(items)
    ensures DistinctNames(Remove(items, gone))
    ensures Find(items, name).None? ==> Find(Remove(items, gone), name).None?
  {
    if items != [] && items[0].name != gone {
      RemoveKeeps(items[1..], gone, items[0].name);
      RemoveKeeps(items[1..], gone, name);
      assert Remove(items, gone)[1..] == Remove(items[1..], gone);
    }
  }

  lemma {:induction false} PutKeepsDistinct(items: seq<Item>, item: Item)
    requires DistinctNames(items)
    ensures DistinctNames(Put(items, item))
  {
    if items != [] {
      if items[0].name != item.name {
        PutKeepsDistinct(items[1..], item);
        FindPut(items[1..], item, items[0].name);
        assert Put(items, item)[1..] == Put(items[1..], item);
      } else {
        assert Put(items, item)[1..] == items[1..];
      }
    }
  }

  /** The two published files fit the room that was reserved for them. */
  lemma PublishedFits(f: Format, limits: Limits, disk: Disk, data: Item, pointer: Item)
    requires Find(disk.generations, data.name).None? && Fits(limits, InventoryOf(f, disk), Growth(Size(data) + Size(pointer), 1, 2))
    ensures Fits(limits, InventoryOf(f, Published(Published(disk, InGenerations, data), InRoot, pointer)), Growth(0, 0, 0))
  {
    PutCounts(disk.generations, data);
    PutCounts(disk.root, pointer);
  }

  class GenerationWriteSession {
    const f: Format
    const limits: Limits
    const fails: nat -> bool
    const temp: string
    var disk: Disk
    var step: nat
    ghost var trace: seq<Disk>

    /** A temporary name is never one that loading or retention looks at, nor one already there. */
    ghost predicate Valid()
      reads this
    {
      && DistinctNames(disk.generations) && !Managed(temp) && temp != CURRENT_FILE
      && Find(disk.generations, temp).None? && Find(disk.root, temp).None?
    }

    constructor (f: Format, limits: Limits, fails: nat -> bool, temp: string, disk: Disk)
      requires DistinctNames(disk.generations) && !Managed(temp) && temp != CURRENT_FILE
      requires Find(disk.generations, temp).None? && Find(disk.root, temp).None?
      ensures Valid() && this.f == f && this.limits == limits && this.disk == disk && trace == []
    {
      this.f, this.limits, this.fails, this.temp, this.disk := f, limits, fails, temp, disk;
      step, trace := 0, [];
    }

    /** Any native call may fail. */
    method Try() returns (works: bool)
      modifies this`step
    {
      works := !fails(step);
      step := step + 1;
    }

    /** `refresh`: refuses more entries than it may count. */
    method Refresh() returns (result: Result<Inventory, Error>)
      modifies this`step
      ensures result.Ok? ==> result.value == InventoryOf(f, disk) && result.value.entries <= limits.entries
    {
      var works := Try();
      if !works {
        return Err(Io);
      }
      var inventory := InventoryOf(f, disk);
      if inventory.entries > limits.entries {
        return Err(ResourceLimit);
      }
      if inventory.bytes >= TWO64 {
        return Err(Io);
      }
      return Ok(inventory);
    }

    /** Deletes the planned files one by one; a failure leaves a shorter run deleted. */
    method Evict(eligible: seq<Item>, needed: nat) returns (ok: bool, ghost removed: nat)
      requires Valid() && eligible == Eligible(InventoryOf(f, disk)) && needed <= |eligible|
      modifies this
      ensures removed <= needed && (ok ==> removed == needed)
      ensures disk == WithoutFirst(f, old(disk), removed)
      ensures old(trace) <= trace && LoadsAs(f, trace, |old(trace)|, Load(f, old(disk)), Load(f, old(disk)))
      ensures Load(f, disk) == Load(f, old(disk))
    {
      ghost var before := disk;
      assert eligible[..0] == [];
      var n := 0;
      while n < needed
        invariant 0 <= n <= needed && disk == WithoutFirst(f, before, n)
        invariant old(trace) <= trace && LoadsAs(f, trace, |old(trace)|, Load(f, before), Load(f, before))
      {
        var works := Try();
        if !works {
          RetentionKeepsLoad(f, before, n);
          return false, n;
        }
        assert eligible[..n + 1][..n] == eligible[..n];
        disk := disk.(generations := Remove(disk.generations, eligible[n].name));
        n := n + 1;
        RetentionKeepsLoad(f, before, n);
        trace := trace + [disk];
      }
      RetentionKeepsLoad(f, before, n);
      return true, n;
    }

    /** `prune`: on success the disk is within limits with the growth to come, and exactly the
        shortest sufficient run of eligible files, oldest first, is gone. If no run suffices
        nothing is gone; a failure part way leaves a shorter run removed. */
    method Prune(growth: Growth) returns (result: Result<(), Error>, ghost removed: nat)
      requires Valid()
      modifies this
      ensures removed <= |Eligible(InventoryOf(f, old(disk)))| && disk == WithoutFirst(f, old(disk), removed)
      ensures result.Ok? ==> Shortest(InventoryOf(f, old(disk)), Eligible(InventoryOf(f, old(disk))), limits, growth, removed)
      ensures result.Ok? ==> Fits(limits, InventoryOf(f, disk), growth)
      ensures var inventory := InventoryOf(f, old(disk));
              NoneBelow(inventory, Eligible(inventory), limits, growth, |Eligible(inventory)| + 1) ==> result.Err? && disk == old(disk)
      ensures old(trace) <= trace && LoadsAs(f, trace, |old(trace)|, Load(f, old(disk)), Load(f, old(disk)))
      ensures Load(f, disk) == Load(f, old(disk))
    {
      ghost var before := disk;
      removed := 0;
      var inventory := InventoryOf(f, disk);
      var eligible := Eligible(inventory);
      assert eligible[..0] == [];
      EligibleFacts(f, disk);
      var needed := Plan(inventory, eligible, limits, growth);
      if needed.None? {
        return Err(ResourceLimit), 0;
      }
      var ok;
      ok, removed := Evict(eligible, needed.value);
      if !ok {
        return Err(Io), removed;
      }
      RetentionTotals(f, before, removed);
      if needed.value == 0 {
        return Ok(()), removed;
      }
      var again := Refresh();
      if again.Err? {
        return Err(again.error), removed;
      }
      return if Fits(limits, again.value, growth) then Ok(()) else Err(ResourceLimit), removed;
    }

    /** Creates the temporary file or rewrites its contents, which loading never sees. */
    method WriteTemp(place: Place, content: Text, now: nat, ghost before: Disk) returns (ok: bool)
      requires !Managed(temp) && temp != CURRENT_FILE && Load(f, disk) == Load(f, before)
      requires WithTemp(disk, place, Item(temp, content, now)) == WithTemp(before, place, Item(temp, content, now))
      modifies this
      ensures disk == if ok then WithTemp(before, place, Item(temp, content, now)) else old(disk)
      ensures old(trace) <= trace && LoadsAs(f, trace, |old(trace)|, Load(f, before), Load(f, before))
      ensures Load(f, disk) == Load(f, before)
    {
      ok := Try();
      if !ok {
        return;
      }
      TempInvisible(f, before, place, Item(temp, content, now));
      disk := WithTemp(disk, place, Item(temp, content, now));
      trace := trace + [disk];
    }

    /** Moves the finished temporary file over `item`'s name. */
    method Rename(place: Place, item: Item, payload: Payload, now: nat, ghost before: Disk) returns (ok: bool)
      requires Lawful(f) && Prepared(f, payload) && !Managed(temp) && temp != CURRENT_FILE
      requires place.InGenerations? ==> item == GenerationItem(f, payload, now)
      requires place.InRoot? ==> item.name == CURRENT_FILE && Load(f, Published(before, InRoot, item)) == Hit(payload)
      requires Find(Files(before, place), temp).None? && disk == WithTemp(before, place, Item(temp, item.content, now))
      requires Load(f, disk) == Load(f, before)
      modifies this
      ensures disk == if ok then Published(before, place, item) else old(disk)
      ensures old(trace) <= trace && LoadsAs(f, trace, |old(trace)|, Load(f, before), Hit(payload))
      ensures Load(f, disk) == Load(f, before) || Load(f, disk) == Hit(payload)
      ensures ok ==> Find(Files(disk, place), temp).None?
    {
      ok := Try();
      if !ok {
        return;
      }
      RenameIsPublish(before, place, Item(temp, item.content, now), item);
      PublishedLoads(f, before, place, item, payload, now, temp);
      disk := WithFiles(disk, place, Put(Remove(Files(disk, place), temp), item));
      trace := trace + [disk];
    }

    /** `publish`: the temporary file appears, is written, and is renamed over `item`'s name. */
    method Publish(place: Place, item: Item, torn: Text, payload: Payload, now: nat) returns (ok: bool)
      requires Valid() && Lawful(f) && Prepared(f, payload)
      requires place.InGenerations? ==> item == GenerationItem(f, payload, now)
      requires place.InRoot? ==> item.name == CURRENT_FILE && Load(f, Published(disk, InRoot, item)) == Hit(payload)
      modifies this
      ensures ok ==> disk == Published(old(disk), place, item)
      ensures old(trace) <= trace && LoadsAs(f, trace, |old(trace)|, Load(f, old(disk)), Hit(payload))
      ensures Load(f, disk) == Load(f, old(disk)) || Load(f, disk) == Hit(payload)
      ensures ok ==> Find(Files(disk, place), temp).None? && Find(Files(disk, if place.InRoot? then InGenerations else InRoot), temp).None?
    {
      ghost var before := disk;
      ok := WriteTemp(place, torn, now, before);
      if !ok {
        return;
      }
      PutTwice(Files(before, place), Item(temp, torn, now), Item(temp, item.content, now));
      ok := WriteTemp(place, item.content, now, before);
      if !ok {
        return;
      }
      ok := Rename(place, item, payload, now, before);
    }

    /** `reserve`: the name must be new, and there must be room for old and new side by side. */
    method Reserve(name: string, bytes: nat) returns (result: Result<(), Error>)
      requires Valid()
      modifies this
      ensures old(trace) <= trace && LoadsAs(f, trace, |old(trace)|, Load(f, old(disk)), Load(f, old(disk)))
      ensures Load(f, disk) == Load(f, old(disk)) && disk.root == old(disk).root
      ensures result.Ok? ==> Valid() && Find(disk.generations, name).None? && Fits(limits, InventoryOf(f, disk), Growth(bytes, 1, 2))
    {
      var inventory := Refresh();
      if inventory.Err? {
        return Err(inventory.error);
      }
      if Find(disk.generations, name).Some? {
        return Err(Exists);
      }
      var works := Try();
      if !works {
        return Err(Io);
      }
      ghost var before, removed := disk, 0;
      result, removed := Prune(Growth(bytes, 1, 2));
      StillAbsent(f, before, removed, name);
      StillAbsent(f, before, removed, temp);
    }

    /** `write_generation`. A crash is any prefix of the trace: at every point the store loads what
        it loaded before or the complete new generation. A finished write loads back what was
        written, and the disk is within its limits. */
    method WriteGeneration(payload: Payload, torn: Text, now: nat) returns (result: Result<(), Error>)
      requires Valid() && Lawful(f)
      modifies this
      ensures old(trace) <= trace && LoadsAs(f, trace, |old(trace)|, Load(f, old(disk)), Hit(payload))
      ensures Load(f, disk) == Load(f, old(disk)) || Load(f, disk) == Hit(payload)
      ensures result.Ok? ==> Load(f, disk) == Hit(payload)
      ensures result.Ok? ==> Fits(limits, InventoryOf(f, disk), Growth(0, 0, 0))
    {
      if !Prepared(f, payload) {
        return Err(Invalid);
      }
      var data, pointer := GenerationItem(f, payload, now), PointerItem(f, payload, now);
      result := Reserve(data.name, Size(data) + Size(pointer));
      if result.Err? {
        return;
      }
      ghost var reserved := disk;
      var ok := Publish(InGenerations, data, torn, payload, now);
      if !ok {
        return Err(Io);
      }
      FileNamesManaged(payload.generation);
      PutKeepsDistinct(reserved.generations, data);
      PointerPublishedLoads(f, reserved, payload, now);
      ok := Publish(InRoot, pointer, torn, payload, now);
      if !ok {
        return Err(Io);
      }
      PublishedFits(f, limits, reserved, data, pointer);
      return Ok(());
    }
  }
}
