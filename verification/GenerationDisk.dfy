/** The preview cache on disk: what loading it finds, and what maintenance may touch. */
module GenerationDisk {
  import opened Wrappers
  import opened Bytes
  import opened Sorting
  import opened Totals

  const MAX_GENERATION_ID_BYTES: nat := 128
  const CURRENT_FILE := "current.json"

  /** A regular file; `accessed` is its access time. */
  datatype Item = Item(name: string, content: Text, accessed: nat)

  /** The cache root's files and its two flat child directories, in enumeration order. */
  datatype Disk = Disk(root: seq<Item>, generations: seq<Item>, quarantine: Option<seq<Item>>)

  datatype Payload = Payload(generation: string, body: Text)

  datatype Envelope = Envelope(generation: string, checksum: Text, payload: Payload)

  datatype Parsed = TooCostly | Malformed | Parsed(envelope: Envelope)

  /** The JSON encodings, the payload checks, and the size limits. */
  datatype Format = Format(parsePointer: Text -> Option<string>, encodePointer: string -> Text,
                           parseEnvelope: Text -> Parsed, encodeEnvelope: Envelope -> Text,
                           checksum: Payload -> Text, healthy: Payload -> bool, admits: Payload -> bool,
                           pointerLimit: nat, generationLimit: nat)

  predicate IdByte(c: char) {
    '0' <= c <= '9' || 'A' <= c <= 'Z' || 'a' <= c <= 'z' || c == '-' || c == '_'
  }

  /** `validate_generation_id`. */
  predicate ValidId(id: string) {
    0 < |id| <= MAX_GENERATION_ID_BYTES && forall c | c in id :: IdByte(c)
  }

  function FileName(id: string): string {
    id + ".json"
  }

  /** The encodings round-trip for what writers admit. */
  ghost predicate Lawful(f: Format) {
    && (forall id {:trigger f.encodePointer(id)} | ValidId(id) ::
          f.parsePointer(f.encodePointer(id)) == Some(id) && |f.encodePointer(id)| <= f.pointerLimit)
    && (forall e: Envelope {:trigger f.encodeEnvelope(e)} | f.admits(e.payload) :: f.parseEnvelope(f.encodeEnvelope(e)) == Parsed(e))
  }

  function Find(items: seq<Item>, name: string): Option<Item> {
    if items == [] then None
    else if items[0].name == name then Some(items[0])
    else Find(items[1..], name)
  }

  // ---- Loading ----

  datatype LoadResult = Hit(payload: Payload) | Miss | Refused | Quarantined

  /** `load_from_directory`, up to copying corrupt bytes aside. */
  function Load(f: Format, disk: Disk): LoadResult {
    match Find(disk.root, CURRENT_FILE)
    case None => Miss
    case Some(pointer) =>
      if |pointer.content| > f.pointerLimit then Refused
      else match f.parsePointer(pointer.content)
        case None => Quarantined
        case Some(id) =>
          if !ValidId(id) then Refused
          else LoadGeneration(f, disk.generations, id)
  }

  function LoadGeneration(f: Format, generations: seq<Item>, id: string): LoadResult {
    match Find(generations, FileName(id))
    case None => Miss
    case Some(file) =>
      if |file.content| > f.generationLimit then Refused
      else match f.parseEnvelope(file.content)
        case TooCostly => Refused
        case Malformed => Miss
        case Parsed(e) =>
          if f.checksum(e.payload) != e.checksum || id != e.generation || e.generation != e.payload.generation then Miss
          else if !f.healthy(e.payload) then Miss
          else Hit(e.payload)
  }

  // ---- Inventory ----

  /** `current`: unknown pointer, no pointer, or the current generation's file name. */
  datatype Inventory = Inventory(entries: nat, bytes: nat, generations: seq<Item>, current: Option<Option<string>>)

  datatype Limits = Limits(entries: nat, generations: nat, bytes: nat)

  function Size(item: Item): nat {
    |item.content|
  }

  predicate Managed(name: string) {
    |name| >= 5 && name[|name| - 5..] == ".json" && ValidId(name[..|name| - 5])
  }

  function ManagedOf(items: seq<Item>): seq<Item> {
    if items == [] then []
    else
      var n := |items| - 1;
      ManagedOf(items[..n]) + if Managed(items[n].name) then [items[n]] else []
  }

  function Current(f: Format, root: seq<Item>): Option<Option<string>> {
    match Find(root, CURRENT_FILE)
    case None => Some(None)
    case Some(pointer) =>
      if |pointer.content| > f.pointerLimit then None
      else match f.parsePointer(pointer.content)
        case None => None
        case Some(id) => if ValidId(id) then Some(Some(FileName(id))) else None
  }

  function Entries(disk: Disk): nat {
    |disk.root| + 1 + |disk.generations| + if disk.quarantine.Some? then 1 + |disk.quarantine.value| else 0
  }

  function TotalBytes(disk: Disk): nat {
    Total(Size, disk.root) + Total(Size, disk.generations)
    + if disk.quarantine.Some? then Total(Size, disk.quarantine.value) else 0
  }

  function InventoryOf(f: Format, disk: Disk): Inventory {
    Inventory(Entries(disk), TotalBytes(disk), ManagedOf(disk.generations), Current(f, disk.root))
  }

  // ---- Planning retention ----

  predicate Older(a: Item, b: Item) {
    a.accessed < b.accessed || (a.accessed == b.accessed && CompareText(a.name, b.name).Less?)
  }

  /** Managed generations that may go: none while the pointer is unknown, never the current one. */
  predicate Evictable(current: Option<Option<string>>, item: Item) {
    current.Some? && current.value != Some(item.name)
  }

  function EvictablesOf(current: Option<Option<string>>, items: seq<Item>): seq<Item> {
    if items == [] then []
    else
      var n := |items| - 1;
      EvictablesOf(current, items[..n]) + if Evictable(current, items[n]) then [items[n]] else []
  }

  /** Least recently used first, ties by name. */
  function Eligible(inventory: Inventory): seq<Item> {
    Sort(Older, EvictablesOf(inventory.current, inventory.generations))
  }

  datatype Growth = Growth(bytes: nat, generations: nat, entries: nat)

  predicate Within(limits: Limits, bytes: int, generations: int, entries: int) {
    bytes <= limits.bytes && generations <= limits.generations && entries <= limits.entries
  }

  /** Removing the first `n` of the eligible files makes room. */
  predicate Suffices(inventory: Inventory, eligible: seq<Item>, limits: Limits, growth: Growth, n: nat)
    requires n <= |eligible|
  {
    Within(limits, inventory.bytes + growth.bytes - Total(Size, eligible[..n]),
           |inventory.generations| + growth.generations - n, inventory.entries + growth.entries - n)
  }

  lemma OlderOrders()
    ensures StrictWeakOrder(Older)
  {
    forall x ensures !Older(x, x) {
      CompareTextFlips(x.name, x.name);
    }
    forall x, y, z | Older(x, y) && Older(y, z) ensures Older(x, z) {
      if x.accessed == y.accessed == z.accessed {
        CompareTextTransitive(x.name, y.name, z.name);
      }
    }
    forall x, y, z | Older(x, y) ensures Older(x, z) || Older(z, y) {
      if x.accessed == y.accessed == z.accessed {
        CompareTextFlips(x.name, z.name);
        CompareTextFlips(z.name, y.name);
        CompareTextFlips(x.name, y.name);
        if CompareText(z.name, x.name).Less? && CompareText(y.name, z.name).Less? {
          CompareTextTransitive(y.name, z.name, x.name);
        }
      }
    }
  }

  lemma {:induction false} EvictablesTotal(current: Option<Option<string>>, items: seq<Item>)
    ensures Total(Size, EvictablesOf(current, items)) <= Total(Size, items) && |EvictablesOf(current, items)| <= |items|
    ensures forall x | x in EvictablesOf(current, items) :: x in items && Evictable(current, x)
  {
    if items != [] {
      var n := |items| - 1;
      EvictablesTotal(current, items[..n]);
      TotalConcat(Size, EvictablesOf(current, items[..n]), [items[n]]);
      TotalOne(Size, items[n]);
      assert EvictablesOf(current, items[..n]) + [] == EvictablesOf(current, items[..n]);
    }
  }

  lemma {:induction false} ManagedTotal(items: seq<Item>)
    ensures Total(Size, ManagedOf(items)) <= Total(Size, items) && |ManagedOf(items)| <= |items|
    ensures forall x | x in ManagedOf(items) :: x in items && Managed(x.name)
  {
    if items != [] {
      var n := |items| - 1;
      ManagedTotal(items[..n]);
      TotalConcat(Size, ManagedOf(items[..n]), [items[n]]);
      TotalOne(Size, items[n]);
      assert ManagedOf(items[..n]) + [] == ManagedOf(items[..n]);
    }
  }

  lemma {:induction false} PrefixTotal(items: seq<Item>, n: nat)
    requires n <= |items|
    ensures Total(Size, items[..n]) <= Total(Size, items)
  {
    TotalConcat(Size, items[..n], items[n..]);
    assert items == items[..n] + items[n..];
  }

  /** Eligible files are managed, evictable and part of the inventory's totals. */
  lemma EligibleFacts(f: Format, disk: Disk)
    ensures var inventory := InventoryOf(f, disk);
            && Sorted(Older, Eligible(inventory))
            && (forall x | x in Eligible(inventory) :: x in disk.generations && Managed(x.name) && Evictable(inventory.current, x))
            && |Eligible(inventory)| <= |inventory.generations| <= inventory.entries
            && Total(Size, Eligible(inventory)) <= inventory.bytes
  {
    var inventory := InventoryOf(f, disk);
    var evictables := EvictablesOf(inventory.current, inventory.generations);
    OlderOrders();
    SortSorts(Older, evictables);
    TotalSort(Size, Older, evictables);
    EvictablesTotal(inventory.current, inventory.generations);
    ManagedTotal(disk.generations);
    forall x | x in Eligible(inventory) ensures x in evictables {
      assert x in multiset(Eligible(inventory));
    }
  }
}
