/** Accounting and admission for the shared state directory. */
module StateDirectory {
  import opened Wrappers
  import opened Bytes

  const BYTE_CAP: nat := 512 * 1024 * 1024
  const ENTRY_CAP: nat := 4090
  const RECORD_RESERVE_BYTES: nat := 32 * 1024 * 1024
  const RECORD_RESERVE_ENTRIES: nat := 8

  /** A directory entry: a file admitted with its length, a directory, or anything else. */
  datatype Node = File(bytes: nat) | Dir(entries: seq<Named>) | Refused

  datatype Named = Named(name: string, node: Node)

  datatype Usage = Usage(bytes: nat, entries: nat)

  datatype Error = StateBytes | StateEntries | Unsafe

  // ---- Known shapes ----

  datatype Layout = Root | Preview | Junk | Journals | Flat

  function Depth(layout: Layout): nat {
    match layout
    case Root => 2
    case Flat => 0
    case _ => 1
  }

  predicate JournalName(name: string) {
    |name| == 64 && forall c | c in name :: '0' <= c <= '9' || 'a' <= c <= 'f'
  }

  function KnownChild(names: seq<(string, Layout)>, name: string): Option<Layout> {
    if names == [] then None
    else if names[0].0 == name then Some(names[0].1)
    else KnownChild(names[1..], name)
  }

  const ROOT_NAMES := [("preview-cache", Preview), ("junk-cache", Junk), ("event-journals", Journals),
                       ("operations", Flat), ("audit", Flat), ("permanent-delete-audit", Flat),
                       ("selection", Flat), ("manifests", Flat), ("plans", Flat), ("cursors", Flat),
                       ("approval", Flat), ("recovery", Flat), ("spill", Flat)]
  const PREVIEW_NAMES := [("generations", Flat), ("quarantine", Flat)]
  const JUNK_NAMES := [("subtrees", Flat)]

  lemma {:induction false} KnownChildIn(names: seq<(string, Layout)>, name: string, limit: nat)
    requires forall k | 0 <= k < |names| :: Depth(names[k].1) < limit
    ensures KnownChild(names, name).Some? ==> Depth(KnownChild(names, name).value) < limit
  {
    if names != [] {
      KnownChildIn(names[1..], name, limit);
    }
  }

  /** `Layout::child`: the only directories that are walked. */
  function Child(layout: Layout, name: string): (child: Option<Layout>)
    ensures child.Some? ==> Depth(child.value) < Depth(layout)
  {
    match layout
    case Root => KnownChildIn(ROOT_NAMES, name, 2); KnownChild(ROOT_NAMES, name)
    case Preview => KnownChildIn(PREVIEW_NAMES, name, 1); KnownChild(PREVIEW_NAMES, name)
    case Junk => KnownChildIn(JUNK_NAMES, name, 1); KnownChild(JUNK_NAMES, name)
    case Journals => if JournalName(name) then Some(Flat) else None
    case Flat => None
  }

  /** A table of known directories, such as `Child`, whose layouts only get shallower. */
  type Shape = (Layout, string) -> Option<Layout>

  ghost predicate Layered(shape: Shape) {
    forall layout, name {:trigger shape(layout, name)} :: shape(layout, name).Some? ==> Depth(shape(layout, name).value) < Depth(layout)
  }

  lemma ChildLayered()
    ensures Layered(Child)
  {
  }

  // ---- What the walk should find ----

  /** Known directories are directories of admitted shape; everything else is a plain file. */
  ghost predicate Admitted(shape: Shape, entries: seq<Named>, layout: Layout)
    requires Layered(shape)
    decreases Depth(layout), |entries|
  {
    entries == []
    || (Admitted(shape, entries[..|entries| - 1], layout) && AdmittedOne(shape, entries[|entries| - 1], layout))
  }

  ghost predicate AdmittedOne(shape: Shape, named: Named, layout: Layout)
    requires Layered(shape)
    decreases Depth(layout), 0
  {
    match shape(layout, named.name)
    case Some(child) => named.node.Dir? && Admitted(shape, named.node.entries, child)
    case None => named.node.File?
  }

  /** One name each, and file lengths, over the whole admitted tree. */
  ghost function Sum(shape: Shape, entries: seq<Named>, layout: Layout): Usage
    requires Layered(shape)
    decreases Depth(layout), |entries|
  {
    if entries == [] then Usage(0, 0)
    else Plus(Sum(shape, entries[..|entries| - 1], layout), SumOne(shape, entries[|entries| - 1], layout))
  }

  ghost function SumOne(shape: Shape, named: Named, layout: Layout): Usage
    requires Layered(shape)
    decreases Depth(layout), 0
  {
    match shape(layout, named.name)
    case Some(child) => Plus(Usage(0, 1), if named.node.Dir? then Sum(shape, named.node.entries, child) else Usage(0, 0))
    case None => Usage(if named.node.File? then named.node.bytes else 0, 1)
  }

  function Plus(a: Usage, b: Usage): Usage {
    Usage(a.bytes + b.bytes, a.entries + b.entries)
  }

  lemma {:induction false} SumGrows(shape: Shape, entries: seq<Named>, layout: Layout, k: nat)
    requires Layered(shape)
    requires k <= |entries|
    ensures Sum(shape, entries[..k], layout).bytes <= Sum(shape, entries, layout).bytes && Sum(shape, entries[..k], layout).entries <= Sum(shape, entries, layout).entries
    ensures Admitted(shape, entries, layout) ==> Admitted(shape, entries[..k], layout)
    decreases |entries|
  {
    if k == |entries| {
      assert entries[..k] == entries;
    } else {
      assert entries[..|entries| - 1][..k] == entries[..k];
      SumGrows(shape, entries[..|entries| - 1], layout, k);
    }
  }

  /** Room left for everything a walk will add. */
  predicate Room(start: Usage, more: Usage) {
    start.entries + more.entries <= ENTRY_CAP && start.bytes + more.bytes < TWO64
  }

  /** A walk from `start` can go through all of it. */
  ghost predicate Walks(shape: Shape, entries: seq<Named>, layout: Layout, start: Usage)
    requires Layered(shape)
  {
    Admitted(shape, entries, layout) && Room(start, Sum(shape, entries, layout))
  }

  lemma RoomSplits(start: Usage, first: Usage, next: Usage)
    ensures Room(start, Plus(first, next)) <==> Room(start, first) && Room(Plus(start, first), next)
    ensures Plus(start, Plus(first, next)) == Plus(Plus(start, first), next)
  {
  }

  lemma SumNext(shape: Shape, entries: seq<Named>, layout: Layout, k: nat)
    requires Layered(shape) && k < |entries|
    ensures Sum(shape, entries[..k + 1], layout) == Plus(Sum(shape, entries[..k], layout), SumOne(shape, entries[k], layout))
    ensures Admitted(shape, entries[..k + 1], layout) <==> Admitted(shape, entries[..k], layout) && AdmittedOne(shape, entries[k], layout)
  {
    assert entries[..k + 1][..k] == entries[..k];
  }

  /** One entry further. */
  lemma WalksOne(shape: Shape, entries: seq<Named>, layout: Layout, start: Usage, k: nat)
    requires Layered(shape) && k < |entries|
    ensures Walks(shape, entries[..k + 1], layout, start) <==>
            Walks(shape, entries[..k], layout, start) && AdmittedOne(shape, entries[k], layout)
            && Room(Plus(start, Sum(shape, entries[..k], layout)), SumOne(shape, entries[k], layout))
    ensures Plus(start, Sum(shape, entries[..k + 1], layout)) == Plus(Plus(start, Sum(shape, entries[..k], layout)), SumOne(shape, entries[k], layout))
    ensures Walks(shape, entries, layout, start) ==> Walks(shape, entries[..k + 1], layout, start)
  {
    SumNext(shape, entries, layout, k);
    RoomSplits(start, Sum(shape, entries[..k], layout), SumOne(shape, entries[k], layout));
    SumGrows(shape, entries, layout, k + 1);
  }

  /** `walk`: succeeds exactly when the tree has the admitted shape and fits, and then has added
      exactly its recursive sum. */
  method Walk(shape: Shape, entries: seq<Named>, layout: Layout, start: Usage) returns (result: Result<Usage, Error>)
    requires Layered(shape)
    requires start.entries <= ENTRY_CAP && start.bytes < TWO64
    ensures result.Ok? <==> Walks(shape, entries, layout, start)
    ensures result.Ok? ==> result.value == Plus(start, Sum(shape, entries, layout))
    decreases Depth(layout), 1
  {
    var usage := start;
    for k := 0 to |entries|
      invariant Walks(shape, entries[..k], layout, start) && usage == Plus(start, Sum(shape, entries[..k], layout))
    {
      WalksOne(shape, entries, layout, start, k);
      var next := WalkEntry(shape, entries[k], layout, usage);
      if next.Err? {
        return next;
      }
      usage := next.value;
    }
    assert entries[..|entries|] == entries;
    return Ok(usage);
  }

  /** What one entry comes to, told apart by whether its name is a known directory. */
  lemma EntryCost(shape: Shape, named: Named, layout: Layout, start: Usage)
    requires Layered(shape)
    ensures var child, charged := shape(layout, named.name), Plus(start, Usage(0, 1));
            if child.Some? then
              (AdmittedOne(shape, named, layout) <==> named.node.Dir? && Admitted(shape, named.node.entries, child.value))
              && (named.node.Dir? ==>
                    Plus(start, SumOne(shape, named, layout)) == Plus(charged, Sum(shape, named.node.entries, child.value))
                    && (Room(start, SumOne(shape, named, layout)) <==> Room(charged, Sum(shape, named.node.entries, child.value))))
            else
              (AdmittedOne(shape, named, layout) <==> named.node.File?)
              && (named.node.File? ==> SumOne(shape, named, layout) == Usage(named.node.bytes, 1))
    ensures SumOne(shape, named, layout).entries >= 1
  {
  }

  /** The callback for one entry: it is charged before anything about it is known. */
  method WalkEntry(shape: Shape, named: Named, layout: Layout, start: Usage) returns (result: Result<Usage, Error>)
    requires Layered(shape)
    requires start.entries <= ENTRY_CAP && start.bytes < TWO64
    ensures result.Ok? <==> AdmittedOne(shape, named, layout) && Room(start, SumOne(shape, named, layout))
    ensures result.Ok? ==> result.value == Plus(start, SumOne(shape, named, layout))
    decreases Depth(layout), 0
  {
    EntryCost(shape, named, layout, start);
    if start.entries == ENTRY_CAP {
      return Err(StateEntries);
    }
    var usage := start.(entries := start.entries + 1);
    var child := shape(layout, named.name);
    if child.Some? {
      if !named.node.Dir? {
        return Err(Unsafe);
      }
      result := Walk(shape, named.node.entries, child.value, usage);
    } else {
      if !named.node.File? {
        return Err(Unsafe);
      }
      if usage.bytes + named.node.bytes >= TWO64 {
        return Err(StateBytes);
      }
      result := Ok(usage.(bytes := usage.bytes + named.node.bytes));
    }
  }

  // ---- Sessions ----

  /** The whole state directory under the shipped shape. */
  ghost predicate RootOk(root: seq<Named>) {
    ChildLayered();
    Admitted(Child, root, Root)
  }

  ghost function UsageOf(root: seq<Named>): Usage {
    ChildLayered();
    Sum(Child, root, Root)
  }

  ghost predicate Walkable(root: seq<Named>) {
    RootOk(root) && Room(Usage(0, 0), UsageOf(root))
  }

  /** Room for a reservation on top of what is there. */
  predicate Fits(usage: Usage, bytes: nat, entries: nat) {
    usage.bytes + bytes <= BYTE_CAP && usage.entries + entries <= ENTRY_CAP
  }

  /** One session's write: what it reserves, and the directory its writer leaves behind. */
  datatype Write = Write(disposable: bool, bytes: nat, entries: nat, after: seq<Named>)

  /** What a reservation asks room for: disposable writes leave the record reserve free. */
  function Asked(w: Write): (usage: Usage)
    ensures usage.bytes >= w.bytes && usage.entries >= w.entries
  {
    if w.disposable then Usage(w.bytes + RECORD_RESERVE_BYTES, w.entries + RECORD_RESERVE_ENTRIES) else Usage(w.bytes, w.entries)
  }

  /** The writer adds no more than it reserved. */
  ghost predicate Honours(root: seq<Named>, w: Write) {
    && UsageOf(w.after).bytes <= UsageOf(root).bytes + w.bytes
    && UsageOf(w.after).entries <= UsageOf(root).entries + w.entries
  }

  /** Exclusive use of the state directory; `usage` is the last complete observation. */
  class StateWriteSession {
    var root: seq<Named>
    var usage: Usage

    ghost predicate Valid()
      reads this
    {
      RootOk(root) && usage == UsageOf(root)
    }

    constructor (root: seq<Named>)
      ensures this.root == root
    {
      this.root, usage := root, Usage(0, 0);
    }

    /** `reserve_inner`: observes again, then admits or refuses; nothing is written. */
    method Reserve(bytes: nat, entries: nat) returns (result: Result<(), Error>)
      modifies this`usage
      ensures result.Ok? <==> Walkable(root) && Fits(UsageOf(root), bytes, entries)
      ensures result.Ok? ==> Valid()
    {
      ChildLayered();
      var observed := Walk(Child, root, Root, Usage(0, 0));
      assert Plus(Usage(0, 0), UsageOf(root)) == UsageOf(root);
      if observed.Err? {
        return Err(observed.error);
      }
      usage := observed.value;
      if usage.bytes + bytes > BYTE_CAP {
        return Err(StateBytes);
      }
      if usage.entries + entries > ENTRY_CAP {
        return Err(StateEntries);
      }
      return Ok(());
    }

    /** `reserve_disposable`: the record reserve comes out of the same caps. */
    method ReserveDisposable(bytes: nat, entries: nat) returns (result: Result<(), Error>)
      modifies this`usage
      ensures result.Ok? <==>
                Walkable(root) && Fits(UsageOf(root), bytes + RECORD_RESERVE_BYTES, entries + RECORD_RESERVE_ENTRIES)
      ensures result.Ok? ==> Valid()
    {
      result := Reserve(bytes + RECORD_RESERVE_BYTES, entries + RECORD_RESERVE_ENTRIES);
    }

    /** A session: reserve, then let the writer write. */
    method Session(w: Write) returns (admitted: bool)
      modifies this
      ensures admitted <==> Walkable(old(root)) && Fits(UsageOf(old(root)), Asked(w).bytes, Asked(w).entries)
      ensures root == if admitted then w.after else old(root)
    {
      var reserved;
      if w.disposable {
        reserved := ReserveDisposable(w.bytes, w.entries);
      } else {
        reserved := Reserve(w.bytes, w.entries);
      }
      admitted := reserved.Ok?;
      if admitted {
        root := w.after;
      }
    }
  }

  // ---- Any sequence of sessions ----

  /** What one session found, was asked, answered and left. */
  datatype Step = Step(before: seq<Named>, write: Write, admitted: bool, after: seq<Named>)

  function Left(root: seq<Named>, history: seq<Step>): seq<Named> {
    if history == [] then root else history[|history| - 1].after
  }

  ghost predicate Ran(s: Step) {
    && (s.admitted <==> Walkable(s.before) && Fits(UsageOf(s.before), Asked(s.write).bytes, Asked(s.write).entries))
    && s.after == if s.admitted then s.write.after else s.before
  }

  /** Sessions one after another on one directory. */
  ghost predicate Chained(root: seq<Named>, history: seq<Step>) {
    history == []
    || (var n := |history| - 1;
        Chained(root, history[..n]) && history[n].before == Left(root, history[..n]) && Ran(history[n]))
  }

  function Writes(history: seq<Step>): seq<Write> {
    if history == [] then [] else Writes(history[..|history| - 1]) + [history[|history| - 1].write]
  }

  /** Any sequence of sessions, each with its own reservation. */
  method RunSessions(root: seq<Named>, writes: seq<Write>) returns (history: seq<Step>)
    ensures Chained(root, history) && Writes(history) == writes
  {
    history := [];
    var session := new StateWriteSession(root);
    for n := 0 to |writes|
      invariant Chained(root, history) && Writes(history) == writes[..n] && session.root == Left(root, history)
    {
      var before := session.root;
      var admitted := session.Session(writes[n]);
      var step := Step(before, writes[n], admitted, session.root);
      assert (history + [step])[..|history|] == history;
      assert writes[..n + 1] == writes[..n] + [writes[n]];
      history := history + [step];
    }
    assert writes[..|writes|] == writes;
  }

  ghost predicate Keeps(s: Step) {
    Honours(s.before, s.write)
  }

  /** The caps hold, and the record reserve is free if a disposable write was let in. */
  ghost predicate CapsAfter(s: Step) {
    && Fits(UsageOf(s.after), 0, 0)
    && (s.admitted && s.write.disposable ==> Fits(UsageOf(s.after), RECORD_RESERVE_BYTES, RECORD_RESERVE_ENTRIES))
  }

  /** As long as every writer keeps to what it reserved, the caps hold after every session, and an
      admitted disposable write leaves the record reserve. */
  lemma {:induction false} CapsHold(root: seq<Named>, history: seq<Step>, k: nat)
    requires Fits(UsageOf(root), 0, 0) && Chained(root, history) && k < |history|
    requires forall j {:trigger history[j]} | 0 <= j <= k :: Keeps(history[j])
    ensures CapsAfter(history[k])
  {
    var n := |history| - 1;
    if k < n {
      CapsHold(root, history[..n], k);
    } else if n > 0 {
      assert forall j | 0 <= j < n :: history[..n][j] == history[j];
      CapsHold(root, history[..n], n - 1);
      assert history[n].before == history[n - 1].after;
      StepKeepsCaps(history[n]);
    } else {
      StepKeepsCaps(history[n]);
    }
  }

  lemma StepKeepsCaps(s: Step)
    requires Ran(s) && Keeps(s) && Fits(UsageOf(s.before), 0, 0)
    ensures CapsAfter(s)
  {
  }

  /** Records can always use the headroom: a record write within it, following an admitted
      disposable write whose writer kept to its reservation, is admitted. */
  lemma RecordsFit(disposable: Step, record: Step)
    requires Ran(disposable) && disposable.admitted && disposable.write.disposable && Keeps(disposable)
    requires Ran(record) && record.before == disposable.after && RootOk(record.before)
    requires !record.write.disposable
    requires record.write.bytes <= RECORD_RESERVE_BYTES && record.write.entries <= RECORD_RESERVE_ENTRIES
    ensures record.admitted
  {
  }
}
