/** The hash-chained journal: row digests, chain verification, and the whole-store check. */
module AuditJournal {
  import opened Bytes
  import opened Wrappers
  import opened AuditModel
  import opened AuditReplay

  /** SHA-256, canonical JSON and the outcome shape check as parameters; nothing is assumed of
      the hash or of the shape check. */
  datatype Primitives = Primitives(hash: Text -> Text, encode: Event -> Text, decode: Text -> Option<Event>,
                                   shape: (RequestedMode, Report) -> bool)

  /** Canonical JSON reads back what it wrote. */
  ghost predicate Lawful(p: Primitives) {
    forall e :: p.decode(p.encode(e)) == Some(e)
  }

  datatype Row = Row(sequence: int, recordedAt: int, monotonic: Text, kind: Text,
                     authorizationId: Option<Id>, actionId: Option<Id>, attemptId: Option<Id>,
                     previous: Option<Text>, payload: Text, digest: Text)

  datatype Store = Store(databaseId: Text, tables: Tables, items: set<(Id, Id)>, actions: map<(Id, Id), (Id, RiskTier)>,
                         journal: seq<Row>, headSequence: int, headDigest: Option<Text>)

  /** A freshly initialised database. */
  function NewStore(databaseId: Text): Store {
    Store(databaseId, EmptyTables, {}, map[], [], 0, None)
  }

  function OrEmpty(t: Option<Text>): Text {
    match t case Some(v) => v case None => []
  }

  /** The nine fields committed into a row's digest, in hashing order. */
  function Fields(r: Row): seq<Text> {
    [Word(r.sequence), Word(r.recordedAt), r.monotonic, r.kind, OrEmpty(r.authorizationId),
     OrEmpty(r.actionId), OrEmpty(r.attemptId), OrEmpty(r.previous), r.payload]
  }

  function Domain(): Text {
    Ascii("SweepX SQLite audit event v1\0")
  }

  function Preimage(r: Row): Text {
    Domain() + Parts(Fields(r))
  }

  function Digest(hash: Text -> Text, r: Row): (d: Text)
    ensures d != []
  {
    Ascii("sha256:") + Hex(hash(Preimage(r)))
  }

  /** The event a stored row proves, given its place in the chain; None is a tampered row. */
  function CheckRow(p: Primitives, expected: int, previous: Option<Text>, r: Row): Option<Event> {
    if r.sequence != expected || r.previous != previous then None
    else match p.decode(r.payload)
      case None => None
      case Some(e) =>
        if p.encode(e) != r.payload || Kind(e) != r.kind
           || IndexedIds(e) != (r.authorizationId, r.actionId, r.attemptId)
           || r.digest != Digest(p.hash, r) then None
        else Some(e)
  }

  datatype Replayed = Replayed(tables: Tables, head: Option<Text>)

  /** Verifies and replays a journal from empty tables. */
  function ReplayRows(p: Primitives, rows: seq<Row>): Option<Replayed> {
    if rows == [] then Some(Replayed(EmptyTables, None))
    else
      var n := |rows| - 1;
      match ReplayRows(p, rows[..n])
      case None => None
      case Some(before) => ReplayRow(p, n, before, rows[n])
  }

  function ReplayRow(p: Primitives, done: nat, before: Replayed, r: Row): Option<Replayed> {
    match CheckRow(p, done + 1, before.head, r)
    case None => None
    case Some(e) =>
      match ApplyEvent(before.tables, e)
      case None => None
      case Some(after) => Some(Replayed(after, Some(r.digest)))
  }

  /** `replay_projection`: one forward pass that checks the chain and fills the projection. */
  method ReplayProjection(p: Primitives, store: Store) returns (result: Option<Tables>)
    ensures result ==
      match ReplayRows(p, store.journal)
      case None => None
      case Some(end) => if store.headSequence == |store.journal| && store.headDigest == end.head then Some(end.tables) else None
  {
    var replayed := new ReplayedProjection();
    var previous: Option<Text> := None;
    var expected := 1;
    while expected <= |store.journal|
      invariant 1 <= expected <= |store.journal| + 1
      invariant ReplayRows(p, store.journal[..expected - 1]) == Some(Replayed(replayed.Contents(), previous))
    {
      ReplayNext(p, store.journal, expected - 1);
      var row := store.journal[expected - 1];
      match CheckRow(p, expected, previous, row) {
        case None =>
          RefusedPrefix(p, store.journal, expected);
          return None;
        case Some(event) =>
          var ok := replayed.ReplayEvent(event);
          if !ok {
            RefusedPrefix(p, store.journal, expected);
            return None;
          }
      }
      previous := Some(row.digest);
      expected := expected + 1;
    }
    assert store.journal[..expected - 1] == store.journal;
    if store.headSequence != expected - 1 || store.headDigest != previous {
      return None;
    }
    return Some(replayed.Contents());
  }

  /** One row further. */
  lemma ReplayNext(p: Primitives, rows: seq<Row>, k: nat)
    requires k < |rows| && ReplayRows(p, rows[..k]).Some?
    ensures ReplayRows(p, rows[..k + 1]) == ReplayRow(p, k, ReplayRows(p, rows[..k]).value, rows[k])
  {
    assert rows[..k + 1][..k] == rows[..k];
  }

  /** A journal with a refused prefix is refused. */
  lemma {:induction false} RefusedPrefix(p: Primitives, rows: seq<Row>, n: nat)
    requires n <= |rows| && ReplayRows(p, rows[..n]).None?
    ensures ReplayRows(p, rows).None?
  {
    if n == |rows| {
      assert rows[..n] == rows;
    } else {
      var shorter := rows[..|rows| - 1];
      assert shorter[..n] == rows[..n];
      RefusedPrefix(p, shorter, n);
    }
  }

  predicate DetailRowsMatch(store: Store, auth: Id, b: Binding) {
    && (forall item | item in b.itemIds :: (auth, item) in store.items)
    && (forall pair | pair in store.items :: pair.0 == auth ==> pair.1 in b.itemIds)
    && (forall action | action in b.actionIds ::
          && (auth, action) in store.actions
          && action in b.itemByAction && action in b.riskByAction
          && store.actions[(auth, action)] == (b.itemByAction[action], b.riskByAction[action]))
    && (forall pair | pair in store.actions :: pair.0 == auth ==> pair.1 in b.actionIds)
  }

  /** `verify_database`: an intact chain, equal tables, and exact item and action rows. */
  predicate VerifyDatabase(p: Primitives, store: Store) {
    match ReplayRows(p, store.journal)
    case None => false
    case Some(end) =>
      && store.headSequence == |store.journal|
      && store.headDigest == end.head
      && store.tables == end.tables
      && forall a | a in store.tables.auths :: DetailRowsMatch(store, store.tables.auths[a].binding.authorizationId, store.tables.auths[a].binding)
  }

  /** The row `append_event` writes behind the current head. */
  function NextRow(p: Primitives, store: Store, e: Event, recordedAt: int, monotonic: Text): Row {
    var (auth, action, attempt) := IndexedIds(e);
    var r := Row(store.headSequence + 1, recordedAt, monotonic, Kind(e), auth, action, attempt,
                 store.headDigest, p.encode(e), []);
    r.(digest := Digest(p.hash, r))
  }

  function AppendRow(store: Store, r: Row): Store {
    store.(journal := store.journal + [r], headSequence := r.sequence, headDigest := Some(r.digest))
  }

  /** The chain accepts the row `append_event` writes, and replays its event. */
  lemma AppendReplays(p: Primitives, store: Store, e: Event, recordedAt: int, monotonic: Text)
    requires Lawful(p)
    requires ReplayRows(p, store.journal).Some?
    requires store.headSequence == |store.journal|
    requires ReplayRows(p, store.journal).value.head == store.headDigest
    ensures var r := NextRow(p, store, e, recordedAt, monotonic);
            var before := ReplayRows(p, store.journal).value.tables;
            ReplayRows(p, store.journal + [r]) ==
            match ApplyEvent(before, e)
            case None => None
            case Some(after) => Some(Replayed(after, Some(r.digest)))
  {
    var r := NextRow(p, store, e, recordedAt, monotonic);
    assert (store.journal + [r])[..|store.journal|] == store.journal;
    assert Fields(r) == Fields(r.(digest := []));
  }

  // ---- The chain admits one history per head ----

  /** What Rust's types guarantee of a stored row. */
  predicate Storable(r: Row) {
    && 0 <= r.sequence < TWO64
    && -0x8000_0000_0000_0000 <= r.recordedAt <= I64_MAX
    && forall t | t in Fields(r) :: |t| < TWO64
  }

  ghost predicate Collision(hash: Text -> Text, r: Row, s: Row) {
    Preimage(r) != Preimage(s) && hash(Preimage(r)) == hash(Preimage(s))
  }

  ghost predicate CollisionBetween(hash: Text -> Text, rows: seq<Row>, others: seq<Row>) {
    exists i, j :: 0 <= i < |rows| && 0 <= j < |others| && Collision(hash, rows[i], others[j])
  }

  /** Equal hashed envelopes come from equal fields. */
  lemma FieldsFromPreimage(f: seq<Text>, g: seq<Text>, domain: Text)
    requires |f| == |g|
    requires forall t | t in f :: |t| < TWO64
    requires forall t | t in g :: |t| < TWO64
    requires domain + Parts(f) == domain + Parts(g)
    ensures f == g
  {
    PrefixCancels(domain, Parts(f), domain, Parts(g));
    PartsInjective(f, g);
  }

  /** The two numbers of a row can be read back from their words. */
  lemma SameNumbers(r: Row, s: Row)
    requires Storable(r) && Storable(s)
    requires Word(r.sequence) == Word(s.sequence) && Word(r.recordedAt) == Word(s.recordedAt)
    ensures r.sequence == s.sequence && r.recordedAt == s.recordedAt
  {
    WordInjective(r.sequence, s.sequence);
    WordInjective(r.recordedAt, s.recordedAt);
  }

  lemma SameFields(r: Row, s: Row)
    requires Fields(r) == Fields(s)
    ensures Word(r.sequence) == Word(s.sequence) && Word(r.recordedAt) == Word(s.recordedAt)
    ensures r.monotonic == s.monotonic && r.kind == s.kind && r.payload == s.payload
    ensures OrEmpty(r.authorizationId) == OrEmpty(s.authorizationId) && OrEmpty(r.actionId) == OrEmpty(s.actionId)
    ensures OrEmpty(r.attemptId) == OrEmpty(s.attemptId) && OrEmpty(r.previous) == OrEmpty(s.previous)
  {
    var f, g := Fields(r), Fields(s);
    assert f[0] == g[0] && f[1] == g[1] && f[2] == g[2] && f[3] == g[3] && f[4] == g[4];
    assert f[5] == g[5] && f[6] == g[6] && f[7] == g[7] && f[8] == g[8];
  }

  /** Rows that hash the same bytes agree on every committed field. */
  lemma PreimageInjective(r: Row, s: Row)
    requires Storable(r) && Storable(s)
    requires Preimage(r) == Preimage(s)
    ensures r.sequence == s.sequence && r.recordedAt == s.recordedAt
    ensures r.monotonic == s.monotonic && r.kind == s.kind && r.payload == s.payload
    ensures OrEmpty(r.authorizationId) == OrEmpty(s.authorizationId) && OrEmpty(r.actionId) == OrEmpty(s.actionId)
    ensures OrEmpty(r.attemptId) == OrEmpty(s.attemptId) && OrEmpty(r.previous) == OrEmpty(s.previous)
  {
    FieldsFromPreimage(Fields(r), Fields(s), Domain());
    SameFields(r, s);
    SameNumbers(r, s);
  }

  /** Two rows accepted at the ends of two chains under one digest are the same row, or exhibit
      a collision. Neither chain's head can be the empty string, so a missing predecessor is
      never confused with a present one. */
  lemma EqualDigestRows(p: Primitives, n: int, before: Option<Text>, r: Row, m: int, earlier: Option<Text>, s: Row)
    requires CheckRow(p, n, before, r).Some? && CheckRow(p, m, earlier, s).Some?
    requires Storable(r) && Storable(s) && r.digest == s.digest
    requires before != Some([]) && earlier != Some([])
    ensures r == s || Collision(p.hash, r, s)
  {
    PrefixCancels(Ascii("sha256:"), Hex(p.hash(Preimage(r))), Ascii("sha256:"), Hex(p.hash(Preimage(s))));
    HexInjective(p.hash(Preimage(r)), p.hash(Preimage(s)));
    if Preimage(r) == Preimage(s) {
      PreimageInjective(r, s);
    }
  }

  lemma HeadNotEmpty(p: Primitives, rows: seq<Row>)
    requires ReplayRows(p, rows).Some?
    ensures ReplayRows(p, rows).value.head != Some([])
    ensures ReplayRows(p, rows).value.head.None? <==> rows == []
  {
  }

  /** Tamper evidence: two journals that verify against one head digest are the same journal,
      unless their rows exhibit a hash collision. */
  lemma {:induction false} OneHistoryPerHead(p: Primitives, rows: seq<Row>, others: seq<Row>)
    requires ReplayRows(p, rows).Some? && ReplayRows(p, others).Some?
    requires ReplayRows(p, rows).value.head == ReplayRows(p, others).value.head
    requires forall r | r in rows :: Storable(r)
    requires forall r | r in others :: Storable(r)
    ensures rows == others || CollisionBetween(p.hash, rows, others)
    decreases |rows|
  {
    HeadNotEmpty(p, rows);
    HeadNotEmpty(p, others);
    if rows != [] {
      var n, m := |rows| - 1, |others| - 1;
      LastRow(p, rows);
      LastRow(p, others);
      var x, y := ReplayRows(p, rows[..n]).value.head, ReplayRows(p, others[..m]).value.head;
      EqualDigestRows(p, n + 1, x, rows[n], m + 1, y, others[m]);
      if Collision(p.hash, rows[n], others[m]) {
        assert CollisionBetween(p.hash, rows, others);
      } else {
        OneHistoryPerHead(p, rows[..n], others[..m]);
        ExtendsHistory(p.hash, rows, others);
      }
    }
  }

  lemma LastRow(p: Primitives, rows: seq<Row>)
    requires rows != [] && ReplayRows(p, rows).Some?
    ensures var n := |rows| - 1;
            && ReplayRows(p, rows[..n]).Some?
            && CheckRow(p, n + 1, ReplayRows(p, rows[..n]).value.head, rows[n]).Some?
            && ReplayRows(p, rows[..n]).value.head == rows[n].previous != Some([])
            && ReplayRows(p, rows).value.head == Some(rows[n].digest)
  {
    HeadNotEmpty(p, rows[..|rows| - 1]);
  }

  lemma ExtendsHistory(hash: Text -> Text, rows: seq<Row>, others: seq<Row>)
    requires rows != [] && others != [] && rows[|rows| - 1] == others[|others| - 1]
    requires var rs, os := rows[..|rows| - 1], others[..|others| - 1];
             rs == os || CollisionBetween(hash, rs, os)
    ensures rows == others || CollisionBetween(hash, rows, others)
  {
    var rs, os := rows[..|rows| - 1], others[..|others| - 1];
    if rs == os {
      assert rows == rs + [rows[|rows| - 1]] && others == os + [others[|others| - 1]];
    } else {
      var i, j :| 0 <= i < |rs| && 0 <= j < |os| && Collision(hash, rs[i], os[j]);
      assert Collision(hash, rows[i], others[j]);
    }
  }
}
