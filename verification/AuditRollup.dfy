/** The rows rolled up, level by level, to authorizations, items and batches. */
module AuditRollup {
  import opened Bytes
  import opened Wrappers
  import opened AuditModel
  import opened AuditReplay
  import opened AuditJournal
  import opened AuditOperations
  import opened AuditInvariants
  import opened AuditSnapshot

  datatype ActionView = ActionView(action: Id, row: ActionRow)
  datatype AuthorizationView = AuthorizationView(authorization: Id, state: State, needs: bool, actions: seq<ActionView>)
  datatype ItemView = ItemView(item: Id, state: State, needs: bool, authorizations: seq<AuthorizationView>)
  datatype BatchView = BatchView(batch: Id, state: State, needs: bool, items: seq<ItemView>)

  // ---- What a group of rows should show ----

  function Severity(s: State): nat {
    match s
    case Done => 0
    case Authorized => 1
    case Waiting => 2
    case Uncertain => 3
  }

  /** The state is that of the most severe row, and reconciliation is asked for exactly when some
      row asks for it. */
  ghost predicate Shows(rows: Rows, keys: set<Key>, state: State, needs: bool) {
    && (exists k :: k in keys && k in rows && rows[k].state == state)
    && (forall k | k in keys && k in rows :: Severity(rows[k].state) <= Severity(state))
    && (needs <==> exists k :: k in keys && k in rows && rows[k].needsReconciliation)
  }

  function OfAuthorization(rows: Rows, batch: Id, item: Id, authorization: Id): set<Key> {
    set k | k in rows.Keys && k.batch == batch && k.item == item && k.authorization == authorization
  }

  function OfItem(rows: Rows, batch: Id, item: Id): set<Key> {
    set k | k in rows.Keys && k.batch == batch && k.item == item
  }

  function OfBatch(rows: Rows, batch: Id): set<Key> {
    set k | k in rows.Keys && k.batch == batch
  }

  function ActionsOf(keys: set<Key>): set<Id> {
    set k | k in keys :: k.action
  }

  function AuthorizationsOf(keys: set<Key>): set<Id> {
    set k | k in keys :: k.authorization
  }

  function ItemsOf(keys: set<Key>): set<Id> {
    set k | k in keys :: k.item
  }

  function BatchesOf(keys: set<Key>): set<Id> {
    set k | k in keys :: k.batch
  }

  /** The first `n` of `list` have their views, in order. */
  ghost predicate Rolled<T(!new)>(list: seq<Id>, n: nat, id: T -> Id, good: T -> bool, views: seq<T>) {
    |views| == n <= |list| && forall k {:trigger views[k]} | 0 <= k < n :: id(views[k]) == list[k] && good(views[k])
  }

  lemma RolledNext<T(!new)>(list: seq<Id>, n: nat, id: T -> Id, good: T -> bool, views: seq<T>, view: T)
    requires Rolled(list, n, id, good, views) && n < |list| && id(view) == list[n] && good(view)
    ensures Rolled(list, n + 1, id, good, views + [view])
  {
  }

  /** One good view for each of `ids`, in order. */
  ghost predicate OneEach<T(!new)>(ids: set<Id>, id: T -> Id, good: T -> bool, views: seq<T>) {
    exists list {:trigger Lists(list, ids)} :: Lists(list, ids) && Rolled(list, |list|, id, good, views)
  }

  lemma ViewOf<T(!new)>(ids: set<Id>, id: T -> Id, good: T -> bool, views: seq<T>, x: Id) returns (k: nat)
    requires OneEach(ids, id, good, views) && x in ids
    ensures k < |views| && id(views[k]) == x && good(views[k])
  {
    var list :| Lists(list, ids) && Rolled(list, |list|, id, good, views);
    k :| 0 <= k < |list| && list[k] == x;
  }

  lemma ViewIsGood<T(!new)>(ids: set<Id>, id: T -> Id, good: T -> bool, views: seq<T>, k: nat)
    requires OneEach(ids, id, good, views) && k < |views|
    ensures id(views[k]) in ids && good(views[k])
  {
    var list :| Lists(list, ids) && Rolled(list, |list|, id, good, views);
    assert list[k] in list;
  }

  lemma ViewsDiffer<T(!new)>(ids: set<Id>, id: T -> Id, good: T -> bool, views: seq<T>, j: nat, k: nat)
    requires OneEach(ids, id, good, views) && j < |views| && k < |views| && id(views[j]) == id(views[k])
    ensures j == k
  {
    var list :| Lists(list, ids) && Rolled(list, |list|, id, good, views);
    if j < k {
      AscendsOnce(list, j, k);
    } else if k < j {
      AscendsOnce(list, k, j);
    }
  }

  function ActionId(v: ActionView): Id { v.action }

  function AuthorizationId(v: AuthorizationView): Id { v.authorization }

  function ItemId(v: ItemView): Id { v.item }

  function BatchId(v: BatchView): Id { v.batch }

  ghost function ActionGood(rows: Rows, batch: Id, item: Id, authorization: Id): ActionView -> bool {
    (v: ActionView) => Key(batch, item, authorization, v.action) in rows && v.row == rows[Key(batch, item, authorization, v.action)]
  }

  /** Exactly the group's rows, in order of action, under what the group should show. */
  ghost predicate AuthorizationShows(rows: Rows, batch: Id, item: Id, v: AuthorizationView) {
    var keys := OfAuthorization(rows, batch, item, v.authorization);
    Shows(rows, keys, v.state, v.needs)
    && OneEach(ActionsOf(keys), ActionId, ActionGood(rows, batch, item, v.authorization), v.actions)
  }

  ghost function AuthorizationGood(rows: Rows, batch: Id, item: Id): AuthorizationView -> bool {
    (v: AuthorizationView) => AuthorizationShows(rows, batch, item, v)
  }

  ghost predicate ItemShows(rows: Rows, batch: Id, v: ItemView) {
    var keys := OfItem(rows, batch, v.item);
    Shows(rows, keys, v.state, v.needs)
    && OneEach(AuthorizationsOf(keys), AuthorizationId, AuthorizationGood(rows, batch, v.item), v.authorizations)
  }

  ghost function ItemGood(rows: Rows, batch: Id): ItemView -> bool {
    (v: ItemView) => ItemShows(rows, batch, v)
  }

  ghost predicate BatchShows(rows: Rows, v: BatchView) {
    var keys := OfBatch(rows, v.batch);
    Shows(rows, keys, v.state, v.needs) && OneEach(ItemsOf(keys), ItemId, ItemGood(rows, v.batch), v.items)
  }

  ghost function BatchGood(rows: Rows): BatchView -> bool {
    (v: BatchView) => BatchShows(rows, v)
  }

  /** The whole snapshot shows the rows: every group once, in order, and no other. */
  ghost predicate ShowsRows(rows: Rows, views: seq<BatchView>) {
    OneEach(BatchesOf(rows.Keys), BatchId, BatchGood(rows), views)
  }

  // ---- Flags ----

  predicate Has(rows: Rows, keys: set<Key>, state: State) {
    exists k | k in keys :: k in rows && rows[k].state == state
  }

  /** The three flags a loop accumulates for one group. */
  datatype Flags = Flags(authorized: bool, waiting: bool, uncertain: bool)

  const NO_FLAGS := Flags(false, false, false)

  function Or(a: Flags, b: Flags): Flags {
    Flags(a.authorized || b.authorized, a.waiting || b.waiting, a.uncertain || b.uncertain)
  }

  ghost function FlagsOf(rows: Rows, keys: set<Key>): Flags {
    Flags(Has(rows, keys, Authorized), Has(rows, keys, Waiting), Has(rows, keys, Uncertain))
  }

  /** `projection_state_from_flags`. */
  function FromFlags(f: Flags): State {
    if f.uncertain then Uncertain else if f.waiting then Waiting else if f.authorized then Authorized else Done
  }

  function NeedsFrom(f: Flags): bool {
    f.waiting || f.uncertain
  }

  /** Flags accumulated over a group say what the group should show. */
  lemma FlagsShow(rows: Rows, keys: set<Key>)
    requires NeedsMatch(rows) && keys <= rows.Keys && keys != {}
    ensures Shows(rows, keys, FromFlags(FlagsOf(rows, keys)), NeedsFrom(FlagsOf(rows, keys)))
  {
    var some :| some in keys;
    assert some in rows;
    if k :| k in keys && k in rows && rows[k].needsReconciliation {
      assert rows[k].state.Waiting? || rows[k].state.Uncertain?;
    }
  }

  lemma HasUnion(rows: Rows, a: set<Key>, b: set<Key>, state: State)
    ensures Has(rows, a + b, state) <==> Has(rows, a, state) || Has(rows, b, state)
  {
    if k :| k in a && k in rows && rows[k].state == state {
      assert k in a + b;
    }
    if k :| k in b && k in rows && rows[k].state == state {
      assert k in a + b;
    }
  }

  /** Or-ing the flags of two groups gives those of both together. */
  lemma FlagsUnion(rows: Rows, a: set<Key>, b: set<Key>)
    ensures FlagsOf(rows, a + b) == Or(FlagsOf(rows, a), FlagsOf(rows, b))
  {
    HasUnion(rows, a, b, Authorized);
    HasUnion(rows, a, b, Waiting);
    HasUnion(rows, a, b, Uncertain);
  }

  // ---- Rolling up ----

  /** One authorization: its rows by action, and the states any of them has. */
  method RollUpAuthorization(rows: Rows, batch: Id, item: Id, authorization: Id) returns (v: AuthorizationView, flags: Flags)
    requires NeedsMatch(rows) && OfAuthorization(rows, batch, item, authorization) != {}
    ensures v.authorization == authorization && AuthorizationShows(rows, batch, item, v)
    ensures flags == FlagsOf(rows, OfAuthorization(rows, batch, item, authorization))
  {
    var keys := OfAuthorization(rows, batch, item, authorization);
    var ids := InOrder(ActionsOf(keys));
    var actions: seq<ActionView> := [];
    flags := NO_FLAGS;
    for n := 0 to |ids|
      invariant Rolled(ids, n, ActionId, ActionGood(rows, batch, item, authorization), actions)
      invariant flags == FlagsOf(rows, WithActions(keys, ids[..n]))
    {
      NextAction(rows, batch, item, authorization, ids, n);
      var row := rows[Key(batch, item, authorization, ids[n])];
      RolledNext(ids, n, ActionId, ActionGood(rows, batch, item, authorization), actions, ActionView(ids[n], row));
      flags := Or(flags, Flags(row.state.Authorized?, row.state.Waiting?, row.state.Uncertain?));
      actions := actions + [ActionView(ids[n], row)];
    }
    assert ids[..|ids|] == ids;
    assert WithActions(keys, ids) == keys;
    FlagsShow(rows, keys);
    v := AuthorizationView(authorization, FromFlags(flags), NeedsFrom(flags), actions);
  }

  ghost function WithActions(keys: set<Key>, ids: seq<Id>): set<Key> {
    set k | k in keys && k.action in ids
  }

  lemma NextAction(rows: Rows, batch: Id, item: Id, authorization: Id, ids: seq<Id>, n: nat)
    requires Lists(ids, ActionsOf(OfAuthorization(rows, batch, item, authorization))) && n < |ids|
    ensures var keys, k := OfAuthorization(rows, batch, item, authorization), Key(batch, item, authorization, ids[n]);
            && k in rows
            && FlagsOf(rows, WithActions(keys, ids[..n + 1])) ==
               Or(FlagsOf(rows, WithActions(keys, ids[..n])), Flags(rows[k].state.Authorized?, rows[k].state.Waiting?, rows[k].state.Uncertain?))
  {
    var keys, k := OfAuthorization(rows, batch, item, authorization), Key(batch, item, authorization, ids[n]);
    assert ids[n] in ids;
    assert k in keys;
    assert ids[..n + 1] == ids[..n] + [ids[n]];
    assert WithActions(keys, ids[..n + 1]) == WithActions(keys, ids[..n]) + {k};
    FlagsUnion(rows, WithActions(keys, ids[..n]), {k});
    OneFlag(rows, k);
  }

  lemma OneFlag(rows: Rows, k: Key)
    requires k in rows
    ensures FlagsOf(rows, {k}) == Flags(rows[k].state.Authorized?, rows[k].state.Waiting?, rows[k].state.Uncertain?)
  {
    assert k in {k};
  }

  ghost function WithAuthorizations(keys: set<Key>, ids: seq<Id>): set<Key> {
    set k | k in keys && k.authorization in ids
  }

  ghost function WithItems(keys: set<Key>, ids: seq<Id>): set<Key> {
    set k | k in keys && k.item in ids
  }

  lemma NextAuthorization(rows: Rows, batch: Id, item: Id, ids: seq<Id>, n: nat)
    requires Lists(ids, AuthorizationsOf(OfItem(rows, batch, item))) && n < |ids|
    ensures var keys, group := OfItem(rows, batch, item), OfAuthorization(rows, batch, item, ids[n]);
            group != {} && FlagsOf(rows, WithAuthorizations(keys, ids[..n + 1])) == Or(FlagsOf(rows, WithAuthorizations(keys, ids[..n])), FlagsOf(rows, group))
  {
    var keys, group := OfItem(rows, batch, item), OfAuthorization(rows, batch, item, ids[n]);
    assert ids[n] in ids;
    var k :| k in keys && k.authorization == ids[n];
    assert k in group;
    assert ids[..n + 1] == ids[..n] + [ids[n]];
    assert WithAuthorizations(keys, ids[..n + 1]) == WithAuthorizations(keys, ids[..n]) + group;
    FlagsUnion(rows, WithAuthorizations(keys, ids[..n]), group);
  }

  lemma NextItem(rows: Rows, batch: Id, ids: seq<Id>, n: nat)
    requires Lists(ids, ItemsOf(OfBatch(rows, batch))) && n < |ids|
    ensures var keys, group := OfBatch(rows, batch), OfItem(rows, batch, ids[n]);
            group != {} && FlagsOf(rows, WithItems(keys, ids[..n + 1])) == Or(FlagsOf(rows, WithItems(keys, ids[..n])), FlagsOf(rows, group))
  {
    var keys, group := OfBatch(rows, batch), OfItem(rows, batch, ids[n]);
    assert ids[n] in ids;
    var k :| k in keys && k.item == ids[n];
    assert k in group;
    assert ids[..n + 1] == ids[..n] + [ids[n]];
    assert WithItems(keys, ids[..n + 1]) == WithItems(keys, ids[..n]) + group;
    FlagsUnion(rows, WithItems(keys, ids[..n]), group);
  }

  /** The flags of all listed groups are those of the whole, which say what it should show. */
  lemma ItemFlags(rows: Rows, batch: Id, item: Id, ids: seq<Id>)
    requires NeedsMatch(rows) && Lists(ids, AuthorizationsOf(OfItem(rows, batch, item))) && OfItem(rows, batch, item) != {}
    ensures var f := FlagsOf(rows, WithAuthorizations(OfItem(rows, batch, item), ids));
            f == FlagsOf(rows, OfItem(rows, batch, item)) && Shows(rows, OfItem(rows, batch, item), FromFlags(f), NeedsFrom(f))
  {
    assert WithAuthorizations(OfItem(rows, batch, item), ids) == OfItem(rows, batch, item);
    FlagsShow(rows, OfItem(rows, batch, item));
  }

  lemma BatchFlags(rows: Rows, batch: Id, ids: seq<Id>)
    requires NeedsMatch(rows) && Lists(ids, ItemsOf(OfBatch(rows, batch))) && OfBatch(rows, batch) != {}
    ensures var f := FlagsOf(rows, WithItems(OfBatch(rows, batch), ids));
            Shows(rows, OfBatch(rows, batch), FromFlags(f), NeedsFrom(f))
  {
    assert WithItems(OfBatch(rows, batch), ids) == OfBatch(rows, batch);
    FlagsShow(rows, OfBatch(rows, batch));
  }

  lemma NextBatch(rows: Rows, ids: seq<Id>, n: nat)
    requires Lists(ids, BatchesOf(rows.Keys)) && n < |ids|
    ensures OfBatch(rows, ids[n]) != {}
  {
    assert ids[n] in ids;
    var k :| k in rows.Keys && k.batch == ids[n];
    assert k in OfBatch(rows, ids[n]);
  }

  /** One item: its authorizations in order, their flags or-ed together. */
  method RollUpItem(rows: Rows, batch: Id, item: Id) returns (v: ItemView, flags: Flags)
    requires NeedsMatch(rows) && OfItem(rows, batch, item) != {}
    ensures v.item == item && ItemShows(rows, batch, v)
    ensures flags == FlagsOf(rows, OfItem(rows, batch, item))
  {
    var ids := InOrder(AuthorizationsOf(OfItem(rows, batch, item)));
    var views: seq<AuthorizationView> := [];
    flags := NO_FLAGS;
    for n := 0 to |ids|
      invariant Rolled(ids, n, AuthorizationId, AuthorizationGood(rows, batch, item), views)
      invariant flags == FlagsOf(rows, WithAuthorizations(OfItem(rows, batch, item), ids[..n]))
    {
      NextAuthorization(rows, batch, item, ids, n);
      var view, more := RollUpAuthorization(rows, batch, item, ids[n]);
      RolledNext(ids, n, AuthorizationId, AuthorizationGood(rows, batch, item), views, view);
      flags := Or(flags, more);
      views := views + [view];
    }
    assert ids[..|ids|] == ids;
    ItemFlags(rows, batch, item, ids);
    v := ItemView(item, FromFlags(flags), NeedsFrom(flags), views);
  }

  /** One batch: its items in order, their flags or-ed together. */
  method RollUpBatch(rows: Rows, batch: Id) returns (v: BatchView)
    requires NeedsMatch(rows) && OfBatch(rows, batch) != {}
    ensures v.batch == batch && BatchShows(rows, v)
  {
    var ids := InOrder(ItemsOf(OfBatch(rows, batch)));
    var views: seq<ItemView>, flags := [], NO_FLAGS;
    for n := 0 to |ids|
      invariant Rolled(ids, n, ItemId, ItemGood(rows, batch), views)
      invariant flags == FlagsOf(rows, WithItems(OfBatch(rows, batch), ids[..n]))
    {
      NextItem(rows, batch, ids, n);
      var view, more := RollUpItem(rows, batch, ids[n]);
      RolledNext(ids, n, ItemId, ItemGood(rows, batch), views, view);
      flags := Or(flags, more);
      views := views + [view];
    }
    assert ids[..|ids|] == ids;
    BatchFlags(rows, batch, ids);
    v := BatchView(batch, FromFlags(flags), NeedsFrom(flags), views);
  }

  /** The last loop of `projection_snapshot_from_replay`: batches, items, authorizations, actions. */
  method RollUp(rows: Rows) returns (views: seq<BatchView>)
    requires NeedsMatch(rows)
    ensures ShowsRows(rows, views)
  {
    var ids := InOrder(BatchesOf(rows.Keys));
    views := [];
    for n := 0 to |ids|
      invariant Rolled(ids, n, BatchId, BatchGood(rows), views)
    {
      NextBatch(rows, ids, n);
      var view := RollUpBatch(rows, ids[n]);
      RolledNext(ids, n, BatchId, BatchGood(rows), views, view);
      views := views + [view];
    }
  }

  // ---- Where a row is shown ----

  datatype Place = Place(batch: nat, item: nat, authorization: nat, action: nat)

  predicate Within(views: seq<BatchView>, at: Place) {
    && at.batch < |views| && at.item < |views[at.batch].items|
    && at.authorization < |views[at.batch].items[at.item].authorizations|
    && at.action < |views[at.batch].items[at.item].authorizations[at.authorization].actions|
  }

  function KeyAt(views: seq<BatchView>, at: Place): Key
    requires Within(views, at)
  {
    var b := views[at.batch];
    var i := b.items[at.item];
    var a := i.authorizations[at.authorization];
    Key(b.batch, i.item, a.authorization, a.actions[at.action].action)
  }

  function RowAt(views: seq<BatchView>, at: Place): ActionRow
    requires Within(views, at)
  {
    views[at.batch].items[at.item].authorizations[at.authorization].actions[at.action].row
  }

  lemma BatchAt(rows: Rows, views: seq<BatchView>, at: nat)
    requires ShowsRows(rows, views) && at < |views|
    ensures BatchShows(rows, views[at])
  {
    ViewIsGood(BatchesOf(rows.Keys), BatchId, BatchGood(rows), views, at);
  }

  lemma ItemAt(rows: Rows, v: BatchView, at: nat)
    requires BatchShows(rows, v) && at < |v.items|
    ensures ItemShows(rows, v.batch, v.items[at])
  {
    ViewIsGood(ItemsOf(OfBatch(rows, v.batch)), ItemId, ItemGood(rows, v.batch), v.items, at);
  }

  lemma AuthorizationAt(rows: Rows, batch: Id, v: ItemView, at: nat)
    requires ItemShows(rows, batch, v) && at < |v.authorizations|
    ensures AuthorizationShows(rows, batch, v.item, v.authorizations[at])
  {
    ViewIsGood(AuthorizationsOf(OfItem(rows, batch, v.item)), AuthorizationId, AuthorizationGood(rows, batch, v.item), v.authorizations, at);
  }

  /** Every place shows the row of its key. */
  lemma PlacesShowRows(rows: Rows, views: seq<BatchView>, at: Place)
    requires ShowsRows(rows, views) && Within(views, at)
    ensures KeyAt(views, at) in rows && RowAt(views, at) == rows[KeyAt(views, at)]
  {
    var b := views[at.batch];
    var i := b.items[at.item];
    var a := i.authorizations[at.authorization];
    BatchAt(rows, views, at.batch);
    ItemAt(rows, b, at.item);
    AuthorizationAt(rows, b.batch, i, at.authorization);
    ViewIsGood(ActionsOf(OfAuthorization(rows, b.batch, i.item, a.authorization)), ActionId,
               ActionGood(rows, b.batch, i.item, a.authorization), a.actions, at.action);
  }

  lemma FindAction(rows: Rows, v: AuthorizationView, k: Key) returns (at: nat)
    requires AuthorizationShows(rows, k.batch, k.item, v) && v.authorization == k.authorization && k in rows
    ensures at < |v.actions| && v.actions[at].action == k.action
  {
    assert k in OfAuthorization(rows, k.batch, k.item, v.authorization);
    at := ViewOf(ActionsOf(OfAuthorization(rows, k.batch, k.item, v.authorization)), ActionId,
                 ActionGood(rows, k.batch, k.item, v.authorization), v.actions, k.action);
  }

  lemma FindAuthorization(rows: Rows, v: ItemView, k: Key) returns (at: nat)
    requires ItemShows(rows, k.batch, v) && v.item == k.item && k in rows
    ensures at < |v.authorizations| && v.authorizations[at].authorization == k.authorization
    ensures AuthorizationShows(rows, k.batch, k.item, v.authorizations[at])
  {
    assert k in OfItem(rows, k.batch, k.item);
    at := ViewOf(AuthorizationsOf(OfItem(rows, k.batch, k.item)), AuthorizationId, AuthorizationGood(rows, k.batch, k.item),
                 v.authorizations, k.authorization);
  }

  lemma FindItem(rows: Rows, v: BatchView, k: Key) returns (at: nat)
    requires BatchShows(rows, v) && v.batch == k.batch && k in rows
    ensures at < |v.items| && v.items[at].item == k.item && ItemShows(rows, k.batch, v.items[at])
  {
    assert k in OfBatch(rows, k.batch);
    at := ViewOf(ItemsOf(OfBatch(rows, k.batch)), ItemId, ItemGood(rows, k.batch), v.items, k.item);
  }

  /** Every row has a place. */
  lemma RowsHavePlaces(rows: Rows, views: seq<BatchView>, k: Key) returns (at: Place)
    requires ShowsRows(rows, views) && k in rows
    ensures Within(views, at) && KeyAt(views, at) == k
  {
    var b := ViewOf(BatchesOf(rows.Keys), BatchId, BatchGood(rows), views, k.batch);
    var i := FindItem(rows, views[b], k);
    var a := FindAuthorization(rows, views[b].items[i], k);
    var c := FindAction(rows, views[b].items[i].authorizations[a], k);
    at := Place(b, i, a, c);
  }

  /** And only one. */
  lemma PlacesDiffer(rows: Rows, views: seq<BatchView>, at: Place, other: Place)
    requires ShowsRows(rows, views) && Within(views, at) && Within(views, other) && KeyAt(views, at) == KeyAt(views, other)
    ensures at == other
  {
    ViewsDiffer(BatchesOf(rows.Keys), BatchId, BatchGood(rows), views, at.batch, other.batch);
    var b := views[at.batch];
    BatchAt(rows, views, at.batch);
    ViewsDiffer(ItemsOf(OfBatch(rows, b.batch)), ItemId, ItemGood(rows, b.batch), b.items, at.item, other.item);
    var i := b.items[at.item];
    ItemAt(rows, b, at.item);
    ViewsDiffer(AuthorizationsOf(OfItem(rows, b.batch, i.item)), AuthorizationId, AuthorizationGood(rows, b.batch, i.item),
                i.authorizations, at.authorization, other.authorization);
    var a := i.authorizations[at.authorization];
    AuthorizationAt(rows, b.batch, i, at.authorization);
    ViewsDiffer(ActionsOf(OfAuthorization(rows, b.batch, i.item, a.authorization)), ActionId,
                ActionGood(rows, b.batch, i.item, a.authorization), a.actions, at.action, other.action);
  }

  // ---- The whole snapshot ----

  /** The snapshot shows exactly what the tables say. */
  ghost predicate ShowsTables(t: Tables, views: seq<BatchView>) {
    exists rows :: SnapshotOf(t, rows) && ShowsRows(rows, views)
  }

  /** `projection_snapshot_from_replay`. */
  method SnapshotFromReplay(t: Tables) returns (result: Result<seq<BatchView>, AuditError>)
    ensures Invariant(t) ==> result.Ok? && ShowsTables(t, result.value)
  {
    var rows := Snapshot(t);
    if rows.Err? {
      return Err(rows.error);
    }
    var views := RollUp(rows.value);
    return Ok(views);
  }

  /** `projection_snapshot`: replay, verify, roll up. Of the store any run leaves behind it succeeds
      and shows exactly the store's tables. */
  method ProjectionSnapshot(p: Primitives, store: Store) returns (result: Result<seq<BatchView>, AuditError>)
    ensures forall databaseId, calls {:trigger Run(p, databaseId, calls)} | Lawful(p) && store == Run(p, databaseId, calls) ::
              result.Ok? && ShowsTables(store.tables, result.value)
    ensures result.Ok? ==> VerifyDatabase(p, store)
  {
    forall databaseId, calls {:trigger Run(p, databaseId, calls)} | Lawful(p) && store == Run(p, databaseId, calls)
      ensures Honest(p, store) && VerifyDatabase(p, store)
    {
      RunsVerify(p, databaseId, calls);
    }
    var replayed := ReplayProjection(p, store);
    if replayed.None? || !VerifyDatabase(p, store) {
      return Err(HeadMismatch);
    }
    result := SnapshotFromReplay(replayed.value);
  }
}
