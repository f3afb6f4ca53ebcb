/** The snapshot a reader is shown: one row per authorized action. */
module AuditSnapshot {
  import opened Bytes
  import opened Wrappers
  import opened AuditModel
  import opened AuditReplay
  import opened AuditOperations
  import opened AuditInvariants

  datatype State = Authorized | Waiting | Uncertain | Done

  /** One action of one authorization, with its attempt if there was one. */
  datatype ActionRow = ActionRow(attempt: Option<Id>, state: State, needsReconciliation: bool,
                                 disposition: Option<Disposition>, report: Option<Report>)

  /** Where a row sits: the nesting of the snapshot, flattened. */
  datatype Key = Key(batch: Id, item: Id, authorization: Id, action: Id)

  type Rows = map<Key, ActionRow>

  const UNATTEMPTED := ActionRow(None, Authorized, false, None, None)

  /** `action_projection_from_replay`. */
  function RowOf(t: Tables, attempt: Id, intent: IntentRow): ActionRow {
    var report := if attempt in t.outcomes then Some(t.outcomes[attempt].report) else None;
    var disposition :=
      if attempt in t.recoveries then Some(t.recoveries[attempt].0)
      else if intent.terminal.Classified? then Some(intent.terminal.disposition)
      else None;
    match intent.terminal
    case OutcomeRecorded =>
      var uncertain := report.Some? && report.value.recoveryState.RecoveryIndeterminate?;
      ActionRow(Some(attempt), if uncertain then Uncertain else Done, uncertain, disposition, report)
    case Reserved => ActionRow(Some(attempt), Waiting, true, disposition, report)
    case Classified(d) => ActionRow(Some(attempt), if d.Indeterminate? then Uncertain else Waiting, true, disposition, report)
  }

  function KeyOf(b: Binding, action: Id): Key
    requires action in b.itemByAction
  {
    Key(b.batchId, b.itemByAction[action], b.authorizationId, action)
  }

  ghost predicate AttemptAt(t: Tables, i: Id, authorization: Id, action: Id) {
    i in t.intents && t.intents[i].authorizationId == authorization && t.intents[i].actionId == action
  }

  /** What the row of one action must say. */
  ghost predicate RowSays(t: Tables, authorization: Id, action: Id, row: ActionRow) {
    if i :| AttemptAt(t, i, authorization, action) then row == RowOf(t, i, t.intents[i]) else row == UNATTEMPTED
  }

  /** Exactly one row per authorization and authorized action, each saying what it must. */
  ghost predicate SnapshotOf(t: Tables, rows: Rows) {
    && (forall k {:trigger k in rows} :: k in rows <==>
          k.authorization in t.auths && k.action in t.auths[k.authorization].binding.itemByAction
          && k == KeyOf(t.auths[k.authorization].binding, k.action))
    && (forall k {:trigger rows[k]} | k in rows :: RowSays(t, k.authorization, k.action, rows[k]))
  }

  /** A row asks for reconciliation exactly when it is waiting or uncertain. */
  ghost predicate NeedsMatch(rows: Rows) {
    forall k | k in rows :: rows[k].needsReconciliation <==> rows[k].state.Waiting? || rows[k].state.Uncertain?
  }

  // ---- Building the rows ----

  ghost predicate Listed(t: Tables, seen: set<Id>, k: Key) {
    && k.authorization in seen && k.authorization in t.auths
    && k.action in t.auths[k.authorization].binding.itemByAction
    && k == KeyOf(t.auths[k.authorization].binding, k.action)
  }

  /** One authorization's actions, not attempted yet. */
  method ListBinding(b: Binding, before: Rows) returns (result: Result<Rows, AuditError>)
    ensures ValidBinding(b) ==> result.Ok?
    ensures result.Ok? ==>
              && (forall k :: k in result.value <==> k in before || (k.action in b.itemByAction && k == KeyOf(b, k.action)))
              && (forall k | k in result.value :: result.value[k] == UNATTEMPTED || (k in before && result.value[k] == before[k]))
  {
    if !ValidBinding(b) {
      return Err(IntegrityFailure);
    }
    var rows, actions := before, b.actionIds;
    while actions != {}
      invariant actions <= b.actionIds
      invariant forall k :: k in rows <==> k in before || (k.action in b.actionIds - actions && k == KeyOf(b, k.action))
      invariant forall k | k in rows :: rows[k] == UNATTEMPTED || (k in before && rows[k] == before[k])
      decreases |actions|
    {
      var action :| action in actions;
      rows := rows[KeyOf(b, action) := UNATTEMPTED];
      actions := actions - {action};
    }
    return Ok(rows);
  }

  /** The first loop: every authorized action, not attempted yet. */
  method ListActions(t: Tables) returns (result: Result<Rows, AuditError>)
    ensures AuthsOk(t) ==> result.Ok?
    ensures result.Ok? && AuthsOk(t) ==> forall k :: k in result.value <==> Listed(t, t.auths.Keys, k)
    ensures result.Ok? ==> forall k | k in result.value :: result.value[k] == UNATTEMPTED
  {
    var rows: Rows := map[];
    var left := t.auths.Keys;
    while left != {}
      invariant left <= t.auths.Keys
      invariant AuthsOk(t) ==> forall k :: k in rows <==> Listed(t, t.auths.Keys - left, k)
      invariant forall k | k in rows :: rows[k] == UNATTEMPTED
      decreases |left|
    {
      var a :| a in left;
      assert AuthsOk(t) ==> AuthOk(t, a);
      var listed := ListBinding(t.auths[a].binding, rows);
      if listed.Err? {
        return listed;
      }
      rows := listed.value;
      left := left - {a};
    }
    return Ok(rows);
  }

  /** A row once the attempts in `seen` have been placed. */
  ghost predicate RowSaysSoFar(t: Tables, seen: set<Id>, k: Key, row: ActionRow) {
    && (forall i {:trigger AttemptAt(t, i, k.authorization, k.action)} | i in seen && AttemptAt(t, i, k.authorization, k.action) :: row == RowOf(t, i, t.intents[i]))
    && ((forall i {:trigger AttemptAt(t, i, k.authorization, k.action)} | i in seen :: !AttemptAt(t, i, k.authorization, k.action)) ==> row == UNATTEMPTED)
  }

  /** Where an attempt's row is looked for. */
  function PlaceOf(t: Tables, intent: IntentRow): Key
    requires intent.authorizationId in t.auths
  {
    Key(t.auths[intent.authorizationId].binding.batchId, intent.itemId, intent.authorizationId, intent.actionId)
  }

  lemma AttemptHasPlace(t: Tables, i: Id)
    requires Invariant(t) && i in t.intents
    ensures t.intents[i].authorizationId in t.auths && Listed(t, t.auths.Keys, PlaceOf(t, t.intents[i]))
  {
    assert IntentOk(t, i);
    assert AuthOk(t, t.intents[i].authorizationId);
  }

  ghost predicate AllListed(t: Tables, rows: Rows) {
    forall k {:trigger Listed(t, t.auths.Keys, k)} :: k in rows <==> Listed(t, t.auths.Keys, k)
  }

  ghost predicate AllSaySoFar(t: Tables, seen: set<Id>, rows: Rows) {
    forall k {:trigger RowSaysSoFar(t, seen, k, rows[k])} | k in rows :: RowSaysSoFar(t, seen, k, rows[k])
  }

  /** The rows with the attempts in `seen` placed. */
  ghost predicate Placing(t: Tables, seen: set<Id>, rows: Rows) {
    AllListed(t, rows) && AllSaySoFar(t, seen, rows)
  }

  lemma PlacedOne(t: Tables, seen: set<Id>, i: Id, rows: Rows)
    requires Invariant(t) && i in t.intents && i !in seen && seen <= t.intents.Keys && Placing(t, seen, rows)
    ensures t.intents[i].authorizationId in t.auths && PlaceOf(t, t.intents[i]) in rows
    ensures Placing(t, seen + {i}, rows[PlaceOf(t, t.intents[i]) := RowOf(t, i, t.intents[i])])
  {
    AttemptHasPlace(t, i);
    var place := PlaceOf(t, t.intents[i]);
    var after := rows[place := RowOf(t, i, t.intents[i])];
    forall k | k in after ensures RowSaysSoFar(t, seen + {i}, k, after[k]) {
      if k == place {
        forall j | j in seen + {i} && AttemptAt(t, j, k.authorization, k.action) ensures j == i {
          assert IntentOk(t, i) && IntentOk(t, j);
          assert SameAttempt(t.intents[j], t.intents[i].authority);
        }
        assert AttemptAt(t, i, k.authorization, k.action);
      } else {
        assert RowSaysSoFar(t, seen, k, rows[k]);
        assert k in rows && Listed(t, t.auths.Keys, k) && Listed(t, t.auths.Keys, place);
        assert !AttemptAt(t, i, k.authorization, k.action);
      }
    }
  }

  lemma ListedIsPlacing(t: Tables, rows: Rows)
    ensures (forall k :: k in rows <==> Listed(t, t.auths.Keys, k)) && (forall k | k in rows :: rows[k] == UNATTEMPTED) ==> Placing(t, {}, rows)
  {
  }

  lemma PlacedAll(t: Tables, rows: Rows)
    requires Placing(t, t.intents.Keys, rows)
    ensures SnapshotOf(t, rows)
  {
    forall k ensures k in rows <==> Listed(t, t.auths.Keys, k) {
    }
    forall k | k in rows ensures RowSays(t, k.authorization, k.action, rows[k]) {
      assert RowSaysSoFar(t, t.intents.Keys, k, rows[k]);
    }
  }

  lemma PlacedNeeds(t: Tables, rows: Rows, place: Key, i: Id)
    requires NeedsMatch(rows) && i in t.intents
    ensures NeedsMatch(rows[place := RowOf(t, i, t.intents[i])])
  {
  }

  /** The second loop: each attempt replaces its action's row. `sound` is whether the tables meet
      the invariants, as they do in every reachable state. */
  method PlaceAttempts(t: Tables, listed: Rows, ghost sound: bool) returns (result: Result<Rows, AuditError>)
    requires sound ==> Invariant(t) && Placing(t, {}, listed)
    requires NeedsMatch(listed)
    ensures sound ==> result.Ok? && SnapshotOf(t, result.value)
    ensures result.Ok? ==> NeedsMatch(result.value)
  {
    var rows, left := listed, t.intents.Keys;
    assert t.intents.Keys - left == {};
    while left != {}
      invariant left <= t.intents.Keys
      invariant NeedsMatch(rows) && (sound ==> Placing(t, t.intents.Keys - left, rows))
      decreases |left|
    {
      var i :| i in left;
      ghost var seen := t.intents.Keys - left;
      if sound {
        PlacedOne(t, seen, i, rows);
      }
      left := left - {i};
      assert seen + {i} == t.intents.Keys - left;
      var intent := t.intents[i];
      if intent.authorizationId !in t.auths || PlaceOf(t, intent) !in rows {
        return Err(HeadMismatch);
      }
      PlacedNeeds(t, rows, PlaceOf(t, intent), i);
      rows := rows[PlaceOf(t, intent) := RowOf(t, i, intent)];
    }
    if sound {
      assert t.intents.Keys - left == t.intents.Keys;
      PlacedAll(t, rows);
    }
    return Ok(rows);
  }

  /** `projection_snapshot_from_replay`, up to grouping: in every state the store can reach it
      succeeds with exactly one row per authorized action. */
  method Snapshot(t: Tables) returns (result: Result<Rows, AuditError>)
    ensures Invariant(t) ==> result.Ok? && SnapshotOf(t, result.value)
    ensures result.Ok? ==> NeedsMatch(result.value)
  {
    result := ListActions(t);
    if result.Ok? {
      ListedIsPlacing(t, result.value);
      result := PlaceAttempts(t, result.value, Invariant(t));
    }
  }

  /** A consumed authorization waits for nothing. Its unattempted actions still show as authorized,
      since consuming does not require every action to have been attempted. */
  lemma ConsumedNeverWaits(t: Tables, rows: Rows, k: Key)
    requires Invariant(t) && SnapshotOf(t, rows) && k in rows && t.auths[k.authorization].state.Consumed?
    ensures !rows[k].state.Waiting?
    ensures rows[k].state.Authorized? <==> !exists i :: AttemptAt(t, i, k.authorization, k.action)
  {
    assert RowSays(t, k.authorization, k.action, rows[k]);
    forall i | AttemptAt(t, i, k.authorization, k.action) ensures t.intents[i].terminal.OutcomeRecorded? {
      assert IntentOk(t, i);
    }
  }

  /** The disposition shown is the one the intent was classified with, and only then. */
  lemma DispositionIsClassification(t: Tables, i: Id)
    requires Invariant(t) && i in t.intents
    ensures RowOf(t, i, t.intents[i]).disposition ==
            if t.intents[i].terminal.Classified? then Some(t.intents[i].terminal.disposition) else None
    ensures RowOf(t, i, t.intents[i]).report.Some? <==> t.intents[i].terminal.OutcomeRecorded?
  {
    assert ResultOk(t, i);
  }
}
