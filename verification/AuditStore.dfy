/** The audit store as an object: each operation checks, then rewrites its tables statement by
    statement inside one transaction, and commits or leaves the store alone. */
module AuditStoreObject {
  import opened Bytes
  import opened Wrappers
  import opened AuditModel
  import opened AuditReplay
  import opened AuditJournal
  import opened AuditOperations
  import Sorting

  /** What a call leaves behind: the store, and the refusal if there was one. */
  ghost function Effect(p: Primitives, s: Store, op: Operation, stamps: nat -> Stamp): (Store, Option<AuditError>) {
    match Perform(p, s, op, stamps)
    case Ok(after) => (after, None)
    case Err(e) => (s, Some(e))
  }

  datatype IntentReservation = CreatedIntent(authority: Authority) | ExistingIntent(attempt: Id) | ConflictingIntent(attempt: Id)

  /** ORDER BY ordinal LIMIT 1 over a selection of intents. */
  method FirstByOrdinal(t: Tables, ids: set<Id>) returns (first: Option<Id>)
    requires ids <= t.intents.Keys
    ensures first.None? <==> ids == {}
    ensures first.Some? ==> first.value in ids && forall i | i in ids :: t.intents[first.value].ordinal <= t.intents[i].ordinal
  {
    first := None;
    var rest := ids;
    while rest != {}
      invariant rest <= ids
      invariant first.None? <==> rest == ids
      invariant first.Some? ==> first.value in ids && forall i | i in ids - rest :: t.intents[first.value].ordinal <= t.intents[i].ordinal
      decreases rest
    {
      var i :| i in rest;
      if first.None? || t.intents[i].ordinal < t.intents[first.value].ordinal {
        first := Some(i);
      }
      rest := rest - {i};
    }
    if ids == {} {
      first := None;
    }
  }

  predicate Earlier(t: Tables, i: Id, j: Id) {
    i in t.intents && j in t.intents && i != j && t.intents[i].ordinal <= t.intents[j].ordinal
  }

  predicate Candidate(t: Tables, auth: Id, i: Id) {
    i in t.intents && t.intents[i].authorizationId == auth && t.intents[i].terminal.Reserved?
  }

  predicate InOrdinalOrder(t: Tables, attempts: seq<Id>) {
    forall k, n | 0 <= k < n < |attempts| :: Earlier(t, attempts[k], attempts[n])
  }

  /** ORDER BY ordinal over a selection of intents. */
  method ByOrdinal(t: Tables, ids: set<Id>) returns (list: seq<Id>)
    requires ids <= t.intents.Keys
    ensures InOrdinalOrder(t, list) && forall i :: i in list <==> i in ids
  {
    list := [];
    var rest := ids;
    while rest != {}
      invariant rest <= ids && InOrdinalOrder(t, list)
      invariant forall i :: i in list <==> i in ids && i !in rest
      invariant forall k, i | 0 <= k < |list| && i in rest :: t.intents[list[k]].ordinal <= t.intents[i].ordinal
      decreases rest
    {
      var first := FirstByOrdinal(t, rest);
      rest := rest - {first.value};
      list := list + [first.value];
    }
  }

  /** The intents of an authorization that await classification, and those that have it. */
  method RecoveryCandidates(t: Tables, auth: Id) returns (attempts: seq<Id>, classified: seq<Id>)
    ensures InOrdinalOrder(t, attempts) && forall i :: i in attempts <==> Candidate(t, auth, i)
    ensures InOrdinalOrder(t, classified) && forall i :: i in classified <==> ClassifiedFor(t, auth, i)
  {
    attempts := ByOrdinal(t, set i | i in t.intents && Candidate(t, auth, i));
    classified := ByOrdinal(t, set i | i in t.intents && ClassifiedFor(t, auth, i));
  }

  // ---- Recovery records ----

  predicate ClassifiedFor(t: Tables, auth: Id, i: Id) {
    i in t.intents && t.intents[i].authorizationId == auth && t.intents[i].terminal.Classified?
  }

  ghost predicate RecordKept(t: Tables, i: Id) {
    && (i in t.recoveries <==> i in t.intents && t.intents[i].terminal.Classified?)
    && (i in t.intents ==> t.intents[i].authority.attemptId == i)
  }

  /** A recovery row exactly under each classified intent. */
  ghost predicate RecordsKept(t: Tables) {
    forall i {:trigger RecordKept(t, i)} :: RecordKept(t, i)
  }

  lemma ApplyKeepsRecords(t: Tables, e: Event)
    requires RecordsKept(t) && ApplyEvent(t, e).Some?
    ensures RecordsKept(ApplyEvent(t, e).value)
  {
    forall i ensures RecordKept(ApplyEvent(t, e).value, i) {
      assert RecordKept(t, i);
      if e.ActionIntent? {
        assert RecordKept(t, e.authority.attemptId);
      }
    }
  }

  lemma {:induction false} ReplayKeepsRecords(p: Primitives, rows: seq<Row>)
    requires ReplayRows(p, rows).Some?
    ensures RecordsKept(ReplayRows(p, rows).value.tables)
  {
    if rows == [] {
      forall i ensures RecordKept(EmptyTables, i) {
      }
    } else {
      var n := |rows| - 1;
      ReplayKeepsRecords(p, rows[..n]);
      var before := ReplayRows(p, rows[..n]).value;
      ApplyKeepsRecords(before.tables, CheckRow(p, n + 1, before.head, rows[n]).value);
    }
  }

  /** So it is in any store that verifies, whoever wrote it. */
  lemma VerifiedKeepsRecords(p: Primitives, s: Store)
    requires VerifyDatabase(p, s)
    ensures RecordsKept(s.tables)
  {
    ReplayKeepsRecords(p, s.journal);
  }

  function RecordsAt(t: Tables, ids: seq<Id>): (records: seq<RecoveryRecord>)
    requires forall k | 0 <= k < |ids| :: ids[k] in t.recoveries
    ensures |records| == |ids| && forall k | 0 <= k < |ids| :: records[k] == t.recoveries[ids[k]].1
  {
    seq(|ids|, k requires 0 <= k < |ids| => t.recoveries[ids[k]].1)
  }

  predicate RecordBefore(a: RecoveryRecord, b: RecoveryRecord) {
    Less(a.attemptId, b.attemptId)
  }

  lemma RecordsOrdered()
    ensures Sorting.StrictWeakOrder(RecordBefore)
  {
    forall x ensures !RecordBefore(x, x) {
      LessTotal(x.attemptId, x.attemptId);
    }
    forall x, y, z | RecordBefore(x, y) && RecordBefore(y, z) ensures RecordBefore(x, z) {
      LessTransitive(x.attemptId, y.attemptId, z.attemptId);
    }
    forall x, y, z | RecordBefore(x, y) ensures RecordBefore(x, z) || RecordBefore(z, y) {
      LessTotal(x.attemptId, z.attemptId);
    }
  }

  /** What classifying leaves alone, and what it writes. */
  ghost predicate ClassifiesOnly(t: Tables, u: Tables, attempts: seq<Id>) {
    && u.intents.Keys == t.intents.Keys && RecordsKept(u)
    && (forall i | i in t.intents :: u.intents[i] == t.intents[i].(terminal := u.intents[i].terminal))
    && (forall i | i in t.intents && i !in attempts :: u.intents[i] == t.intents[i])
    && (forall i | i in t.recoveries && i !in attempts :: i in u.recoveries && u.recoveries[i] == t.recoveries[i])
    && (forall i | i in attempts :: i in u.intents && u.intents[i].terminal.Classified?)
  }

  lemma ClassifyOneWrites(s: Store, auth: Id, attempt: Id, seen: Option<Observation>)
    requires RecordsKept(s.tables) && ClassifyOne(s, auth, attempt, seen).Ok?
    ensures ClassifiesOnly(s.tables, ClassifyOne(s, auth, attempt, seen).value.store.tables, [attempt])
    ensures attempt !in s.tables.recoveries
  {
    var t, u := s.tables, ClassifyOne(s, auth, attempt, seen).value.store.tables;
    assert RecordKept(t, attempt);
    forall i ensures RecordKept(u, i) {
      assert RecordKept(t, i);
    }
  }

  lemma ClassifiesMore(t: Tables, u: Tables, v: Tables, attempts: seq<Id>, attempt: Id)
    requires ClassifiesOnly(t, u, attempts) && ClassifiesOnly(u, v, [attempt])
    ensures ClassifiesOnly(t, v, attempts + [attempt])
  {
  }

  lemma {:induction false} ClassifyAllWrites(s: Store, auth: Id, attempts: seq<Id>, observe: Id -> Option<Observation>)
    requires RecordsKept(s.tables) && ClassifyAll(s, auth, attempts, observe).Ok?
    ensures ClassifiesOnly(s.tables, ClassifyAll(s, auth, attempts, observe).value.store.tables, attempts)
  {
    if attempts != [] {
      var n := |attempts| - 1;
      ClassifyAllWrites(s, auth, attempts[..n], observe);
      var before := ClassifyAll(s, auth, attempts[..n], observe).value.store;
      ClassifyOneWrites(before, auth, attempts[n], observe(attempts[n]));
      var after := ClassifyAll(s, auth, attempts, observe).value.store;
      ClassifiesMore(s.tables, before.tables, after.tables, attempts[..n], attempts[n]);
      assert attempts == attempts[..n] + [attempts[n]];
    }
  }

  /** `records` are those of exactly the classified intents of `auth`, in some order. */
  ghost predicate RecordsOf(t: Tables, auth: Id, classified: seq<Id>, records: seq<RecoveryRecord>) {
    && (forall i :: i in classified <==> ClassifiedFor(t, auth, i))
    && (forall k | 0 <= k < |classified| :: classified[k] in t.recoveries)
    && multiset(records) == multiset(RecordsAt(t, classified))
  }

  lemma EarlierRecords(t: Tables, auth: Id, earlier: seq<Id>)
    requires RecordsKept(t) && forall i :: i in earlier <==> ClassifiedFor(t, auth, i)
    ensures forall k | 0 <= k < |earlier| :: earlier[k] in t.recoveries
  {
    forall k | 0 <= k < |earlier| ensures earlier[k] in t.recoveries {
      assert earlier[k] in earlier;
      assert RecordKept(t, earlier[k]);
    }
  }

  lemma AllClassified(t: Tables, u: Tables, auth: Id, attempts: seq<Id>, earlier: seq<Id>)
    requires RecordsKept(t) && ClassifiesOnly(t, u, attempts)
    requires (forall i :: i in attempts <==> Candidate(t, auth, i)) && (forall i :: i in earlier <==> ClassifiedFor(t, auth, i))
    ensures forall i :: i in earlier + attempts <==> ClassifiedFor(u, auth, i)
    ensures forall k | 0 <= k < |earlier + attempts| :: (earlier + attempts)[k] in u.recoveries
  {
    forall i ensures i in earlier + attempts <==> ClassifiedFor(u, auth, i) {
      assert i in earlier + attempts <==> i in earlier || i in attempts;
    }
    EarlierRecords(u, auth, earlier + attempts);
  }

  /** Why a reservation conflicts: the earliest blocking intent, or this action's own intent
      with a different request. */
  ghost predicate ConflictExplained(t: Tables, auth: Id, r: IntentRequest, i: Id)
    requires i in t.intents
  {
    if Blocks(t.intents[i], auth, r.sourcePathHash)
    then forall j | j in t.intents && Blocks(t.intents[j], auth, r.sourcePathHash) :: t.intents[i].ordinal <= t.intents[j].ordinal
    else SameAction(t.intents[i], auth, r.actionId) && !MatchesRequest(t.intents[i], r)
  }

  class AuditStore {
    const p: Primitives
    var db: Store

    constructor (p: Primitives, databaseId: Text)
      ensures this.p == p && db == NewStore(databaseId)
    {
      this.p := p;
      db := NewStore(databaseId);
    }

    method RegisterAuthorization(native: bool, b: Binding, stamps: nat -> Stamp) returns (refusal: Option<AuditError>)
      modifies this
      ensures (db, refusal) == Effect(p, old(db), Register(native, b), stamps)
    {
      if !native && !b.source.DeterministicSimulation? {
        return Some(NonSimulationAuthorizationRejected);
      }
      if native && (b.source.DeterministicSimulation? || !b.mode.Permanent? || !AllR4(b)) {
        return Some(NativeAuthorizationRequired);
      }
      if !ValidBinding(b) {
        return Some(AuthorizationBindingMismatch);
      }
      if !VerifyDatabase(p, db) {
        return Some(IntegrityFailure);
      }
      var tx := db;
      if |tx.tables.auths| >= MAX_AUTHORIZATIONS {
        return Some(StateTooLarge);
      }
      if b.authorizationId in tx.tables.auths {
        return Some(AuthorizationAlreadyExists);
      }
      tx := tx.(tables := tx.tables.(auths := tx.tables.auths[b.authorizationId := AuthRow(b.planDigest, b, Unused, None, None)]));
      if ItemRows(b) * tx.items != {} || ActionRows(b).Keys * tx.actions.Keys != {} {
        return Some(ConstraintViolation);
      }
      tx := tx.(items := tx.items + ItemRows(b));
      tx := tx.(actions := tx.actions + ActionRows(b));
      refusal := Commit(tx, [AuthorizationRegistered(b)], stamps);
    }

    /** Appends a transaction's events and commits, or rolls the whole transaction back. */
    method Commit(tx: Store, events: seq<Event>, stamps: nat -> Stamp) returns (refusal: Option<AuditError>)
      modifies this
      ensures match AppendEvents(p, tx, events, stamps)
              case Ok(after) => db == after && refusal.None?
              case Err(e) => db == old(db) && refusal == Some(e)
    {
      var open := tx;
      var done := 0;
      while done < |events|
        invariant 0 <= done <= |events| && db == old(db)
        invariant AppendEvents(p, tx, events[..done], stamps) == Ok(open)
      {
        assert events[..done + 1][..done] == events[..done];
        match AppendEvent(p, open, events[done], stamps(done)) {
          case Err(e) =>
            RefusedAppend(p, tx, events, stamps, done + 1);
            return Some(e);
          case Ok(next) => open := next;
        }
        done := done + 1;
      }
      assert events[..done] == events;
      db := open;
      return None;
    }

    method ClaimSessionFor(auth: Id, planDigest: Id, recovery: bool, executionId: Text, now: int, stamps: nat -> Stamp)
      returns (refusal: Option<AuditError>)
      modifies this
      ensures (db, refusal) == Effect(p, old(db), ClaimSession(auth, planDigest, recovery, executionId, now), stamps)
    {
      if !VerifyDatabase(p, db) {
        return Some(IntegrityFailure);
      }
      var change := ClaimTransaction(auth, planDigest, recovery, executionId, now);
      if change.Err? {
        return Some(change.error);
      }
      refusal := Commit(change.value.store, change.value.events, stamps);
    }

    /** The checks and table updates of a claim, before its event is appended. */
    method ClaimTransaction(auth: Id, planDigest: Id, recovery: bool, executionId: Text, now: int)
      returns (change: Result<Change, AuditError>)
      ensures change == ClaimChange(db, auth, planDigest, recovery, executionId, now)
    {
      var t := db.tables;
      if auth !in t.auths {
        return Err(AuthorizationUnknown);
      }
      var row := t.auths[auth];
      if !ValidBinding(row.binding) {
        return Err(AuthorizationBindingMismatch);
      }
      if row.binding.planDigest != planDigest {
        return Err(PlanDigestMismatch);
      }
      var latest := t.nextFence;
      if latest == I64_MAX {
        return Err(FenceEpochOverflow);
      }
      if !ClockValid(now) {
        return Err(InvalidClock);
      }
      var event;
      if recovery {
        if row.state.Unused? {
          return Err(AuthorizationNotClaimed);
        }
        if row.state.Consumed? {
          return Err(AuthorizationAlreadyConsumed);
        }
        if row.execution.None? || row.fence.None? {
          return Err(HeadMismatch);
        }
        var previous := row.execution.value;
        if !(previous in t.execs && t.execs[previous].fence == row.fence.value && t.execs[previous].state.Active?) {
          return Err(FenceEpochMismatch);
        }
        t := t.(execs := t.execs[previous := t.execs[previous].(state := Superseded, endedAt := Some(now))]);
        event := RecoveryClaimed(auth, previous, executionId, latest + 1, now);
      } else {
        if row.state.Claimed? {
          return Err(AuthorizationAlreadyClaimed);
        }
        if row.state.Consumed? {
          return Err(AuthorizationAlreadyConsumed);
        }
        event := ExecutionClaimed(auth, executionId, latest + 1, now);
      }
      var inserted := InsertExecution(t.execs, executionId,
                                      ExecRow(auth, latest + 1, if recovery then Recovery else Execution, Active, now, None));
      if inserted.None? {
        return Err(ConstraintViolation);
      }
      t := t.(execs := inserted.value);
      t := t.(auths := t.auths[auth := row.(state := Claimed, fence := Some(latest + 1), execution := Some(executionId))]);
      t := t.(nextFence := latest + 1);
      return Ok(Change(db.(tables := t), [event]));
    }

    /** The two lookups before an intent is created. An open intent of another authorization on
        the same path blocks, and the one reported is the earliest reserved. */
    method LookupReservation(c: Claim, r: IntentRequest) returns (found: Option<IntentReservation>)
      requires LiveClaim(db.tables, c) && db.tables.auths[c.binding.authorizationId].binding == c.binding
      ensures found.None? <==> ReserveDecision(db, c, r) == Ok(Created)
      ensures ReserveDecision(db, c, r).Ok?
      ensures found.Some? ==> !found.value.CreatedIntent? && found.value.attempt in db.tables.intents
      ensures found.Some? && found.value.ExistingIntent? ==> MatchesRequest(db.tables.intents[found.value.attempt], r)
      ensures found.Some? && found.value.ConflictingIntent? ==> ConflictExplained(db.tables, c.binding.authorizationId, r, found.value.attempt)
    {
      var t, auth := db.tables, c.binding.authorizationId;
      var blockers := set i | i in t.intents && Blocks(t.intents[i], auth, r.sourcePathHash);
      var blocking := FirstByOrdinal(t, blockers);
      if blocking.Some? {
        return Some(ConflictingIntent(blocking.value));
      }
      var same := set i | i in t.intents && SameAction(t.intents[i], auth, r.actionId);
      var existing := FirstByOrdinal(t, same);
      if existing.Some? {
        if MatchesRequest(t.intents[existing.value], r) {
          return Some(ExistingIntent(existing.value));
        }
        return Some(ConflictingIntent(existing.value));
      }
      assert forall i | i in t.intents :: i !in blockers && i !in same;
      return None;
    }

    /** `reserve_intent_once`: reports what already stands in the way, or creates the intent. */
    method ReserveIntentOnce(c: Claim, r: IntentRequest, attemptId: Id, nonce: Id, stamps: nat -> Stamp)
      returns (refusal: Option<AuditError>, answer: Option<IntentReservation>)
      modifies this
      ensures (db, refusal) == Effect(p, old(db), Reserve(c, r, attemptId, nonce), stamps)
      ensures refusal.None? ==> answer.Some?
      ensures refusal.None? && !answer.value.CreatedIntent? ==> db == old(db) && answer.value.attempt in db.tables.intents
      ensures refusal.None? && answer.value.ExistingIntent? ==> MatchesRequest(db.tables.intents[answer.value.attempt], r)
      ensures refusal.None? && answer.value.ConflictingIntent? ==>
                ConflictExplained(db.tables, c.binding.authorizationId, r, answer.value.attempt)
    {
      answer := None;
      if ClaimGuard(db, c).Some? {
        return ClaimGuard(db, c), None;
      }
      if !RequestAuthorized(c.binding, r) {
        return Some(ActionNotAuthorized), None;
      }
      if !VerifyDatabase(p, db) {
        return Some(IntegrityFailure), None;
      }
      if !LiveClaim(db.tables, c) {
        return Some(FenceEpochMismatch), None;
      }
      if db.tables.auths[c.binding.authorizationId].binding != c.binding {
        return Some(AuthorizationBindingMismatch), None;
      }
      answer := LookupReservation(c, r);
      if answer.Some? {
        return None, answer;
      }
      refusal, answer := CreateIntent(c, r, attemptId, nonce, stamps);
    }

    method CreateIntent(c: Claim, r: IntentRequest, attemptId: Id, nonce: Id, stamps: nat -> Stamp)
      returns (refusal: Option<AuditError>, answer: Option<IntentReservation>)
      requires RequestAuthorized(c.binding, r) && ReserveDecision(db, c, r) == Ok(Created)
      modifies this
      ensures match ReserveChange(old(db), c, r, attemptId, nonce)
              case Err(e) => db == old(db) && refusal == Some(e)
              case Ok(change) =>
                match AppendEvents(p, change.store, change.events, stamps)
                case Err(e) => db == old(db) && refusal == Some(e)
                case Ok(after) => db == after && refusal.None?
      ensures refusal.None? ==> answer.Some? && answer.value.CreatedIntent?
    {
      answer := None;
      var t := db.tables;
      if t.nextOrdinal == I64_MAX {
        return Some(FenceEpochOverflow), None;
      }
      var ordinal := t.nextOrdinal + 1;
      var authority := NewAuthority(db, c, r, attemptId, nonce);
      if attemptId in t.intents || (exists i | i in t.intents :: t.intents[i].nonce == nonce || t.intents[i].ordinal == ordinal)
         || (authority.authorizationId, authority.actionId) !in db.actions {
        return Some(ConstraintViolation), None;
      }
      t := t.(intents := t.intents[attemptId := IntentRowOf(ordinal, authority)]);
      t := t.(nextOrdinal := ordinal);
      refusal := Commit(db.(tables := t), [ActionIntent(authority)], stamps);
      answer := Some(CreatedIntent(authority));
    }

    method RecordOutcomeFor(c: Claim, token: Token, report: Report, stamps: nat -> Stamp) returns (refusal: Option<AuditError>)
      modifies this
      ensures (db, refusal) == Effect(p, old(db), RecordOutcome(c, token, report), stamps)
    {
      if !ClaimMatchesToken(c, token) {
        return Some(AuthorizationBindingMismatch);
      }
      if !token.liveActive {
        return Some(ClaimNotActive);
      }
      if !VerifyDatabase(p, db) {
        return Some(IntegrityFailure);
      }
      var change := OutcomeTransaction(c, token, report);
      if change.Err? {
        return Some(change.error);
      }
      refusal := Commit(change.value.store, change.value.events, stamps);
    }

    /** The checks and table updates of an outcome, before its event is appended. */
    method OutcomeTransaction(c: Claim, token: Token, report: Report) returns (change: Result<Change, AuditError>)
      ensures change == RecordOutcomeChange(p, db, c, token, report)
    {
      var t, attempt := db.tables, token.authority.attemptId;
      if !TokenRowReserved(t, token) {
        return Err(FenceEpochMismatch);
      }
      var binding, authority := t.auths[token.liveAuthorization].binding, t.intents[attempt].authority;
      if !ValidBinding(binding) || !AuthorityMatchesBinding(authority, binding) || authority != token.authority {
        return Err(AuthorizationBindingMismatch);
      }
      if ClaimGuard(db, c).Some? {
        return Err(ClaimGuard(db, c).value);
      }
      if !p.shape(token.authority.mode, report) {
        return Err(InvalidOutcome);
      }
      if !LiveClaim(t, c) {
        return Err(FenceEpochMismatch);
      }
      if attempt in t.outcomes {
        return Err(ConstraintViolation);
      }
      var outcome := Outcome(authority, report);
      t := t.(outcomes := t.outcomes[attempt := outcome]);
      t := t.(intents := t.intents[attempt := t.intents[attempt].(terminal := OutcomeRecorded)]);
      return Ok(Change(db.(tables := t), [ActionOutcome(outcome)]));
    }

    method RecordRecoveryOutcomeFor(c: Claim, attempt: Id, report: Report, stamps: nat -> Stamp) returns (refusal: Option<AuditError>)
      modifies this
      ensures (db, refusal) == Effect(p, old(db), RecordRecoveryOutcome(c, attempt, report), stamps)
    {
      if ClaimGuard(db, c).Some? {
        return ClaimGuard(db, c);
      }
      if !VerifyDatabase(p, db) {
        return Some(IntegrityFailure);
      }
      var t := db.tables;
      if !LiveClaim(t, c) {
        return Some(FenceEpochMismatch);
      }
      if attempt !in t.intents {
        return Some(IntentNotFound);
      }
      var a := t.intents[attempt].authority;
      if a.authorizationId != c.binding.authorizationId || a.batchId != c.binding.batchId
         || a.actionId !in c.binding.itemByAction || c.binding.itemByAction[a.actionId] != a.itemId || c.fence <= a.fence {
        return Some(RecoveryClaimRequired);
      }
      if t.intents[attempt].terminal.OutcomeRecorded? {
        return Some(OutcomeAlreadyExists);
      }
      if !p.shape(a.mode, report) {
        return Some(InvalidOutcome);
      }
      var outcome := Outcome(a, report);
      t := t.(outcomes := t.outcomes[attempt := outcome]);
      t := t.(recoveries := t.recoveries - {attempt});
      t := t.(intents := t.intents[attempt := t.intents[attempt].(terminal := OutcomeRecorded)]);
      refusal := Commit(db.(tables := t), [RecoveryOutcome(outcome, c.fence)], stamps);
    }

    /** The observer phase: every candidate is observed; the first bad observation ends it. */
    method ObserveAll(attempts: seq<Id>, observe: Id -> Option<Observation>) returns (ok: bool)
      requires forall a | a in attempts :: a in db.tables.intents
      ensures ok <==> !exists a | a in attempts :: ObservationRefused(db.tables, a, observe(a))
    {
      var k := 0;
      while k < |attempts|
        invariant 0 <= k <= |attempts| && forall a | a in attempts[..k] :: !ObservationRefused(db.tables, a, observe(a))
      {
        assert attempts[..k + 1] == attempts[..k] + [attempts[k]];
        assert attempts[k] in attempts;
        if ObservationRefused(db.tables, attempts[k], observe(attempts[k])) {
          return false;
        }
        k := k + 1;
      }
      assert attempts[..k] == attempts;
      return true;
    }

    /** The transaction: one record, one state and one event for each candidate. */
    method ClassifyTransaction(auth: Id, attempts: seq<Id>, observe: Id -> Option<Observation>) returns (change: Result<Change, AuditError>)
      ensures change == ClassifyAll(db, auth, attempts, observe)
    {
      var tx, events := db, [];
      var k := 0;
      while k < |attempts|
        invariant 0 <= k <= |attempts|
        invariant ClassifyAll(db, auth, attempts[..k], observe) == Ok(Change(tx, events))
      {
        assert attempts[..k + 1][..k] == attempts[..k];
        match ClassifyOne(tx, auth, attempts[k], observe(attempts[k])) {
          case Err(e) =>
            RefusedClassification(db, auth, attempts, observe, k + 1);
            return Err(e);
          case Ok(step) => tx, events := step.store, events + step.events;
        }
        k := k + 1;
      }
      assert attempts[..k] == attempts;
      return Ok(Change(tx, events));
    }

    /** Classifies the candidates and returns every record the authorization then has. */
    method ClassifyReserved(auth: Id, attempts: seq<Id>, earlier: seq<Id>, observe: Id -> Option<Observation>, stamps: nat -> Stamp)
      returns (refusal: Option<AuditError>, records: seq<RecoveryRecord>)
      requires RecordsKept(db.tables)
      requires forall i :: i in attempts <==> Candidate(db.tables, auth, i)
      requires forall i :: i in earlier <==> ClassifiedFor(db.tables, auth, i)
      modifies this
      ensures match ClassifyAll(old(db), auth, attempts, observe)
              case Err(e) => db == old(db) && refusal == Some(e)
              case Ok(change) =>
                match AppendEvents(p, change.store, change.events, stamps)
                case Err(e) => db == old(db) && refusal == Some(e)
                case Ok(after) => db == after && refusal.None?
      ensures refusal.None? ==> RecordsOf(db.tables, auth, earlier + attempts, records) && Sorting.Sorted(RecordBefore, records)
    {
      records := [];
      var change := ClassifyTransaction(auth, attempts, observe);
      if change.Err? {
        return Some(change.error), [];
      }
      var tx := change.value.store;
      ClassifyAllWrites(db, auth, attempts, observe);
      AllClassified(db.tables, tx.tables, auth, attempts, earlier);
      var found := RecordsAt(tx.tables, earlier + attempts);
      RecordsOrdered();
      Sorting.SortSorts(RecordBefore, found);
      records := Sorting.Sort(RecordBefore, found);
      refusal := Commit(tx, change.value.events, stamps);
      if refusal.None? {
        AppendsKeepTables(p, tx, change.value.events, stamps);
      }
    }

    /** `classify_recovery`: load the candidates, observe them all, then classify them all in one
        transaction. It returns the records of all classified intents of the authorization, by
        attempt; if nothing awaited classification, in the order the intents were reserved. */
    method ClassifyRecoveryFor(c: Claim, observe: Id -> Option<Observation>, stamps: nat -> Stamp)
      returns (refusal: Option<AuditError>, records: seq<RecoveryRecord>, attempts: seq<Id>, ghost classified: seq<Id>)
      modifies this
      ensures (db, refusal) == Effect(p, old(db), ClassifyRecovery(c, attempts, observe), stamps)
      ensures refusal.None? ==> InOrdinalOrder(old(db).tables, attempts)
      ensures refusal.None? ==> forall i :: i in attempts <==> Candidate(old(db).tables, c.binding.authorizationId, i)
      ensures refusal.None? ==> RecordsOf(db.tables, c.binding.authorizationId, classified, records)
      ensures refusal.None? && attempts == [] ==> InOrdinalOrder(db.tables, classified) && records == RecordsAt(db.tables, classified)
      ensures refusal.None? && attempts != [] ==> Sorting.Sorted(RecordBefore, records)
    {
      records, attempts, classified := [], [], [];
      if ClaimGuard(db, c).Some? {
        return ClaimGuard(db, c), [], [], [];
      }
      if !VerifyDatabase(p, db) {
        return Some(IntegrityFailure), [], [], [];
      }
      if !LiveClaim(db.tables, c) {
        return Some(FenceEpochMismatch), [], [], [];
      }
      VerifiedKeepsRecords(p, db);
      var auth := c.binding.authorizationId;
      var earlier;
      attempts, earlier := RecoveryCandidates(db.tables, auth);
      var ok := ObserveAll(attempts, observe);
      if !ok {
        return Some(InvalidRecoveryObservation), [], attempts, [];
      }
      EarlierRecords(db.tables, auth, earlier);
      if |attempts| == 0 {
        return None, RecordsAt(db.tables, earlier), attempts, earlier;
      }
      refusal, records := ClassifyReserved(auth, attempts, earlier, observe, stamps);
      classified := earlier + attempts;
    }

    method ConsumeExecution(c: Claim, now: int, stamps: nat -> Stamp) returns (refusal: Option<AuditError>)
      modifies this
      ensures (db, refusal) == Effect(p, old(db), Consume(c, now), stamps)
    {
      if ClaimGuard(db, c).Some? {
        return ClaimGuard(db, c);
      }
      if !VerifyDatabase(p, db) {
        return Some(IntegrityFailure);
      }
      var t, auth := db.tables, c.binding.authorizationId;
      if auth !in t.auths {
        return Some(AuthorizationUnknown);
      }
      var row := t.auths[auth];
      if row.state.Consumed? && row.fence == Some(c.fence) {
        return None;
      }
      if !row.state.Claimed? || row.fence != Some(c.fence) || row.execution != Some(c.executionId) {
        return Some(FenceEpochMismatch);
      }
      if exists i | i in t.intents :: t.intents[i].authorizationId == auth && !t.intents[i].terminal.OutcomeRecorded? {
        return Some(UnresolvedIntentsRemain);
      }
      t := t.(auths := t.auths[auth := row.(state := Consumed, execution := None)]);
      if !ClockValid(now) {
        return Some(InvalidClock);
      }
      if c.executionId in t.execs && t.execs[c.executionId].state.Active? {
        t := t.(execs := t.execs[c.executionId := t.execs[c.executionId].(state := Ended, endedAt := Some(now))]);
      }
      refusal := Commit(db.(tables := t), [ExecutionConsumed(auth, c.executionId, c.fence, now)], stamps);
    }
  }

  lemma {:induction false} RefusedAppend(p: Primitives, s: Store, events: seq<Event>, stamps: nat -> Stamp, n: nat)
    requires n <= |events| && AppendEvents(p, s, events[..n], stamps).Err?
    ensures AppendEvents(p, s, events, stamps) == AppendEvents(p, s, events[..n], stamps)
  {
    if n == |events| {
      assert events[..n] == events;
    } else {
      assert events[..|events| - 1][..n] == events[..n];
      RefusedAppend(p, s, events[..|events| - 1], stamps, n);
    }
  }

  lemma {:induction false} AppendsKeepTables(p: Primitives, s: Store, events: seq<Event>, stamps: nat -> Stamp)
    requires AppendEvents(p, s, events, stamps).Ok?
    ensures AppendEvents(p, s, events, stamps).value.tables == s.tables
  {
    if events != [] {
      AppendsKeepTables(p, s, events[..|events| - 1], stamps);
    }
  }

  lemma {:induction false} RefusedClassification(s: Store, auth: Id, attempts: seq<Id>, observe: Id -> Option<Observation>, n: nat)
    requires n <= |attempts| && ClassifyAll(s, auth, attempts[..n], observe).Err?
    ensures ClassifyAll(s, auth, attempts, observe) == ClassifyAll(s, auth, attempts[..n], observe)
  {
    if n == |attempts| {
      assert attempts[..n] == attempts;
    } else {
      assert attempts[..|attempts| - 1][..n] == attempts[..n];
      RefusedClassification(s, auth, attempts[..|attempts| - 1], observe, n);
    }
  }
}
