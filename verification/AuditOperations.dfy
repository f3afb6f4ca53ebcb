/** The seven store operations as transactions: the checks each makes, in order, and the
    tables and events it commits. Every refusal leaves the store as it was. */
module AuditOperations {
  import opened Bytes
  import opened Wrappers
  import opened AuditModel
  import opened AuditReplay
  import opened AuditJournal

  /** Clock readings and the size verdict of one appended event. */
  datatype Stamp = Stamp(recordedAt: int, monotonic: Text, tooLarge: bool)

  /** What a transaction wants to commit: its new tables, and the events describing them. */
  datatype Change = Change(store: Store, events: seq<Event>)

  predicate ClockValid(now: int) {
    0 <= now <= I64_MAX
  }

  // ---- Appending ----

  function AppendEvent(p: Primitives, s: Store, e: Event, stamp: Stamp): Result<Store, AuditError> {
    if |s.journal| >= MAX_EVENTS then Err(JournalTooLarge)
    else if s.headSequence == I64_MAX then Err(FenceEpochOverflow)
    else if !ClockValid(stamp.recordedAt) then Err(InvalidClock)
    else if stamp.tooLarge then Err(RecordTooLarge)
    else Ok(AppendRow(s, NextRow(p, s, e, stamp.recordedAt, stamp.monotonic)))
  }

  function AppendEvents(p: Primitives, s: Store, events: seq<Event>, stamps: nat -> Stamp): Result<Store, AuditError> {
    if events == [] then Ok(s)
    else
      var n := |events| - 1;
      match AppendEvents(p, s, events[..n], stamps)
      case Err(e) => Err(e)
      case Ok(before) => AppendEvent(p, before, events[n], stamps(n))
  }

  // ---- Registration ----

  predicate AllR4(b: Binding) {
    forall a | a in b.riskByAction :: b.riskByAction[a].R4?
  }

  function RegistrationGate(native: bool, b: Binding): Option<AuditError> {
    if !native && !b.source.DeterministicSimulation? then Some(NonSimulationAuthorizationRejected)
    else if native && (b.source.DeterministicSimulation? || !b.mode.Permanent? || !AllR4(b)) then Some(NativeAuthorizationRequired)
    else if !ValidBinding(b) then Some(AuthorizationBindingMismatch)
    else None
  }

  function ItemRows(b: Binding): set<(Id, Id)> {
    set item | item in b.itemIds :: (b.authorizationId, item)
  }

  function ActionRows(b: Binding): map<(Id, Id), (Id, RiskTier)>
    requires ValidBinding(b)
  {
    map pair | pair in (set action | action in b.actionIds :: (b.authorizationId, action)) ::
      (b.itemByAction[pair.1], b.riskByAction[pair.1])
  }

  function Registered(t: Tables, b: Binding): Tables {
    t.(auths := t.auths[b.authorizationId := AuthRow(b.planDigest, b, Unused, None, None)])
  }

  function RegisterChange(s: Store, b: Binding): Result<Change, AuditError>
    requires ValidBinding(b)
  {
    var id := b.authorizationId;
    if |s.tables.auths| >= MAX_AUTHORIZATIONS then Err(StateTooLarge)
    else if id in s.tables.auths then Err(AuthorizationAlreadyExists)
    else if ItemRows(b) * s.items != {} || ActionRows(b).Keys * s.actions.Keys != {} then Err(ConstraintViolation)
    else
      Ok(Change(s.(tables := Registered(s.tables, b), items := s.items + ItemRows(b), actions := s.actions + ActionRows(b)),
                [AuthorizationRegistered(b)]))
  }

  // ---- Claiming ----

  function InsertExecution(execs: map<Text, ExecRow>, id: Text, row: ExecRow): Option<map<Text, ExecRow>> {
    if id in execs || exists x | x in execs :: execs[x].fence == row.fence then None
    else Some(execs[id := row])
  }

  /** The executions once a recovery claim has superseded the current one. */
  function SupersededExecs(t: Tables, auth: Id, recovery: bool, now: int): map<Text, ExecRow>
    requires auth in t.auths
    requires recovery ==> t.auths[auth].execution.Some? && t.auths[auth].execution.value in t.execs
  {
    if !recovery then t.execs
    else
      var previous := t.auths[auth].execution.value;
      t.execs[previous := t.execs[previous].(state := Superseded, endedAt := Some(now))]
  }

  function NewExecution(t: Tables, auth: Id, recovery: bool, now: int): ExecRow {
    ExecRow(auth, t.nextFence + 1, if recovery then Recovery else Execution, Active, now, None)
  }

  function Pointed(t: Tables, auth: Id, execution: Text): map<Id, AuthRow>
    requires auth in t.auths
  {
    t.auths[auth := t.auths[auth].(state := Claimed, fence := Some(t.nextFence + 1), execution := Some(execution))]
  }

  function ClaimChange(s: Store, auth: Id, planDigest: Id, recovery: bool, executionId: Text, now: int): Result<Change, AuditError> {
    var t := s.tables;
    if auth !in t.auths then Err(AuthorizationUnknown)
    else
      var row := t.auths[auth];
      if !ValidBinding(row.binding) then Err(AuthorizationBindingMismatch)
      else if row.binding.planDigest != planDigest then Err(PlanDigestMismatch)
      else if t.nextFence == I64_MAX then Err(FenceEpochOverflow)
      else if !ClockValid(now) then Err(InvalidClock)
      else if recovery && row.state.Unused? then Err(AuthorizationNotClaimed)
      else if !recovery && row.state.Claimed? then Err(AuthorizationAlreadyClaimed)
      else if row.state.Consumed? then Err(AuthorizationAlreadyConsumed)
      else if recovery && (row.execution.None? || row.fence.None?) then Err(HeadMismatch)
      else if recovery && !(row.execution.value in t.execs && t.execs[row.execution.value].fence == row.fence.value
                            && t.execs[row.execution.value].state.Active?) then Err(FenceEpochMismatch)
      else
        match InsertExecution(SupersededExecs(t, auth, recovery, now), executionId, NewExecution(t, auth, recovery, now))
        case None => Err(ConstraintViolation)
        case Some(execs) =>
          var fence := t.nextFence + 1;
          var event := if recovery then RecoveryClaimed(auth, row.execution.value, executionId, fence, now)
                       else ExecutionClaimed(auth, executionId, fence, now);
          Ok(Change(s.(tables := t.(execs := execs, nextFence := fence, auths := Pointed(t, auth, executionId))), [event]))
  }

  // ---- Claims and tokens ----

  /** `validate_live_claim`: the claim's execution is its authorization's current, active one. */
  predicate LiveClaim(t: Tables, c: Claim) {
    var auth := c.binding.authorizationId;
    && auth in t.auths
    && t.auths[auth].state.Claimed?
    && t.auths[auth].execution == Some(c.executionId)
    && t.auths[auth].fence == Some(c.fence)
    && c.executionId in t.execs
    && t.execs[c.executionId].state.Active?
    && t.execs[c.executionId].fence == c.fence
  }

  function ClaimGuard(s: Store, c: Claim): Option<AuditError> {
    if !c.active then Some(ClaimNotActive)
    else if c.databaseId != s.databaseId then Some(AuthorizationBindingMismatch)
    else None
  }

  predicate ClaimMatchesToken(c: Claim, token: Token) {
    var a := token.authority;
    && a.databaseId == c.databaseId
    && a.executionId == c.executionId
    && a.fence == c.fence
    && AuthorityMatchesBinding(a, c.binding)
  }

  /** The persisted row a token must still point at: reserved, under its own live claim. */
  predicate TokenRowReserved(t: Tables, token: Token) {
    var auth, execution, attempt := token.liveAuthorization, token.liveExecution, token.authority.attemptId;
    && auth in t.auths
    && t.auths[auth].state.Claimed?
    && t.auths[auth].execution == Some(execution)
    && t.auths[auth].fence == Some(token.liveFence)
    && execution in t.execs
    && t.execs[execution].state.Active?
    && t.execs[execution].authorizationId == auth
    && t.execs[execution].fence == token.liveFence
    && attempt in t.intents
    && t.intents[attempt].executionId == execution
    && t.intents[attempt].authorizationId == auth
    && t.intents[attempt].fence == token.liveFence
    && t.intents[attempt].terminal.Reserved?
  }

  // ---- Reserving ----

  datatype Reservation = Created | Existing | Conflicting

  /** Another authorization's unresolved intent on the same source path. */
  predicate Blocks(row: IntentRow, auth: Id, pathHash: Id) {
    && row.authorizationId != auth
    && (row.terminal == Reserved || row.terminal == Classified(Indeterminate))
    && row.authority.sourcePathHash == pathHash
  }

  predicate MatchesRequest(row: IntentRow, r: IntentRequest) {
    && row.itemId == r.itemId && row.actionId == r.actionId
    && row.authority.sourcePathHash == r.sourcePathHash
    && row.authority.revalidationDigest == r.revalidationDigest
  }

  predicate SameAction(row: IntentRow, auth: Id, action: Id) {
    row.authorizationId == auth && row.actionId == action
  }

  function NewAuthority(s: Store, c: Claim, r: IntentRequest, attemptId: Id, nonce: Id): Authority
    requires r.actionId in c.binding.riskByAction
  {
    var b := c.binding;
    Authority(attemptId, nonce, s.databaseId, c.executionId, b.authorizationId, b.source, b.batchId, b.planId,
              b.planDigest, r.itemId, r.actionId, b.mode, b.riskByAction[r.actionId], r.sourcePathHash,
              r.revalidationDigest, c.fence, b.policy)
  }

  predicate RequestAuthorized(b: Binding, r: IntentRequest) {
    && r.actionId in b.itemByAction && b.itemByAction[r.actionId] == r.itemId
    && r.actionId in b.riskByAction
  }

  /** Which of the three answers a reservation gets; only `Created` writes anything. */
  function ReserveDecision(s: Store, c: Claim, r: IntentRequest): Result<Reservation, AuditError> {
    var t, auth := s.tables, c.binding.authorizationId;
    if !LiveClaim(t, c) then Err(FenceEpochMismatch)
    else if t.auths[auth].binding != c.binding then Err(AuthorizationBindingMismatch)
    else if exists i | i in t.intents :: Blocks(t.intents[i], auth, r.sourcePathHash) then Ok(Conflicting)
    else if exists i | i in t.intents :: SameAction(t.intents[i], auth, r.actionId) then
      if exists i | i in t.intents :: SameAction(t.intents[i], auth, r.actionId) && MatchesRequest(t.intents[i], r)
      then Ok(Existing) else Ok(Conflicting)
    else Ok(Created)
  }

  function WithIntent(t: Tables, a: Authority): Tables {
    t.(intents := t.intents[a.attemptId := IntentRowOf(t.nextOrdinal + 1, a)], nextOrdinal := t.nextOrdinal + 1)
  }

  function ReserveChange(s: Store, c: Claim, r: IntentRequest, attemptId: Id, nonce: Id): Result<Change, AuditError>
    requires RequestAuthorized(c.binding, r)
  {
    match ReserveDecision(s, c, r)
    case Err(e) => Err(e)
    case Ok(Existing) => Ok(Change(s, []))
    case Ok(Conflicting) => Ok(Change(s, []))
    case Ok(Created) =>
      var t := s.tables;
      if t.nextOrdinal == I64_MAX then Err(FenceEpochOverflow)
      else
        var ordinal := t.nextOrdinal + 1;
        var a := NewAuthority(s, c, r, attemptId, nonce);
        if attemptId in t.intents || (exists i | i in t.intents :: t.intents[i].nonce == nonce || t.intents[i].ordinal == ordinal)
           || (a.authorizationId, a.actionId) !in s.actions then Err(ConstraintViolation)
        else Ok(Change(s.(tables := WithIntent(t, a)), [ActionIntent(a)]))
  }

  // ---- Outcomes ----

  function Terminated(t: Tables, attempt: Id, terminal: Terminal): map<Id, IntentRow>
    requires attempt in t.intents
  {
    t.intents[attempt := t.intents[attempt].(terminal := terminal)]
  }

  function RecordOutcomeChange(p: Primitives, s: Store, c: Claim, token: Token, report: Report): Result<Change, AuditError> {
    var t, attempt := s.tables, token.authority.attemptId;
    if !TokenRowReserved(t, token) then Err(FenceEpochMismatch)
    else if !ValidBinding(t.auths[token.liveAuthorization].binding)
            || !AuthorityMatchesBinding(t.intents[attempt].authority, t.auths[token.liveAuthorization].binding)
            || t.intents[attempt].authority != token.authority then Err(AuthorizationBindingMismatch)
    else if ClaimGuard(s, c).Some? then Err(ClaimGuard(s, c).value)
    else if !p.shape(token.authority.mode, report) then Err(InvalidOutcome)
    else if !LiveClaim(t, c) then Err(FenceEpochMismatch)
    else if attempt in t.outcomes then Err(ConstraintViolation)
    else
      var o := Outcome(t.intents[attempt].authority, report);
      Ok(Change(s.(tables := t.(outcomes := t.outcomes[attempt := o], intents := Terminated(t, attempt, OutcomeRecorded))),
                [ActionOutcome(o)]))
  }

  function RecoveryOutcomeChange(p: Primitives, s: Store, c: Claim, attempt: Id, report: Report): Result<Change, AuditError> {
    var t, b := s.tables, c.binding;
    if !LiveClaim(t, c) then Err(FenceEpochMismatch)
    else if attempt !in t.intents then Err(IntentNotFound)
    else
      var a := t.intents[attempt].authority;
      if a.authorizationId != b.authorizationId || a.batchId != b.batchId
         || a.actionId !in b.itemByAction || b.itemByAction[a.actionId] != a.itemId
         || c.fence <= a.fence then Err(RecoveryClaimRequired)
      else if t.intents[attempt].terminal.OutcomeRecorded? then Err(OutcomeAlreadyExists)
      else if !p.shape(a.mode, report) then Err(InvalidOutcome)
      else
        var o := Outcome(a, report);
        Ok(Change(s.(tables := t.(outcomes := t.outcomes[attempt := o], recoveries := t.recoveries - {attempt},
                                  intents := Terminated(t, attempt, OutcomeRecorded))),
                  [RecoveryOutcome(o, c.fence)]))
  }

  // ---- Classification ----

  function RecordOf(a: Authority, d: Disposition): RecoveryRecord {
    RecoveryRecord(a.batchId, a.authorizationId, a.actionId, a.attemptId, d)
  }

  /** Classifies one reserved intent of `auth` from its observation; None is an observer error. */
  function ClassifyOne(s: Store, auth: Id, attempt: Id, seen: Option<Observation>): Result<Change, AuditError> {
    var t := s.tables;
    if attempt !in t.intents || t.intents[attempt].authorizationId != auth then Err(IntentNotFound)
    else
      var row := t.intents[attempt];
      if seen.None? || ClassifyObservation(row.authority.mode, seen.value).None? then Err(InvalidRecoveryObservation)
      else if !row.terminal.Reserved? then Err(OutcomeAlreadyExists)
      else if row.authority.attemptId in t.recoveries then Err(ConstraintViolation)
      else
        var a, d := row.authority, ClassifyObservation(row.authority.mode, seen.value).value;
        Ok(Change(s.(tables := t.(recoveries := t.recoveries[a.attemptId := (d, RecordOf(a, d))],
                                  intents := Terminated(t, attempt, Classified(d)))),
                  [RecoveryClassification(a, RecordOf(a, d))]))
  }

  function ClassifyAll(s: Store, auth: Id, attempts: seq<Id>, observe: Id -> Option<Observation>): Result<Change, AuditError> {
    if attempts == [] then Ok(Change(s, []))
    else
      var n := |attempts| - 1;
      match ClassifyAll(s, auth, attempts[..n], observe)
      case Err(e) => Err(e)
      case Ok(before) =>
        match ClassifyOne(before.store, auth, attempts[n], observe(attempts[n]))
        case Err(e) => Err(e)
        case Ok(step) => Ok(Change(step.store, before.events + step.events))
  }

  /** An observer error, or an observation that contradicts itself. */
  predicate ObservationRefused(t: Tables, attempt: Id, seen: Option<Observation>) {
    attempt in t.intents && (seen.None? || ClassifyObservation(t.intents[attempt].authority.mode, seen.value).None?)
  }

  /** Everything is observed before anything is classified. */
  function ClassifyChange(s: Store, c: Claim, attempts: seq<Id>, observe: Id -> Option<Observation>): Result<Change, AuditError> {
    if !LiveClaim(s.tables, c) then Err(FenceEpochMismatch)
    else if exists a | a in attempts :: ObservationRefused(s.tables, a, observe(a)) then Err(InvalidRecoveryObservation)
    else ClassifyAll(s, c.binding.authorizationId, attempts, observe)
  }

  // ---- Consuming ----

  predicate Unresolved(t: Tables, auth: Id) {
    exists i | i in t.intents :: t.intents[i].authorizationId == auth && !t.intents[i].terminal.OutcomeRecorded?
  }

  function Retired(t: Tables, auth: Id): map<Id, AuthRow>
    requires auth in t.auths
  {
    t.auths[auth := t.auths[auth].(state := Consumed, execution := None)]
  }

  function EndedExecs(t: Tables, execution: Text, now: int): map<Text, ExecRow> {
    if execution in t.execs && t.execs[execution].state.Active?
    then t.execs[execution := t.execs[execution].(state := Ended, endedAt := Some(now))] else t.execs
  }

  /** Consuming twice under one fence succeeds without a second event. The execution row is
      updated only where it is active, and the number of updated rows is not checked. */
  function ConsumeChange(s: Store, c: Claim, now: int): Result<Change, AuditError> {
    var t, auth := s.tables, c.binding.authorizationId;
    if auth !in t.auths then Err(AuthorizationUnknown)
    else
      var row := t.auths[auth];
      if row.state.Consumed? && row.fence == Some(c.fence) then Ok(Change(s, []))
      else if !row.state.Claimed? || row.fence != Some(c.fence) || row.execution != Some(c.executionId) then Err(FenceEpochMismatch)
      else if Unresolved(t, auth) then Err(UnresolvedIntentsRemain)
      else if !ClockValid(now) then Err(InvalidClock)
      else
        Ok(Change(s.(tables := t.(auths := Retired(t, auth), execs := EndedExecs(t, c.executionId, now))),
                  [ExecutionConsumed(auth, c.executionId, c.fence, now)]))
  }

  // ---- Operations over runs ----

  datatype Operation =
    | Register(native: bool, binding: Binding)
    | ClaimSession(authorizationId: Id, planDigest: Id, recovery: bool, executionId: Text, now: int)
    | Reserve(claim: Claim, request: IntentRequest, attemptId: Id, nonce: Id)
    | RecordOutcome(claim: Claim, token: Token, report: Report)
    | RecordRecoveryOutcome(claim: Claim, attemptId: Id, report: Report)
    | ClassifyRecovery(claim: Claim, attempts: seq<Id>, observe: Id -> Option<Observation>)
    | Consume(claim: Claim, now: int)

  /** What is refused before the store is even opened. */
  function Precheck(s: Store, op: Operation): Option<AuditError> {
    match op
    case Register(native, b) => RegistrationGate(native, b)
    case ClaimSession(_, _, _, _, _) => None
    case Reserve(c, r, _, _) =>
      if ClaimGuard(s, c).Some? then ClaimGuard(s, c)
      else if !RequestAuthorized(c.binding, r) then Some(ActionNotAuthorized) else None
    case RecordOutcome(c, token, _) =>
      if !ClaimMatchesToken(c, token) then Some(AuthorizationBindingMismatch)
      else if !token.liveActive then Some(ClaimNotActive) else None
    case RecordRecoveryOutcome(c, _, _) => ClaimGuard(s, c)
    case ClassifyRecovery(c, _, _) => ClaimGuard(s, c)
    case Consume(c, _) => ClaimGuard(s, c)
  }

  function ChangeOf(p: Primitives, s: Store, op: Operation): Result<Change, AuditError>
    requires Precheck(s, op).None?
  {
    match op
    case Register(_, b) => RegisterChange(s, b)
    case ClaimSession(auth, plan, recovery, execution, now) => ClaimChange(s, auth, plan, recovery, execution, now)
    case Reserve(c, r, attempt, nonce) => ReserveChange(s, c, r, attempt, nonce)
    case RecordOutcome(c, token, report) => RecordOutcomeChange(p, s, c, token, report)
    case RecordRecoveryOutcome(c, attempt, report) => RecoveryOutcomeChange(p, s, c, attempt, report)
    case ClassifyRecovery(c, attempts, observe) => ClassifyChange(s, c, attempts, observe)
    case Consume(c, now) => ConsumeChange(s, c, now)
  }

  /** One operation: prechecks, whole-store verification, the transaction, and its events. */
  function Perform(p: Primitives, s: Store, op: Operation, stamps: nat -> Stamp): Result<Store, AuditError> {
    if Precheck(s, op).Some? then Err(Precheck(s, op).value)
    else if !VerifyDatabase(p, s) then Err(IntegrityFailure)
    else
      match ChangeOf(p, s, op)
      case Err(e) => Err(e)
      case Ok(change) => AppendEvents(p, change.store, change.events, stamps)
  }

  /** The store afterwards: a refused operation rolls back. */
  function Execute(p: Primitives, s: Store, op: Operation, stamps: nat -> Stamp): Store {
    match Perform(p, s, op, stamps) case Ok(after) => after case Err(_) => s
  }

  datatype Call = Call(op: Operation, stamps: nat -> Stamp)

  /** The store after any sequence of calls. */
  function RunFrom(p: Primitives, s: Store, calls: seq<Call>): Store {
    if calls == [] then s
    else
      var n := |calls| - 1;
      Execute(p, RunFrom(p, s, calls[..n]), calls[n].op, calls[n].stamps)
  }

  /** The store after any sequence of calls on a fresh database. */
  function Run(p: Primitives, databaseId: Text, calls: seq<Call>): Store {
    RunFrom(p, NewStore(databaseId), calls)
  }
}
