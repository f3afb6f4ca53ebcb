/** Fencing and attempt lifecycle over whole runs of the audit store. */
module AuditLifecycle {
  import opened Bytes
  import opened Wrappers
  import opened AuditModel
  import opened AuditReplay
  import opened AuditJournal
  import opened AuditOperations
  import opened AuditInvariants

  // ---- What a state says about fences ----

  /** The fence epochs of all executions are exactly 1..nextFence, each used once. */
  lemma EpochsExact(p: Primitives, databaseId: Text, calls: seq<Call>, f: int)
    requires Lawful(p)
    ensures var t := Run(p, databaseId, calls).tables;
            && (HasFence(t, f) <==> 1 <= f <= t.nextFence)
            && (forall x, y | x in t.execs && y in t.execs && t.execs[x].fence == t.execs[y].fence == f :: x == y)
  {
    RunsVerify(p, databaseId, calls);
    var t := Run(p, databaseId, calls).tables;
    if HasFence(t, f) {
      var x :| x in t.execs && t.execs[x].fence == f;
      assert ExecOk(t, x);
    }
    forall x, y | x in t.execs && y in t.execs && t.execs[x].fence == t.execs[y].fence == f ensures x == y {
      assert SameFence(t.execs[x], t.execs[y]);
    }
  }

  ghost predicate ActiveFor(t: Tables, a: Id, x: Text) {
    x in t.execs && t.execs[x].authorizationId == a && t.execs[x].state.Active?
  }

  lemma OneActive(t: Tables, a: Id, x: Text, y: Text)
    requires ExecutionsOk(t) && a in t.auths && ActiveFor(t, a, x) && y in t.execs && t.execs[y].authorizationId == a
    ensures t.auths[a].state.Claimed? && t.auths[a].execution == Some(x)
    ensures y == x || (t.execs[y].fence < t.execs[x].fence && !t.execs[y].state.Active?)
  {
    assert AuthOk(t, a) && ExecOk(t, x) && ExecOk(t, y);
    assert SameFence(t.execs[x], t.execs[y]) ==> x == y;
  }

  /** An authorization is claimed iff it has an active execution; then it has exactly one, its
      current one, and every other execution of it carries a lower fence. */
  lemma ClaimedIffOneActive(p: Primitives, databaseId: Text, calls: seq<Call>, a: Id)
    requires Lawful(p)
    requires a in Run(p, databaseId, calls).tables.auths
    ensures var t := Run(p, databaseId, calls).tables;
            && (t.auths[a].state.Claimed? <==> exists x :: ActiveFor(t, a, x))
            && forall x, y | ActiveFor(t, a, x) && y in t.execs && t.execs[y].authorizationId == a ::
                 && t.auths[a].execution == Some(x)
                 && (y == x || (t.execs[y].fence < t.execs[x].fence && !t.execs[y].state.Active?))
  {
    RunsVerify(p, databaseId, calls);
    var t := Run(p, databaseId, calls).tables;
    if t.auths[a].state.Claimed? {
      assert AuthOk(t, a);
      assert ActiveFor(t, a, t.auths[a].execution.value);
    }
    forall x, y | ActiveFor(t, a, x) && y in t.execs && t.execs[y].authorizationId == a
      ensures t.auths[a].state.Claimed? && t.auths[a].execution == Some(x)
      ensures y == x || (t.execs[y].fence < t.execs[x].fence && !t.execs[y].state.Active?)
    {
      OneActive(t, a, x, y);
    }
    if x :| ActiveFor(t, a, x) {
      OneActive(t, a, x, x);
    }
  }

  /** At most one attempt per authorization and action; outcomes and recoveries exactly where
      the intent says; a consumed authorization holds recorded outcomes only; and two open
      intents of different authorizations never share a source path. */
  lemma AttemptsOrdered(p: Primitives, databaseId: Text, calls: seq<Call>, i: Id, j: Id)
    requires Lawful(p)
    requires i in Run(p, databaseId, calls).tables.intents && j in Run(p, databaseId, calls).tables.intents
    ensures var t := Run(p, databaseId, calls).tables;
            var r, s := t.intents[i], t.intents[j];
            && (r.authorizationId == s.authorizationId && r.actionId == s.actionId ==> i == j)
            && (i in t.outcomes <==> r.terminal.OutcomeRecorded?)
            && (i in t.recoveries <==> r.terminal.Classified?)
            && (i in t.recoveries ==> t.recoveries[i].0 == r.terminal.disposition)
            && r.authorizationId in t.auths
            && (t.auths[r.authorizationId].state.Consumed? ==> i in t.outcomes && t.outcomes[i].authority == r.authority)
            && !(Open(r) && Open(s) && r.authorizationId != s.authorizationId && r.sourcePathHash == s.sourcePathHash)
  {
    RunsVerify(p, databaseId, calls);
    var t := Run(p, databaseId, calls).tables;
    assert IntentOk(t, i) && IntentOk(t, j) && ResultOk(t, i);
    assert SameAttempt(t.intents[i], t.intents[j].authority) ==> i == j;
    assert !Clash(t.intents[i], t.intents[j]);
  }

  // ---- What no operation undoes ----

  /** Only the terminal state of an intent ever changes, and a recorded one never does. */
  predicate IntentMoves(r: IntentRow, s: IntentRow) {
    && s == r.(terminal := s.terminal)
    && (r.terminal.OutcomeRecorded? ==> s == r)
    && (s.terminal.Reserved? ==> r.terminal.Reserved?)
  }

  /** Only the state and end of an execution ever change, and an inactive one never does. */
  predicate ExecMoves(e: ExecRow, f: ExecRow) {
    f == e.(state := f.state, endedAt := f.endedAt) && (!e.state.Active? ==> f == e)
  }

  /** A binding never changes, fences only rise, and a consumed row never changes. */
  predicate AuthMoves(a: AuthRow, b: AuthRow) {
    && a.binding == b.binding && a.planDigest == b.planDigest
    && (a.state.Consumed? ==> b == a)
    && (b.state.Unused? ==> a.state.Unused?)
    && (a.fence.Some? ==> b.fence.Some? && a.fence.value <= b.fence.value)
  }

  ghost predicate Consumed(t: Tables, a: Id) {
    a in t.auths && t.auths[a].state.Consumed?
  }

  ghost predicate AuthKept(t: Tables, u: Tables, a: Id) {
    a in t.auths ==> a in u.auths && AuthMoves(t.auths[a], u.auths[a])
  }

  ghost predicate ExecKept(t: Tables, u: Tables, x: Text) {
    && (x in t.execs ==> x in u.execs && ExecMoves(t.execs[x], u.execs[x]))
    && (x in u.execs && x !in t.execs ==> !Consumed(t, u.execs[x].authorizationId))
  }

  ghost predicate AttemptKept(t: Tables, u: Tables, i: Id) {
    && (i in t.intents ==> i in u.intents && IntentMoves(t.intents[i], u.intents[i]))
    && (i in u.intents && i !in t.intents ==> !Consumed(t, u.intents[i].authorizationId))
    && (i in t.outcomes ==> i in u.outcomes && u.outcomes[i] == t.outcomes[i])
  }

  /** From `t`, `u` is a later state: rows move forward only, no outcome is replaced or lost,
      and a consumed authorization gains no execution and no intent. */
  ghost predicate Later(t: Tables, u: Tables) {
    && (forall a :: AuthKept(t, u, a))
    && (forall x :: ExecKept(t, u, x))
    && (forall i :: AttemptKept(t, u, i))
    && t.nextFence <= u.nextFence && t.nextOrdinal <= u.nextOrdinal
  }

  lemma LaterTrans(t: Tables, u: Tables, v: Tables)
    requires Later(t, u) && Later(u, v)
    ensures Later(t, v)
  {
    forall a ensures AuthKept(t, v, a) {
      assert AuthKept(t, u, a) && AuthKept(u, v, a);
    }
    forall x ensures ExecKept(t, v, x) {
      assert ExecKept(t, u, x) && ExecKept(u, v, x);
      if x in v.execs {
        assert AuthKept(t, u, v.execs[x].authorizationId);
      }
    }
    forall i ensures AttemptKept(t, v, i) {
      assert AttemptKept(t, u, i) && AttemptKept(u, v, i);
      if i in v.intents {
        assert AuthKept(t, u, v.intents[i].authorizationId);
      }
    }
  }

  /** What a consumed authorization still shows in any later state is what it showed then. */
  lemma ConsumedFrozen(t: Tables, u: Tables, a: Id)
    requires Invariant(t) && Later(t, u) && Consumed(t, a)
    ensures a in u.auths && u.auths[a] == t.auths[a]
    ensures forall i | i in u.intents && u.intents[i].authorizationId == a ::
              i in t.intents && u.intents[i] == t.intents[i] && i in u.outcomes && i in t.outcomes && u.outcomes[i] == t.outcomes[i]
    ensures forall x | x in u.execs && u.execs[x].authorizationId == a :: x in t.execs && u.execs[x] == t.execs[x]
  {
    assert AuthKept(t, u, a);
    forall i | i in u.intents && u.intents[i].authorizationId == a
      ensures i in t.intents && u.intents[i] == t.intents[i] && i in u.outcomes && i in t.outcomes && u.outcomes[i] == t.outcomes[i]
    {
      assert AttemptKept(t, u, i);
      assert IntentOk(t, i) && ResultOk(t, i);
    }
    forall x | x in u.execs && u.execs[x].authorizationId == a ensures x in t.execs && u.execs[x] == t.execs[x] {
      assert ExecKept(t, u, x);
      assert ExecOk(t, x) && AuthOk(t, a);
    }
  }

  lemma RegisterLater(t: Tables, b: Binding)
    requires b.authorizationId !in t.auths
    ensures Later(t, Registered(t, b))
  {
  }

  lemma ClaimLater(t: Tables, auth: Id, recovery: bool, execution: Text, now: int)
    requires ExecsOk(t) && ClaimAllowed(t, auth, recovery, execution) && AuthOk(t, auth)
    ensures Later(t, ClaimTables(t, auth, recovery, execution, now))
  {
    if recovery {
      assert ExecOk(t, t.auths[auth].execution.value);
    }
  }

  lemma IntentLater(t: Tables, a: Authority)
    requires a.attemptId !in t.intents && a.authorizationId in t.auths && t.auths[a.authorizationId].state.Claimed?
    ensures Later(t, WithIntent(t, a))
  {
  }

  lemma OutcomeLater(t: Tables, attempt: Id, o: Outcome)
    requires attempt in t.intents && ResultOk(t, attempt) && !t.intents[attempt].terminal.OutcomeRecorded?
    ensures Later(t, OutcomeTables(t, attempt, o))
  {
  }

  lemma ClassifyLater(t: Tables, attempt: Id, d: Disposition)
    requires attempt in t.intents && t.intents[attempt].terminal.Reserved?
    ensures Later(t, ClassifyTables(t, attempt, d))
  {
  }

  lemma ConsumeLater(t: Tables, auth: Id, execution: Text, now: int)
    requires auth in t.auths && t.auths[auth].state.Claimed?
    ensures Later(t, ConsumeTables(t, auth, execution, now))
  {
  }

  lemma {:induction false} ClassifyAllLater(s: Store, auth: Id, attempts: seq<Id>, observe: Id -> Option<Observation>)
    requires Invariant(s.tables) && DetailsOk(s)
    requires ClassifyAll(s, auth, attempts, observe).Ok?
    ensures Later(s.tables, ClassifyAll(s, auth, attempts, observe).value.store.tables)
  {
    if attempts != [] {
      var n := |attempts| - 1;
      ClassifyAllSound(s, auth, attempts[..n], observe);
      ClassifyAllLater(s, auth, attempts[..n], observe);
      var t := ClassifyAll(s, auth, attempts[..n], observe).value.store.tables;
      var a := t.intents[attempts[n]].authority;
      var d := ClassifyObservation(a.mode, observe(attempts[n]).value).value;
      ClassifyLater(t, attempts[n], d);
      LaterTrans(s.tables, t, ClassifyTables(t, attempts[n], d));
    }
  }

  lemma RecordChangeLater(p: Primitives, s: Store, op: Operation)
    requires Invariant(s.tables) && (op.RecordOutcome? || op.RecordRecoveryOutcome?)
    requires Precheck(s, op).None? && ChangeOf(p, s, op).Ok?
    ensures Later(s.tables, ChangeOf(p, s, op).value.store.tables)
  {
    var t := s.tables;
    var attempt := if op.RecordOutcome? then op.token.authority.attemptId else op.attemptId;
    assert ResultOk(t, attempt);
    if op.RecordOutcome? {
      RecordOutcomeShape(p, s, op.claim, op.token, op.report);
    }
    OutcomeLater(t, attempt, Outcome(t.intents[attempt].authority, op.report));
  }

  lemma ReserveChangeLater(s: Store, c: Claim, r: IntentRequest, attempt: Id, nonce: Id)
    requires RequestAuthorized(c.binding, r) && ReserveChange(s, c, r, attempt, nonce).Ok?
    ensures Later(s.tables, ReserveChange(s, c, r, attempt, nonce).value.store.tables)
  {
    if ReserveDecision(s, c, r) == Ok(Created) {
      IntentLater(s.tables, NewAuthority(s, c, r, attempt, nonce));
    }
  }

  lemma ClaimChangeLater(s: Store, auth: Id, plan: Id, recovery: bool, execution: Text, now: int)
    requires Invariant(s.tables) && ClaimChange(s, auth, plan, recovery, execution, now).Ok?
    ensures Later(s.tables, ClaimChange(s, auth, plan, recovery, execution, now).value.store.tables)
  {
    assert AuthOk(s.tables, auth);
    ClaimShape(s, auth, plan, recovery, execution, now);
    ClaimLater(s.tables, auth, recovery, execution, now);
  }

  lemma ChangeLater(p: Primitives, s: Store, op: Operation)
    requires Invariant(s.tables) && DetailsOk(s)
    requires Precheck(s, op).None? && ChangeOf(p, s, op).Ok?
    ensures Later(s.tables, ChangeOf(p, s, op).value.store.tables)
  {
    match op
    case Register(_, b) => RegisterLater(s.tables, b);
    case ClaimSession(auth, plan, recovery, execution, now) => ClaimChangeLater(s, auth, plan, recovery, execution, now);
    case Reserve(c, r, attempt, nonce) => ReserveChangeLater(s, c, r, attempt, nonce);
    case RecordOutcome(_, _, _) => RecordChangeLater(p, s, op);
    case RecordRecoveryOutcome(_, _, _) => RecordChangeLater(p, s, op);
    case ClassifyRecovery(c, attempts, observe) => ClassifyAllLater(s, c.binding.authorizationId, attempts, observe);
    case Consume(c, now) =>
      if ConsumeChange(s, c, now).value.events != [] {
        ConsumeLater(s.tables, c.binding.authorizationId, c.executionId, now);
      }
  }

  lemma ExecuteTables(p: Primitives, s: Store, op: Operation, stamps: nat -> Stamp)
    requires Lawful(p) && Honest(p, s) && Perform(p, s, op, stamps).Ok?
    ensures Execute(p, s, op, stamps).tables == ChangeOf(p, s, op).value.store.tables
    ensures s.journal <= Execute(p, s, op, stamps).journal
  {
    ChangeSound(p, s, op);
    AppendsReplay(p, ChangeOf(p, s, op).value.store, s.tables, ChangeOf(p, s, op).value.events, stamps);
    AppendsExtend(p, ChangeOf(p, s, op).value.store, ChangeOf(p, s, op).value.events, stamps);
  }

  lemma {:induction false} AppendsExtend(p: Primitives, s: Store, events: seq<Event>, stamps: nat -> Stamp)
    requires AppendEvents(p, s, events, stamps).Ok?
    ensures s.journal <= AppendEvents(p, s, events, stamps).value.journal
  {
    if events != [] {
      AppendsExtend(p, s, events[..|events| - 1], stamps);
    }
  }

  /** Over any run, every state is a later one and the journal only grows: no outcome is ever
      replaced, and nothing of a consumed authorization changes again. */
  lemma {:induction false} RunsMoveForward(p: Primitives, s: Store, calls: seq<Call>)
    requires Lawful(p) && Honest(p, s)
    ensures Later(s.tables, RunFrom(p, s, calls).tables)
    ensures s.journal <= RunFrom(p, s, calls).journal
  {
    if calls != [] {
      var n := |calls| - 1;
      var before := RunFrom(p, s, calls[..n]);
      RunsMoveForward(p, s, calls[..n]);
      RunsKeepHonesty(p, s, calls[..n]);
      if Perform(p, before, calls[n].op, calls[n].stamps).Ok? {
        ExecuteTables(p, before, calls[n].op, calls[n].stamps);
        ChangeLater(p, before, calls[n].op);
        LaterTrans(s.tables, before.tables, RunFrom(p, s, calls).tables);
      }
    }
  }

  // ---- Fencing ----

  /** The claim an operation acts under, if it acts under one. */
  function ActingClaim(op: Operation): Option<Claim> {
    match op
    case Reserve(c, _, _, _) => Some(c)
    case RecordOutcome(c, _, _) => Some(c)
    case RecordRecoveryOutcome(c, _, _) => Some(c)
    case ClassifyRecovery(c, _, _) => Some(c)
    case Consume(c, _) => Some(c)
    case _ => None
  }

  predicate Stale(t: Tables, c: Claim) {
    c.binding.authorizationId in t.auths && t.auths[c.binding.authorizationId].fence != Some(c.fence)
  }

  lemma StaleRecordsNothing(p: Primitives, s: Store, c: Claim, token: Token, report: Report)
    requires Stale(s.tables, c)
    ensures RecordOutcomeChange(p, s, c, token, report).Err?
  {
    assert !LiveClaim(s.tables, c);
  }

  lemma StaleChangeRefused(p: Primitives, s: Store, op: Operation)
    requires Precheck(s, op).None? && ActingClaim(op).Some? && Stale(s.tables, ActingClaim(op).value)
    ensures ChangeOf(p, s, op).Err?
  {
    assert !LiveClaim(s.tables, ActingClaim(op).value);
    if op.RecordOutcome? {
      StaleRecordsNothing(p, s, op.claim, op.token, op.report);
    }
  }

  /** A claim whose fence is not its authorization's current one changes nothing. */
  lemma StaleFenceRefused(p: Primitives, s: Store, op: Operation, stamps: nat -> Stamp)
    requires ActingClaim(op).Some? && Stale(s.tables, ActingClaim(op).value)
    ensures Execute(p, s, op, stamps) == s
  {
    if Precheck(s, op).None? {
      StaleChangeRefused(p, s, op);
    }
  }

  lemma ClaimTakesNextFence(s: Store, auth: Id, plan: Id, recovery: bool, execution: Text, now: int)
    requires ClaimChange(s, auth, plan, recovery, execution, now).Ok?
    ensures var t := ClaimChange(s, auth, plan, recovery, execution, now).value.store.tables;
            auth in t.auths && t.auths[auth].fence == Some(s.tables.nextFence + 1)
  {
  }

  /** A committed recovery claim takes a fence above every one allocated before. */
  lemma RecoveryRaisesFence(p: Primitives, s: Store, op: Operation, stamps: nat -> Stamp)
    requires Lawful(p) && Honest(p, s)
    requires op.ClaimSession? && Perform(p, s, op, stamps).Ok?
    ensures var t := Execute(p, s, op, stamps).tables;
            op.authorizationId in t.auths && t.auths[op.authorizationId].fence == Some(s.tables.nextFence + 1)
  {
    ClaimTakesNextFence(s, op.authorizationId, op.planDigest, op.recovery, op.executionId, op.now);
    ExecuteTables(p, s, op, stamps);
  }

  /** Once a recovery claim has committed, no run lets an earlier claim of that authorization,
      held or forged, change anything at all. */
  lemma RecoveryFencesOut(p: Primitives, s: Store, auth: Id, plan: Id, execution: Text, now: int, stamps: nat -> Stamp,
                          calls: seq<Call>, op: Operation, later: nat -> Stamp)
    requires Lawful(p) && Honest(p, s)
    requires Perform(p, s, ClaimSession(auth, plan, true, execution, now), stamps).Ok?
    requires ActingClaim(op).Some? && ActingClaim(op).value.binding.authorizationId == auth
    requires ActingClaim(op).value.fence <= s.tables.nextFence
    ensures var after := RunFrom(p, Execute(p, s, ClaimSession(auth, plan, true, execution, now), stamps), calls);
            Execute(p, after, op, later) == after
  {
    var claim := ClaimSession(auth, plan, true, execution, now);
    var claimed := Execute(p, s, claim, stamps);
    RecoveryRaisesFence(p, s, claim, stamps);
    ExecuteHonest(p, s, claim, stamps);
    RunsMoveForward(p, claimed, calls);
    var after := RunFrom(p, claimed, calls);
    assert AuthKept(claimed.tables, after.tables, auth);
    assert Stale(after.tables, ActingClaim(op).value);
    StaleFenceRefused(p, after, op, later);
  }

  /** Every fence an authorization ever held was allocated before the next claim: the previous
      lemma's bound covers each of its earlier claims. */
  lemma FencesAllocated(p: Primitives, s: Store, x: Text)
    requires Honest(p, s) && x in s.tables.execs
    ensures s.tables.execs[x].fence <= s.tables.nextFence
  {
    assert ExecOk(s.tables, x);
  }

  predicate IsOutcome(e: Event) {
    e.ActionOutcome? || e.RecoveryOutcome?
  }

  /** The stored intent an outcome belongs to. */
  predicate OfStoredIntent(t: Tables, o: Outcome) {
    o.authority.attemptId in t.intents && t.intents[o.authority.attemptId].authority == o.authority
  }

  /** An outcome is recorded under its stored intent's own fence, or by recovery under a later
      one; either way under the authorization's fence of the moment. */
  predicate RecordedUnderFence(t: Tables, e: Event) {
    match e
    case ActionOutcome(o) =>
      && OfStoredIntent(t, o) && o.authority.authorizationId in t.auths
      && t.auths[o.authority.authorizationId].fence == Some(t.intents[o.authority.attemptId].fence)
    case RecoveryOutcome(o, f) =>
      && OfStoredIntent(t, o) && o.authority.authorizationId in t.auths
      && t.auths[o.authority.authorizationId].fence == Some(f)
      && t.intents[o.authority.attemptId].fence < f
    case _ => true
  }

  /** What the tables show of a recorded outcome. */
  predicate OutcomeStored(t: Tables, e: Event) {
    match e
    case ActionOutcome(o) =>
      OfStoredIntent(t, o) && o.authority.attemptId in t.outcomes && t.outcomes[o.authority.attemptId] == o
    case RecoveryOutcome(o, f) =>
      && OfStoredIntent(t, o) && o.authority.attemptId in t.outcomes && t.outcomes[o.authority.attemptId] == o
      && t.intents[o.authority.attemptId].fence < f
    case _ => true
  }

  lemma {:induction false} ClassifyRecordsNoOutcome(s: Store, auth: Id, attempts: seq<Id>, observe: Id -> Option<Observation>)
    requires ClassifyAll(s, auth, attempts, observe).Ok?
    ensures forall e | e in ClassifyAll(s, auth, attempts, observe).value.events :: !IsOutcome(e)
  {
    if attempts != [] {
      ClassifyRecordsNoOutcome(s, auth, attempts[..|attempts| - 1], observe);
    }
  }

  /** The events of a change: no outcomes at all, or one alone, fenced and stored. */
  ghost predicate EventsFenced(s: Store, c: Change) {
    || (forall e | e in c.events :: !IsOutcome(e))
    || (|c.events| == 1 && RecordedUnderFence(s.tables, c.events[0]) && OutcomeStored(c.store.tables, c.events[0]))
  }

  lemma RecordOutcomeFenced(p: Primitives, s: Store, c: Claim, token: Token, report: Report)
    requires token.authority.attemptId in s.tables.intents ==> IntentOk(s.tables, token.authority.attemptId)
    requires RecordOutcomeChange(p, s, c, token, report).Ok?
    ensures EventsFenced(s, RecordOutcomeChange(p, s, c, token, report).value)
  {
  }

  lemma RecoveryOutcomeFenced(p: Primitives, s: Store, c: Claim, attempt: Id, report: Report)
    requires attempt in s.tables.intents ==> IntentOk(s.tables, attempt)
    requires RecoveryOutcomeChange(p, s, c, attempt, report).Ok?
    ensures EventsFenced(s, RecoveryOutcomeChange(p, s, c, attempt, report).value)
  {
  }

  predicate RecordsOutcomes(op: Operation) {
    op.RecordOutcome? || op.RecordRecoveryOutcome? || op.ClassifyRecovery?
  }

  lemma OthersRecordNoOutcome(p: Primitives, s: Store, op: Operation)
    requires !RecordsOutcomes(op) && Precheck(s, op).None? && ChangeOf(p, s, op).Ok?
    ensures forall e | e in ChangeOf(p, s, op).value.events :: !IsOutcome(e)
  {
  }

  /** One call records at most one outcome, under the right fence. */
  lemma ChangeFenced(p: Primitives, s: Store, op: Operation)
    requires Honest(p, s) && Precheck(s, op).None? && ChangeOf(p, s, op).Ok?
    ensures EventsFenced(s, ChangeOf(p, s, op).value)
  {
    if !RecordsOutcomes(op) {
      OthersRecordNoOutcome(p, s, op);
    } else if op.ClassifyRecovery? {
      ClassifyRecordsNoOutcome(s, op.claim.binding.authorizationId, op.attempts, op.observe);
    } else if op.RecordOutcome? {
      assert op.token.authority.attemptId in s.tables.intents ==> IntentOk(s.tables, op.token.authority.attemptId);
      RecordOutcomeFenced(p, s, op.claim, op.token, op.report);
    } else {
      assert op.attemptId in s.tables.intents ==> IntentOk(s.tables, op.attemptId);
      RecoveryOutcomeFenced(p, s, op.claim, op.attemptId, op.report);
    }
  }

  /** Row `k` of a store's journal: if it records an outcome, the tables of that moment, which are
      what the rows before it replay to, show the right fence, and the outcome still stands. */
  ghost predicate RowFenced(p: Primitives, s: Store, k: nat)
    requires k < |s.journal|
  {
    var e, before := p.decode(s.journal[k].payload), ReplayRows(p, s.journal[..k]);
    e.Some? && before.Some? && RecordedUnderFence(before.value.tables, e.value) && OutcomeStored(s.tables, e.value)
  }

  ghost predicate JournalFenced(p: Primitives, s: Store) {
    forall k: nat {:trigger RowFenced(p, s, k)} | k < |s.journal| :: RowFenced(p, s, k)
  }

  /** `rows` is `before` and then one row for each event. */
  ghost predicate Wrote(p: Primitives, before: seq<Row>, events: seq<Event>, rows: seq<Row>) {
    && |rows| == |before| + |events| && before <= rows
    && forall k {:trigger rows[k]} | |before| <= k < |rows| :: rows[k].payload == p.encode(events[k - |before|])
  }

  lemma WroteOne(p: Primitives, before: seq<Row>, events: seq<Event>, rows: seq<Row>, e: Event, r: Row)
    requires Wrote(p, before, events, rows) && r.payload == p.encode(e)
    ensures Wrote(p, before, events + [e], rows + [r])
  {
  }

  lemma {:induction false} AppendedRows(p: Primitives, s: Store, events: seq<Event>, stamps: nat -> Stamp)
    requires AppendEvents(p, s, events, stamps).Ok?
    ensures Wrote(p, s.journal, events, AppendEvents(p, s, events, stamps).value.journal)
  {
    if events != [] {
      var n := |events| - 1;
      AppendedRows(p, s, events[..n], stamps);
      var before := AppendEvents(p, s, events[..n], stamps).value;
      var row := NextRow(p, before, events[n], stamps(n).recordedAt, stamps(n).monotonic);
      WroteOne(p, s.journal, events[..n], before.journal, events[n], row);
      assert events == events[..n] + [events[n]];
    }
  }

  lemma StoredLater(t: Tables, u: Tables, e: Event)
    requires Later(t, u) && OutcomeStored(t, e)
    ensures OutcomeStored(u, e)
  {
    if IsOutcome(e) {
      assert AttemptKept(t, u, e.outcome.authority.attemptId);
    }
  }

  lemma PrefixReplays(p: Primitives, rows: seq<Row>, k: nat)
    requires ReplayRows(p, rows).Some? && k <= |rows|
    ensures ReplayRows(p, rows[..k]).Some?
  {
    if ReplayRows(p, rows[..k]).None? {
      RefusedPrefix(p, rows, k);
    }
  }

  /** A row the call found keeps its fence; its outcome still stands. */
  lemma OldRowFenced(p: Primitives, s: Store, after: Store, k: nat)
    requires k < |s.journal| && s.journal <= after.journal && RowFenced(p, s, k) && Later(s.tables, after.tables)
    ensures RowFenced(p, after, k)
  {
    assert after.journal[..k] == s.journal[..k] && after.journal[k] == s.journal[k];
    StoredLater(s.tables, after.tables, p.decode(s.journal[k].payload).value);
  }

  /** A row the call wrote is fenced. */
  lemma NewRowFenced(p: Primitives, s: Store, change: Change, after: Store, k: nat)
    requires Lawful(p) && Honest(p, s) && EventsFenced(s, change) && after.tables == change.store.tables
    requires ReplayRows(p, after.journal).Some? && Wrote(p, s.journal, change.events, after.journal)
    requires |s.journal| <= k < |after.journal|
    ensures RowFenced(p, after, k)
  {
    PrefixReplays(p, after.journal, k);
    var e := change.events[k - |s.journal|];
    assert p.decode(p.encode(e)) == Some(e);
    if IsOutcome(e) {
      assert k == |s.journal| && after.journal[..k] == s.journal;
    }
  }

  lemma RowsFenced(p: Primitives, s: Store, change: Change, after: Store)
    requires Lawful(p) && Honest(p, s) && EventsFenced(s, change) && after.tables == change.store.tables
    requires ReplayRows(p, after.journal).Some? && Wrote(p, s.journal, change.events, after.journal)
    requires JournalFenced(p, s) && Later(s.tables, after.tables)
    ensures JournalFenced(p, after)
  {
    forall k: nat | k < |after.journal| ensures RowFenced(p, after, k) {
      if k < |s.journal| {
        assert RowFenced(p, s, k);
        OldRowFenced(p, s, after, k);
      } else {
        NewRowFenced(p, s, change, after, k);
      }
    }
  }

  lemma ExecuteFenced(p: Primitives, s: Store, op: Operation, stamps: nat -> Stamp)
    requires Lawful(p) && Honest(p, s) && JournalFenced(p, s)
    ensures JournalFenced(p, Execute(p, s, op, stamps))
  {
    if Perform(p, s, op, stamps).Ok? {
      var change := ChangeOf(p, s, op).value;
      ExecuteTables(p, s, op, stamps);
      ExecuteHonest(p, s, op, stamps);
      ChangeSound(p, s, op);
      ChangeLater(p, s, op);
      ChangeFenced(p, s, op);
      AppendedRows(p, change.store, change.events, stamps);
      RowsFenced(p, s, change, Execute(p, s, op, stamps));
    }
  }

  /** Every outcome event in the journal of any run was recorded under its stored intent's own
      fence, or by recovery under a later one, that being the authorization's fence just then;
      and it is the outcome the store shows. */
  lemma {:induction false} OutcomesFenced(p: Primitives, databaseId: Text, calls: seq<Call>)
    requires Lawful(p)
    ensures JournalFenced(p, Run(p, databaseId, calls))
  {
    if calls != [] {
      var n := |calls| - 1;
      OutcomesFenced(p, databaseId, calls[..n]);
      RunsVerify(p, databaseId, calls[..n]);
      ExecuteFenced(p, Run(p, databaseId, calls[..n]), calls[n].op, calls[n].stamps);
    }
  }

  // ---- Refusals that cannot happen ----

  /** The refusals that blame nothing but a repeated identifier. */
  ghost predicate RefusalFair(t: Tables, op: Operation, e: AuditError) {
    && e != HeadMismatch
    && (op.ClaimSession? ==> e != FenceEpochMismatch)
    && (e == ConstraintViolation ==>
          match op
          case ClaimSession(_, _, _, execution, _) => execution in t.execs
          case Reserve(_, _, attempt, nonce) => attempt in t.intents || exists i | i in t.intents :: t.intents[i].nonce == nonce
          case _ => false)
  }

  lemma OutcomeNeverClashes(p: Primitives, s: Store, c: Claim, token: Token, report: Report)
    requires ResultOk(s.tables, token.authority.attemptId)
    ensures RecordOutcomeChange(p, s, c, token, report) != Err(ConstraintViolation)
    ensures RecordOutcomeChange(p, s, c, token, report) != Err(HeadMismatch)
  {
  }

  lemma RecoveryNeverClashes(p: Primitives, s: Store, c: Claim, attempt: Id, report: Report)
    ensures RecoveryOutcomeChange(p, s, c, attempt, report) != Err(ConstraintViolation)
    ensures RecoveryOutcomeChange(p, s, c, attempt, report) != Err(HeadMismatch)
  {
  }

  lemma InsertsClashOnIds(p: Primitives, s: Store, op: Operation)
    requires Invariant(s.tables) && DetailsOk(s) && Precheck(s, op).None?
    requires op.Register? || op.ClaimSession? || op.Reserve?
    requires ChangeOf(p, s, op).Err?
    ensures RefusalFair(s.tables, op, ChangeOf(p, s, op).error)
  {
    match op
    case Register(_, b) => RegisterNeverClashes(s, b);
    case ClaimSession(auth, plan, recovery, execution, now) =>
      assert auth in s.tables.auths ==> AuthOk(s.tables, auth);
      ClaimClashesOnId(s, auth, plan, recovery, execution, now);
    case Reserve(c, r, attempt, nonce) => ReserveClashesOnIds(s, c, r, attempt, nonce);
  }

  lemma UpdatesNeverClash(p: Primitives, s: Store, op: Operation)
    requires Invariant(s.tables) && DetailsOk(s) && Precheck(s, op).None?
    requires !op.Register? && !op.ClaimSession? && !op.Reserve?
    requires ChangeOf(p, s, op).Err?
    ensures RefusalFair(s.tables, op, ChangeOf(p, s, op).error)
  {
    if op.RecordOutcome? {
      assert ResultOk(s.tables, op.token.authority.attemptId);
      OutcomeNeverClashes(p, s, op.claim, op.token, op.report);
    } else if op.RecordRecoveryOutcome? {
      RecoveryNeverClashes(p, s, op.claim, op.attemptId, op.report);
    } else if op.ClassifyRecovery? {
      ClassifyNeverClashes(s, op.claim.binding.authorizationId, op.attempts, op.observe);
    }
  }

  /** On an honest store an SQL constraint fires only when a random identifier repeats, and a
      recovery claim of a claimed authorization always finds the execution it supersedes. */
  lemma ConstraintsFireOnRepeatedIds(p: Primitives, s: Store, op: Operation)
    requires Honest(p, s) && Precheck(s, op).None?
    requires ChangeOf(p, s, op).Err?
    ensures RefusalFair(s.tables, op, ChangeOf(p, s, op).error)
  {
    if op.Register? || op.ClaimSession? || op.Reserve? {
      InsertsClashOnIds(p, s, op);
    } else {
      UpdatesNeverClash(p, s, op);
    }
  }

  lemma RegisterNeverClashes(s: Store, b: Binding)
    requires DetailsOk(s) && ValidBinding(b)
    ensures RegisterChange(s, b) != Err(ConstraintViolation)
    ensures RegisterChange(s, b) != Err(HeadMismatch)
  {
    if b.authorizationId !in s.tables.auths {
      assert ItemRows(b) * s.items == {};
      assert ActionRows(b).Keys * s.actions.Keys == {};
    }
  }

  lemma ClaimClashesOnId(s: Store, auth: Id, plan: Id, recovery: bool, execution: Text, now: int)
    requires ExecsOk(s.tables) && (auth in s.tables.auths ==> AuthOk(s.tables, auth))
    ensures ClaimChange(s, auth, plan, recovery, execution, now) == Err(ConstraintViolation) ==> execution in s.tables.execs
    ensures ClaimChange(s, auth, plan, recovery, execution, now) != Err(HeadMismatch)
    ensures ClaimChange(s, auth, plan, recovery, execution, now) != Err(FenceEpochMismatch)
  {
    var t := s.tables;
    if auth in t.auths && (recovery ==> t.auths[auth].state.Claimed?) {
      var execs := SupersededExecs(t, auth, recovery, now);
      forall x | x in execs ensures execs[x].fence != t.nextFence + 1 {
        assert ExecOk(t, x);
      }
    }
  }

  lemma ActionRowPresent(s: Store, c: Claim, r: IntentRequest)
    requires DetailsOk(s) && AuthsOk(s.tables) && RequestAuthorized(c.binding, r)
    requires c.binding.authorizationId in s.tables.auths && s.tables.auths[c.binding.authorizationId].binding == c.binding
    ensures (c.binding.authorizationId, r.actionId) in s.actions
  {
    assert AuthOk(s.tables, c.binding.authorizationId);
    assert DetailRowsMatch(s, c.binding.authorizationId, c.binding);
  }

  lemma OrdinalUnused(t: Tables)
    requires IntentsOk(t)
    ensures forall i | i in t.intents :: t.intents[i].ordinal != t.nextOrdinal + 1
  {
    forall i | i in t.intents ensures t.intents[i].ordinal != t.nextOrdinal + 1 {
      assert IntentOk(t, i);
    }
  }

  lemma ReserveClashesOnIds(s: Store, c: Claim, r: IntentRequest, attempt: Id, nonce: Id)
    requires IntentsOk(s.tables) && DetailsOk(s) && AuthsOk(s.tables) && RequestAuthorized(c.binding, r)
    ensures ReserveChange(s, c, r, attempt, nonce) != Err(HeadMismatch)
    ensures ReserveChange(s, c, r, attempt, nonce) == Err(ConstraintViolation) ==>
              attempt in s.tables.intents || exists i | i in s.tables.intents :: s.tables.intents[i].nonce == nonce
  {
    if ReserveDecision(s, c, r) == Ok(Created) {
      ActionRowPresent(s, c, r);
      OrdinalUnused(s.tables);
    }
  }

  lemma {:induction false} ClassifyNeverClashes(s: Store, auth: Id, attempts: seq<Id>, observe: Id -> Option<Observation>)
    requires Invariant(s.tables) && DetailsOk(s)
    ensures ClassifyAll(s, auth, attempts, observe) != Err(ConstraintViolation)
    ensures ClassifyAll(s, auth, attempts, observe) != Err(HeadMismatch)
  {
    if attempts != [] {
      var n := |attempts| - 1;
      ClassifyNeverClashes(s, auth, attempts[..n], observe);
      if ClassifyAll(s, auth, attempts[..n], observe).Ok? {
        ClassifyAllSound(s, auth, attempts[..n], observe);
        var t := ClassifyAll(s, auth, attempts[..n], observe).value.store.tables;
        assert attempts[n] in t.intents ==> IntentOk(t, attempts[n]) && ResultOk(t, attempts[n]);
      }
    }
  }
}
