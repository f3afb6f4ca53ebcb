/** What consuming an authorization does not promise: that everything it allowed was attempted. */
module AuditConsumption {
  import opened Bytes
  import opened Wrappers
  import opened AuditModel
  import opened AuditReplay
  import opened AuditJournal
  import opened AuditOperations
  import opened AuditInvariants
  import opened AuditLifecycle
  import opened AuditSnapshot

  ghost predicate Attempted(t: Tables, a: Id, action: Id) {
    exists i :: AttemptAt(t, i, a, action)
  }

  ghost predicate Recorded(t: Tables, a: Id, action: Id) {
    exists i :: AttemptAt(t, i, a, action) && i in t.outcomes
  }

  ghost predicate AllAttempted(t: Tables, a: Id) {
    a in t.auths && forall action | action in t.auths[a].binding.actionIds :: Attempted(t, a, action)
  }

  ghost predicate AllRecorded(t: Tables, a: Id) {
    a in t.auths && forall action | action in t.auths[a].binding.actionIds :: Recorded(t, a, action)
  }

  // ---- When consuming commits, and when it leaves nothing unattempted ----

  /** Under a live claim consuming is allowed if and only if no attempt is unresolved: actions
      without an attempt do not count. */
  lemma ConsumeAllowedIff(s: Store, c: Claim, now: int)
    requires LiveClaim(s.tables, c)
    ensures ConsumeChange(s, c, now).Ok? <==> !Unresolved(s.tables, c.binding.authorizationId) && ClockValid(now)
  {
  }

  lemma ConsumedIsRecorded(t: Tables, a: Id, action: Id)
    requires Invariant(t) && a in t.auths && !Unresolved(t, a)
    ensures Attempted(t, a, action) <==> Recorded(t, a, action)
  {
    if i :| AttemptAt(t, i, a, action) {
      assert t.intents[i].terminal.OutcomeRecorded?;
      assert ResultOk(t, i);
    }
  }

  /** A committed consume leaves the authorization consumed with nothing unresolved. */
  lemma ConsumeEffect(p: Primitives, s: Store, c: Claim, now: int, stamps: nat -> Stamp)
    requires Lawful(p) && Honest(p, s) && Perform(p, s, Consume(c, now), stamps).Ok?
    ensures var a, t, u := c.binding.authorizationId, s.tables, Execute(p, s, Consume(c, now), stamps).tables;
            && a in t.auths && AuditLifecycle.Consumed(u, a) && !Unresolved(t, a)
            && u.auths[a].binding == t.auths[a].binding && u.intents == t.intents && u.outcomes == t.outcomes
  {
    var a, t := c.binding.authorizationId, s.tables;
    ExecuteTables(p, s, Consume(c, now), stamps);
    if t.auths[a].state.Consumed? {
      forall i | i in t.intents && t.intents[i].authorizationId == a ensures t.intents[i].terminal.OutcomeRecorded? {
        assert IntentOk(t, i);
      }
    }
  }

  /** Consuming leaves every authorized action attempted if and only if, when it is called, each of
      them already has an attempt with a recorded outcome. */
  lemma WholeIffAllRecorded(p: Primitives, s: Store, c: Claim, now: int, stamps: nat -> Stamp)
    requires Lawful(p) && Honest(p, s) && Perform(p, s, Consume(c, now), stamps).Ok?
    ensures var a, u := c.binding.authorizationId, Execute(p, s, Consume(c, now), stamps).tables;
            AuditLifecycle.Consumed(u, a) && (AllAttempted(u, a) <==> AllRecorded(s.tables, a))
  {
    var a, t, u := c.binding.authorizationId, s.tables, Execute(p, s, Consume(c, now), stamps).tables;
    ConsumeEffect(p, s, c, now, stamps);
    forall action ensures Attempted(u, a, action) <==> Recorded(t, a, action) {
      ConsumedIsRecorded(t, a, action);
      assert Attempted(t, a, action) <==> Attempted(u, a, action) by {
        assert forall i :: AttemptAt(t, i, a, action) <==> AttemptAt(u, i, a, action);
      }
    }
  }

  /** An action is attempted after any further run if and only if it was attempted when its
      authorization was consumed: what was left out stays left out. */
  lemma LeftOutForGood(p: Primitives, s: Store, calls: seq<Call>, a: Id, action: Id)
    requires Lawful(p) && Honest(p, s) && AuditLifecycle.Consumed(s.tables, a)
    ensures Attempted(RunFrom(p, s, calls).tables, a, action) <==> Attempted(s.tables, a, action)
  {
    var t, u := s.tables, RunFrom(p, s, calls).tables;
    RunsMoveForward(p, s, calls);
    ConsumedFrozen(t, u, a);
    if i :| AttemptAt(t, i, a, action) {
      assert AttemptKept(t, u, i);
      assert AttemptAt(u, i, a, action);
    }
    if i :| AttemptAt(u, i, a, action) {
      assert AttemptAt(t, i, a, action);
    }
  }

  // ---- A run that leaves an action out ----

  const AUTHORIZATION: Id := [1]
  const EXECUTION: Text := [2]
  const ITEM: Id := [3]
  const ACTION: Id := [4]

  function SamplePolicy(): Policy {
    Policy([1], [], [], [], [], [], [], [])
  }

  function SampleBinding(): (b: Binding)
    ensures ValidBinding(b) && b.authorizationId == AUTHORIZATION && ACTION in b.actionIds
  {
    var items: map<Id, Id> := map[ACTION := ITEM];
    assert items[ACTION] == ITEM && items.Values == {ITEM};
    Binding(AUTHORIZATION, DeterministicSimulation, [], [], [], Trash, {ITEM}, {ACTION}, 1, items, map[ACTION := R1], SamplePolicy())
  }

  function Calm(n: nat): Stamp {
    Stamp(0, [], false)
  }

  function SampleClaim(databaseId: Text): Claim {
    Claim(SampleBinding(), 1, databaseId, EXECUTION, true)
  }

  function SampleCalls(databaseId: Text): seq<Call> {
    [Call(RegisterCall(), Calm)] + [Call(ClaimCall(), Calm)] + [Call(Consume(SampleClaim(databaseId), 0), Calm)]
  }

  /** One event always fits a short journal. */
  lemma AppendsOne(p: Primitives, s: Store, e: Event)
    requires |s.journal| < 10 && s.headSequence == |s.journal|
    ensures AppendEvents(p, s, [e], Calm).Ok?
    ensures var after := AppendEvents(p, s, [e], Calm).value;
            after.tables == s.tables && |after.journal| == |s.journal| + 1 == after.headSequence && after.databaseId == s.databaseId
  {
    assert [e][..0] == [];
    assert AppendEvents(p, s, [], Calm) == Ok(s);
  }

  /** A call that commits one event on a short journal. */
  lemma CommitsOne(p: Primitives, s: Store, op: Operation, change: Change)
    requires Lawful(p) && Honest(p, s) && |s.journal| < 10
    requires Precheck(s, op).None? && ChangeOf(p, s, op) == Ok(change) && |change.events| == 1
    ensures var after := Execute(p, s, op, Calm);
            after.tables == change.store.tables && |after.journal| == |s.journal| + 1 && after.databaseId == s.databaseId
  {
    HonestVerifies(p, s);
    ChangeSound(p, s, op);
    AppendsOne(p, change.store, change.events[0]);
    assert change.events == [change.events[0]];
  }

  lemma RunNext(p: Primitives, databaseId: Text, calls: seq<Call>, call: Call)
    ensures Run(p, databaseId, calls + [call]) == Execute(p, Run(p, databaseId, calls), call.op, call.stamps)
  {
    assert (calls + [call])[..|calls|] == calls;
  }

  lemma SampleRegisters(s: Store)
    requires s.tables == EmptyTables && s.items == {} && s.actions == map[]
    ensures RegisterChange(s, SampleBinding()).Ok?
    ensures RegisterChange(s, SampleBinding()).value.store.tables == Registered(EmptyTables, SampleBinding())
    ensures |RegisterChange(s, SampleBinding()).value.events| == 1
  {
  }

  predicate SampleClaimed(t: Tables) {
    && t.intents == map[] && AUTHORIZATION in t.auths && t.auths[AUTHORIZATION].state.Claimed?
    && t.auths[AUTHORIZATION].binding == SampleBinding()
    && t.auths[AUTHORIZATION].fence == Some(1) && t.auths[AUTHORIZATION].execution == Some(EXECUTION)
  }

  lemma SampleClaims(s: Store)
    requires s.tables == Registered(EmptyTables, SampleBinding())
    ensures var claimed := ClaimChange(s, AUTHORIZATION, SampleBinding().planDigest, false, EXECUTION, 0);
            && claimed.Ok? && |claimed.value.events| == 1
            && SampleClaimed(claimed.value.store.tables)
  {
  }

  function RegisterCall(): Operation {
    Register(false, SampleBinding())
  }

  function ClaimCall(): Operation {
    ClaimSession(AUTHORIZATION, SampleBinding().planDigest, false, EXECUTION, 0)
  }

  lemma RegisterRuns(p: Primitives, s: Store)
    requires Lawful(p) && Honest(p, s) && s.journal == []
    requires s.tables == EmptyTables && s.items == {} && s.actions == map[]
    ensures var after := Execute(p, s, RegisterCall(), Calm);
            after.tables == Registered(EmptyTables, SampleBinding()) && |after.journal| == 1 && after.databaseId == s.databaseId
  {
    SampleRegisters(s);
    CommitsOne(p, s, RegisterCall(), RegisterChange(s, SampleBinding()).value);
  }

  lemma ClaimRuns(p: Primitives, s: Store)
    requires Lawful(p) && Honest(p, s) && |s.journal| == 1 && s.tables == Registered(EmptyTables, SampleBinding())
    ensures var after := Execute(p, s, ClaimCall(), Calm);
            SampleClaimed(after.tables) && |after.journal| == 2 && after.databaseId == s.databaseId
  {
    SampleClaims(s);
    CommitsOne(p, s, ClaimCall(), ClaimChange(s, AUTHORIZATION, SampleBinding().planDigest, false, EXECUTION, 0).value);
  }

  lemma AfterRegister(p: Primitives, databaseId: Text)
    requires Lawful(p)
    ensures var s := Run(p, databaseId, [Call(RegisterCall(), Calm)]);
            Honest(p, s) && s.tables == Registered(EmptyTables, SampleBinding()) && |s.journal| == 1 && s.databaseId == databaseId
  {
    RunsVerify(p, databaseId, []);
    RegisterRuns(p, NewStore(databaseId));
    RunNext(p, databaseId, [], Call(RegisterCall(), Calm));
    assert [] + [Call(RegisterCall(), Calm)] == [Call(RegisterCall(), Calm)];
    RunsVerify(p, databaseId, [Call(RegisterCall(), Calm)]);
  }

  lemma AfterClaim(p: Primitives, databaseId: Text)
    requires Lawful(p)
    ensures var s := Run(p, databaseId, [Call(RegisterCall(), Calm)] + [Call(ClaimCall(), Calm)]);
            Honest(p, s) && SampleClaimed(s.tables) && |s.journal| == 2 && s.databaseId == databaseId
  {
    AfterRegister(p, databaseId);
    ClaimRuns(p, Run(p, databaseId, [Call(RegisterCall(), Calm)]));
    RunNext(p, databaseId, [Call(RegisterCall(), Calm)], Call(ClaimCall(), Calm));
    RunsVerify(p, databaseId, [Call(RegisterCall(), Calm)] + [Call(ClaimCall(), Calm)]);
  }

  lemma SampleConsumes(p: Primitives, databaseId: Text, s: Store)
    requires Lawful(p) && Honest(p, s) && |s.journal| == 2 && s.databaseId == databaseId
    requires SampleClaimed(s.tables)
    ensures var t := Execute(p, s, Consume(SampleClaim(databaseId), 0), Calm).tables;
            && AuditLifecycle.Consumed(t, AUTHORIZATION) && t.auths[AUTHORIZATION].binding == SampleBinding()
            && !Attempted(t, AUTHORIZATION, ACTION)
  {
    CommitsOne(p, s, Consume(SampleClaim(databaseId), 0), ConsumeChange(s, SampleClaim(databaseId), 0).value);
  }

  /** Register, claim, consume: on any database the authorization ends consumed, and its one
      authorized action was never attempted. */
  lemma ConsumedUnattempted(p: Primitives, databaseId: Text)
    requires Lawful(p)
    ensures var t := Run(p, databaseId, SampleCalls(databaseId)).tables;
            && AuditLifecycle.Consumed(t, AUTHORIZATION) && ACTION in t.auths[AUTHORIZATION].binding.actionIds
            && !Attempted(t, AUTHORIZATION, ACTION)
  {
    var calls := [Call(RegisterCall(), Calm)] + [Call(ClaimCall(), Calm)];
    AfterClaim(p, databaseId);
    RunNext(p, databaseId, calls, Call(Consume(SampleClaim(databaseId), 0), Calm));
    SampleConsumes(p, databaseId, Run(p, databaseId, calls));
  }
}
