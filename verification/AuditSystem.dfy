/** The store and its sessions together: who may write when, and what a live claim is worth. */
module AuditSystem {
  import opened Bytes
  import opened Wrappers
  import opened AuditModel
  import opened AuditReplay
  import opened AuditJournal
  import opened AuditOperations
  import opened AuditInvariants
  import opened AuditLifecycle
  import Sessions = AuditSessions

  /** What a `ClaimedExecution` carries, fixed when it was claimed. */
  datatype Held = Held(binding: Binding, fence: int, execution: Text)

  datatype System = System(store: Store, sessions: Sessions.Sessions, held: seq<Held>)

  /** One action of this process under the store lock, or of another process holding it. `op` of
      an `Act` is under the claim it names; a foreign process may perform anything. */
  datatype Action =
    | RegisterNew(native: bool, binding: Binding, stamps: nat -> Stamp)
    | TakeClaim(authorizationId: Id, planDigest: Id, recovery: bool, execution: Text, now: int, stamps: nat -> Stamp)
    | Act(claim: nat, op: Operation, stamps: nat -> Stamp)
    | DropClaim(claim: nat)
    | ForeignAct(op: Operation, stamps: nat -> Stamp)
    | ForeignLock
    | ForeignUnlock

  function ClaimOf(s: System, i: nat): Claim
    requires i < |s.held| && i < |s.sessions.claims|
  {
    Claim(s.held[i].binding, s.held[i].fence, s.store.databaseId, s.held[i].execution, s.sessions.claims[i].active)
  }

  function HeldAfter(t: Tables, auth: Id, execution: Text): Held
    requires auth in t.auths && t.auths[auth].fence.Some?
  {
    Held(t.auths[auth].binding, t.auths[auth].fence.value, execution)
  }

  ghost predicate Performs(p: Primitives, s: Store, op: Operation, stamps: nat -> Stamp) {
    Perform(p, s, op, stamps).Ok?
  }

  ghost function AfterClaim(s: System, after: Store, auth: Id, execution: Text): System {
    if auth in after.tables.auths && after.tables.auths[auth].fence.Some?
    then System(after, Sessions.Next(s.sessions, Sessions.Claim(true)), s.held + [HeldAfter(after.tables, auth, execution)])
    else s
  }

  /** One action; whatever is not allowed changes nothing. */
  ghost function Next(p: Primitives, s: System, action: Action): System {
    match action
    case RegisterNew(native, b, stamps) =>
      if s.sessions.owner.Free? then s.(store := Execute(p, s.store, Register(native, b), stamps)) else s
    case TakeClaim(auth, plan, recovery, execution, now, stamps) =>
      if Sessions.ClaimGranted(s.sessions) && Performs(p, s.store, ClaimSession(auth, plan, recovery, execution, now), stamps)
      then AfterClaim(s, Execute(p, s.store, ClaimSession(auth, plan, recovery, execution, now), stamps), auth, execution)
      else s
    case Act(i, op, stamps) =>
      if i < |s.held| && i < |s.sessions.claims| && ActingClaim(op) == Some(ClaimOf(s, i)) then
        var after := s.(store := Execute(p, s.store, op, stamps));
        if op.Consume? && Performs(p, s.store, op, stamps) then after.(sessions := Sessions.Next(s.sessions, Sessions.Consume(i))) else after
      else s
    case DropClaim(i) => s.(sessions := Sessions.Next(s.sessions, Sessions.Drop(i)))
    case ForeignAct(op, stamps) => if s.sessions.owner.Foreign? then s.(store := Execute(p, s.store, op, stamps)) else s
    case ForeignLock => s.(sessions := Sessions.Next(s.sessions, Sessions.ForeignLock))
    case ForeignUnlock => s.(sessions := Sessions.Next(s.sessions, Sessions.ForeignUnlock))
  }

  ghost function RunActions(p: Primitives, databaseId: Text, actions: seq<Action>): System {
    if actions == [] then System(NewStore(databaseId), Sessions.Start, [])
    else Next(p, RunActions(p, databaseId, actions[..|actions| - 1]), actions[|actions| - 1])
  }

  /** A live claim is its authorization's current, active execution, and the latest claim of all. */
  ghost predicate Current(s: System, i: nat)
    requires i < |s.held| == |s.sessions.claims|
  {
    s.sessions.claims[i].active ==>
      && LiveClaim(s.store.tables, ClaimOf(s, i))
      && s.store.tables.auths[s.held[i].binding.authorizationId].binding == s.held[i].binding
      && s.held[i].fence == s.store.tables.nextFence
  }

  ghost predicate Sound(p: Primitives, s: System) {
    && Honest(p, s.store) && Sessions.Consistent(s.sessions) && |s.held| == |s.sessions.claims|
    && forall i: nat {:trigger Current(s, i)} | i < |s.held| :: Current(s, i)
  }

  // ---- What operations under a claim leave alone ----

  lemma {:induction false} ClassifyLeavesExecutions(s: Store, auth: Id, attempts: seq<Id>, observe: Id -> Option<Observation>)
    requires ClassifyAll(s, auth, attempts, observe).Ok?
    ensures var t, u := s.tables, ClassifyAll(s, auth, attempts, observe).value.store.tables;
            t.auths == u.auths && t.execs == u.execs && t.nextFence == u.nextFence
  {
    if attempts != [] {
      ClassifyLeavesExecutions(s, auth, attempts[..|attempts| - 1], observe);
    }
  }

  predicate UnderClaim(op: Operation) {
    op.Reserve? || op.RecordOutcome? || op.RecordRecoveryOutcome? || op.ClassifyRecovery?
  }

  lemma ChangeLeavesExecutions(p: Primitives, s: Store, op: Operation)
    requires UnderClaim(op) && Precheck(s, op).None? && ChangeOf(p, s, op).Ok?
    ensures var t, u := s.tables, ChangeOf(p, s, op).value.store.tables;
            t.auths == u.auths && t.execs == u.execs && t.nextFence == u.nextFence
  {
    if op.ClassifyRecovery? {
      ClassifyLeavesExecutions(s, op.claim.binding.authorizationId, op.attempts, op.observe);
    }
  }

  lemma ActsLeaveExecutions(p: Primitives, s: Store, op: Operation, stamps: nat -> Stamp)
    requires Lawful(p) && Honest(p, s) && UnderClaim(op)
    ensures var t, after := s.tables, Execute(p, s, op, stamps);
            after.tables.auths == t.auths && after.tables.execs == t.execs && after.tables.nextFence == t.nextFence
  {
    if Perform(p, s, op, stamps).Ok? {
      ExecuteTables(p, s, op, stamps);
      ChangeLeavesExecutions(p, s, op);
    }
  }

  lemma DatabaseStays(p: Primitives, s: Store, op: Operation, stamps: nat -> Stamp)
    requires Lawful(p) && Honest(p, s)
    ensures Execute(p, s, op, stamps).databaseId == s.databaseId
  {
    if Perform(p, s, op, stamps).Ok? {
      ChangeSound(p, s, op);
      AppendsReplay(p, ChangeOf(p, s, op).value.store, s.tables, ChangeOf(p, s, op).value.events, stamps);
    }
  }

  /** An inactive claim changes nothing. */
  lemma InactiveRefused(p: Primitives, s: Store, op: Operation, stamps: nat -> Stamp)
    requires ActingClaim(op).Some? && !ActingClaim(op).value.active
    ensures Execute(p, s, op, stamps) == s && Perform(p, s, op, stamps).Err?
  {
  }

  // ---- What a granted claim starts as ----

  /** What a store looks like right after granting a claim. */
  ghost predicate JustClaimed(t: Tables, auth: Id, execution: Text) {
    && auth in t.auths && t.auths[auth].fence == Some(t.nextFence)
    && forall databaseId :: LiveClaim(t, Claim(t.auths[auth].binding, t.nextFence, databaseId, execution, true))
  }

  lemma ClaimStartsCurrent(s: Store, auth: Id, plan: Id, recovery: bool, execution: Text, now: int)
    requires Invariant(s.tables) && ClaimChange(s, auth, plan, recovery, execution, now).Ok?
    ensures var t := ClaimChange(s, auth, plan, recovery, execution, now).value.store.tables;
            JustClaimed(t, auth, execution) && t.auths[auth].binding.authorizationId == auth
  {
    assert AuthOk(s.tables, auth);
  }

  lemma NewClaimSound(p: Primitives, s: System, after: Store, auth: Id, execution: Text)
    requires Sound(p, s) && Sessions.ClaimGranted(s.sessions) && Honest(p, after) && JustClaimed(after.tables, auth, execution)
    requires after.tables.auths[auth].binding.authorizationId == auth
    ensures Sound(p, AfterClaim(s, after, auth, execution))
  {
    var next := AfterClaim(s, after, auth, execution);
    forall i: nat | i < |next.held| ensures Current(next, i) {
      assert i < |s.held| ==> !s.sessions.claims[i].active;
    }
  }

  lemma TakeKeeps(p: Primitives, s: System, auth: Id, plan: Id, recovery: bool, execution: Text, now: int, stamps: nat -> Stamp)
    requires Lawful(p) && Sound(p, s) && Sessions.ClaimGranted(s.sessions)
    requires Performs(p, s.store, ClaimSession(auth, plan, recovery, execution, now), stamps)
    ensures Sound(p, AfterClaim(s, Execute(p, s.store, ClaimSession(auth, plan, recovery, execution, now), stamps), auth, execution))
  {
    var op := ClaimSession(auth, plan, recovery, execution, now);
    ExecuteHonest(p, s.store, op, stamps);
    ExecuteTables(p, s.store, op, stamps);
    ClaimStartsCurrent(s.store, auth, plan, recovery, execution, now);
    NewClaimSound(p, s, Execute(p, s.store, op, stamps), auth, execution);
  }

  /** A store with the same authorizations, executions and fences keeps every live claim current. */
  lemma SameExecutionsKeep(p: Primitives, s: System, after: Store)
    requires Sound(p, s) && Honest(p, after) && after.databaseId == s.store.databaseId
    requires var t, u := s.store.tables, after.tables; t.auths == u.auths && t.execs == u.execs && t.nextFence == u.nextFence
    ensures Sound(p, s.(store := after))
  {
    forall k: nat | k < |s.held| ensures Current(s.(store := after), k) {
      assert Current(s, k);
    }
  }

  /** Once the live claim is released nothing is left to be current. */
  lemma ReleasedKeeps(p: Primitives, s: System, after: Store, i: nat)
    requires Sound(p, s) && Honest(p, after) && i < |s.held| && s.sessions.claims[i].active
    ensures Sound(p, System(after, Sessions.Next(s.sessions, Sessions.Consume(i)), s.held))
  {
    var next := System(after, Sessions.Next(s.sessions, Sessions.Consume(i)), s.held);
    forall k: nat | k < |next.held| ensures Current(next, k) {
      assert !next.sessions.claims[k].active;
    }
  }

  lemma RefusedStays(p: Primitives, s: Store, op: Operation, stamps: nat -> Stamp)
    requires !Performs(p, s, op, stamps)
    ensures Execute(p, s, op, stamps) == s
  {
  }

  lemma ActKeeps(p: Primitives, s: System, i: nat, op: Operation, stamps: nat -> Stamp)
    requires Lawful(p) && Sound(p, s) && i < |s.held| && ActingClaim(op) == Some(ClaimOf(s, i))
    ensures Sound(p, Next(p, s, Act(i, op, stamps)))
  {
    var after := Execute(p, s.store, op, stamps);
    ExecuteHonest(p, s.store, op, stamps);
    DatabaseStays(p, s.store, op, stamps);
    if !s.sessions.claims[i].active {
      InactiveRefused(p, s.store, op, stamps);
    } else if UnderClaim(op) {
      ActsLeaveExecutions(p, s.store, op, stamps);
      SameExecutionsKeep(p, s, after);
    } else if Performs(p, s.store, op, stamps) {
      ReleasedKeeps(p, s, after, i);
    } else {
      RefusedStays(p, s.store, op, stamps);
    }
  }

  lemma SessionsKeep(p: Primitives, s: System, sessions: Sessions.Sessions)
    requires Sound(p, s) && Sessions.Consistent(sessions) && |sessions.claims| == |s.sessions.claims|
    requires forall i | 0 <= i < |sessions.claims| :: sessions.claims[i].active ==> s.sessions.claims[i].active
    ensures Sound(p, s.(sessions := sessions))
  {
    forall i: nat | i < |s.held| ensures Current(s.(sessions := sessions), i) {
      assert Current(s, i);
    }
  }

  lemma StoreKeeps(p: Primitives, s: System, op: Operation, stamps: nat -> Stamp)
    requires Lawful(p) && Sound(p, s) && !s.sessions.owner.HeldBy?
    ensures Sound(p, s.(store := Execute(p, s.store, op, stamps)))
  {
    ExecuteHonest(p, s.store, op, stamps);
    var next := s.(store := Execute(p, s.store, op, stamps));
    forall i: nat | i < |next.held| ensures Current(next, i) {
      assert !s.sessions.claims[i].active;
    }
  }

  lemma NextKeeps(p: Primitives, s: System, action: Action)
    requires Lawful(p) && Sound(p, s)
    ensures Sound(p, Next(p, s, action))
  {
    match action
    case RegisterNew(native, b, stamps) =>
      if s.sessions.owner.Free? {
        StoreKeeps(p, s, Register(native, b), stamps);
      }
    case TakeClaim(auth, plan, recovery, execution, now, stamps) =>
      if Sessions.ClaimGranted(s.sessions) && Performs(p, s.store, ClaimSession(auth, plan, recovery, execution, now), stamps) {
        TakeKeeps(p, s, auth, plan, recovery, execution, now, stamps);
      }
    case Act(i, op, stamps) =>
      if i < |s.held| && ActingClaim(op) == Some(ClaimOf(s, i)) {
        ActKeeps(p, s, i, op, stamps);
      }
    case DropClaim(i) => SessionsKeep(p, s, Sessions.Next(s.sessions, Sessions.Drop(i)));
    case ForeignAct(op, stamps) =>
      if s.sessions.owner.Foreign? {
        StoreKeeps(p, s, op, stamps);
      }
    case ForeignLock => SessionsKeep(p, s, Sessions.Next(s.sessions, Sessions.ForeignLock));
    case ForeignUnlock => SessionsKeep(p, s, Sessions.Next(s.sessions, Sessions.ForeignUnlock));
  }

  lemma {:induction false} RunsSound(p: Primitives, databaseId: Text, actions: seq<Action>)
    requires Lawful(p)
    ensures Sound(p, RunActions(p, databaseId, actions))
  {
    if actions == [] {
      RunsVerify(p, databaseId, []);
    } else {
      RunsSound(p, databaseId, actions[..|actions| - 1]);
      NextKeeps(p, RunActions(p, databaseId, actions[..|actions| - 1]), actions[|actions| - 1]);
    }
  }

  /** In every state this process and others can bring about: a live claim holds the store lock, it
      is the current and active execution of its authorization under the binding it was given, and
      it has the highest fence of the whole store; a claim that is not live changes nothing. */
  lemma LiveClaimIsCurrent(p: Primitives, databaseId: Text, actions: seq<Action>, i: nat, op: Operation, stamps: nat -> Stamp)
    requires Lawful(p)
    requires i < |RunActions(p, databaseId, actions).held| && i < |RunActions(p, databaseId, actions).sessions.claims|
    requires ActingClaim(op) == Some(ClaimOf(RunActions(p, databaseId, actions), i))
    ensures var s := RunActions(p, databaseId, actions);
            var c, t := ClaimOf(s, i), s.store.tables;
            if c.active then
              && s.sessions.owner == Sessions.HeldBy(i) && LiveClaim(t, c)
              && t.auths[c.binding.authorizationId].binding == c.binding
              && (forall x | x in t.execs :: t.execs[x].fence <= c.fence)
            else Execute(p, s.store, op, stamps) == s.store
  {
    RunsSound(p, databaseId, actions);
    var s := RunActions(p, databaseId, actions);
    assert Current(s, i);
    if !s.sessions.claims[i].active {
      InactiveRefused(p, s.store, op, stamps);
    } else {
      forall x | x in s.store.tables.execs ensures s.store.tables.execs[x].fence <= ClaimOf(s, i).fence {
        assert ExecOk(s.store.tables, x);
      }
    }
  }
}
