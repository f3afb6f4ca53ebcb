/** What every operation keeps, and why replay agrees with the tables it describes. */
module AuditInvariants {
  import opened Bytes
  import opened Wrappers
  import opened AuditModel
  import opened AuditReplay
  import opened AuditJournal
  import opened AuditOperations

  /** A claimed authorization points at its own active execution; the others at none. */
  ghost predicate AuthOk(t: Tables, a: Id)
    requires a in t.auths
  {
    var r := t.auths[a];
    && r.binding.authorizationId == a
    && r.planDigest == r.binding.planDigest
    && ValidBinding(r.binding)
    && (r.state.Unused? ==> r.fence.None? && r.execution.None?)
    && (r.state.Consumed? ==> r.fence.Some? && r.execution.None?)
    && (r.state.Claimed? ==>
          && r.fence.Some? && r.execution.Some? && r.execution.value in t.execs
          && t.execs[r.execution.value].authorizationId == a
          && t.execs[r.execution.value].fence == r.fence.value
          && t.execs[r.execution.value].state.Active?)
  }

  ghost predicate AuthsOk(t: Tables) {
    forall a {:trigger AuthOk(t, a)} | a in t.auths :: AuthOk(t, a)
  }

  /** An execution's fence is allocated, and none of its authorization's fences is higher than
      the recorded one. Only the current execution is active; an ended one was the last. */
  ghost predicate ExecOk(t: Tables, x: Text)
    requires x in t.execs
  {
    var e := t.execs[x];
    && e.authorizationId in t.auths
    && 1 <= e.fence <= t.nextFence
    && t.auths[e.authorizationId].fence.Some?
    && e.fence <= t.auths[e.authorizationId].fence.value
    && (e.state.Active? ==> t.auths[e.authorizationId].execution == Some(x))
    && (e.state.Ended? ==> t.auths[e.authorizationId].state.Consumed?
                           && t.auths[e.authorizationId].fence == Some(e.fence))
  }

  ghost predicate ExecsOk(t: Tables) {
    0 <= t.nextFence && forall x {:trigger ExecOk(t, x)} | x in t.execs :: ExecOk(t, x)
  }

  predicate SameFence(e: ExecRow, f: ExecRow) {
    e.fence == f.fence
  }

  ghost predicate FencesDistinct(t: Tables) {
    forall x, y {:trigger SameFence(t.execs[x], t.execs[y])} | x in t.execs && y in t.execs :: SameFence(t.execs[x], t.execs[y]) ==> x == y
  }

  ghost predicate HasFence(t: Tables, f: int) {
    exists x :: x in t.execs && t.execs[x].fence == f
  }

  /** Every allocated fence epoch belongs to an execution: with `ExecsOk` and
      `FencesDistinct`, the epochs are exactly 1..nextFence, one each. */
  ghost predicate FencesCovered(t: Tables) {
    forall f {:trigger HasFence(t, f)} | 1 <= f <= t.nextFence :: HasFence(t, f)
  }

  ghost predicate IntentOk(t: Tables, i: Id)
    requires i in t.intents
  {
    var r := t.intents[i];
    && r == IntentRowOf(r.ordinal, r.authority).(terminal := r.terminal)
    && r.authority.attemptId == i
    && 1 <= r.ordinal <= t.nextOrdinal
    && r.authorizationId in t.auths
    && !t.auths[r.authorizationId].state.Unused?
    && AuthorityMatchesBinding(r.authority, t.auths[r.authorizationId].binding)
    && r.executionId in t.execs
    && t.execs[r.executionId].authorizationId == r.authorizationId
    && t.execs[r.executionId].fence == r.fence
    && (t.auths[r.authorizationId].state.Consumed? ==> r.terminal.OutcomeRecorded?)
  }

  ghost predicate IntentsOk(t: Tables) {
    0 <= t.nextOrdinal && forall i {:trigger IntentOk(t, i)} | i in t.intents :: IntentOk(t, i)
  }

  /** At most one attempt per authorization and action. */
  ghost predicate AttemptsDistinct(t: Tables) {
    forall i, j {:trigger SameAttempt(t.intents[i], t.intents[j].authority)} | i in t.intents && j in t.intents ::
      SameAttempt(t.intents[i], t.intents[j].authority) ==> i == j
  }

  predicate SameOrdinal(r: IntentRow, s: IntentRow) {
    r.ordinal == s.ordinal
  }

  ghost predicate OrdinalsDistinct(t: Tables) {
    forall i, j {:trigger SameOrdinal(t.intents[i], t.intents[j])} | i in t.intents && j in t.intents ::
      SameOrdinal(t.intents[i], t.intents[j]) ==> i == j
  }

  /** An outcome sits exactly under a recorded intent, a recovery exactly under a classified one. */
  ghost predicate ResultOk(t: Tables, i: Id) {
    && (i in t.outcomes <==> i in t.intents && t.intents[i].terminal.OutcomeRecorded?)
    && (i in t.recoveries <==> i in t.intents && t.intents[i].terminal.Classified?)
    && (i in t.outcomes ==> t.outcomes[i].authority == t.intents[i].authority)
    && (i in t.recoveries ==>
          && t.intents[i].terminal == Classified(t.recoveries[i].0)
          && t.recoveries[i].1 == RecordOf(t.intents[i].authority, t.recoveries[i].0))
  }

  ghost predicate ResultsOk(t: Tables) {
    forall i :: ResultOk(t, i)
  }

  /** Reserved, or classified as indeterminate: an attempt whose effect may still be pending. */
  predicate Open(r: IntentRow) {
    r.terminal == Reserved || r.terminal == Classified(Indeterminate)
  }

  /** Two open intents of different authorizations on one source path. */
  predicate Clash(r: IntentRow, s: IntentRow) {
    Open(r) && Open(s) && r.authorizationId != s.authorizationId && r.sourcePathHash == s.sourcePathHash
  }

  ghost predicate PathsExclusive(t: Tables) {
    forall i, j {:trigger Clash(t.intents[i], t.intents[j])} | i in t.intents && j in t.intents :: !Clash(t.intents[i], t.intents[j])
  }

  ghost predicate ExecutionsOk(t: Tables) {
    AuthsOk(t) && ExecsOk(t) && FencesDistinct(t) && FencesCovered(t)
  }

  ghost predicate AttemptsOk(t: Tables) {
    AttemptsDistinct(t) && OrdinalsDistinct(t) && ResultsOk(t) && PathsExclusive(t)
  }

  ghost predicate Invariant(t: Tables) {
    ExecutionsOk(t) && IntentsOk(t) && AttemptsOk(t)
  }

  /** The item and action rows are those of the registered bindings, no more and no less. */
  ghost predicate DetailsOk(s: Store) {
    && (forall a {:trigger DetailRowsMatch(s, a, s.tables.auths[a].binding)} | a in s.tables.auths :: DetailRowsMatch(s, a, s.tables.auths[a].binding))
    && (forall pair | pair in s.items :: pair.0 in s.tables.auths)
    && (forall pair | pair in s.actions :: pair.0 in s.tables.auths)
  }

  /** What a transaction's change owes: the invariants, and a replay that reaches its tables. */
  ghost predicate Sound(s: Store, c: Change) {
    && Invariant(c.store.tables)
    && DetailsOk(c.store)
    && ApplyEvents(s.tables, c.events) == Some(c.store.tables)
    && c.store.journal == s.journal && c.store.headSequence == s.headSequence
    && c.store.headDigest == s.headDigest && c.store.databaseId == s.databaseId
  }

  lemma ApplySingle(t: Tables, e: Event)
    ensures ApplyEvents(t, [e]) == ApplyEvent(t, e)
  {
    assert [e][..0] == [];
  }

  /** The attempt tables are the same, so what is said of them alone carries over. */
  lemma AttemptsFrame(t: Tables, u: Tables)
    requires t.intents == u.intents && t.outcomes == u.outcomes && t.recoveries == u.recoveries
    requires AttemptsOk(t)
    ensures AttemptsOk(u)
  {
    forall i ensures ResultOk(u, i) {
      assert ResultOk(t, i);
    }
  }

  /** The authorization and execution tables are the same, so what is said of them carries over. */
  lemma ExecutionsFrame(t: Tables, u: Tables)
    requires t.auths == u.auths && t.execs == u.execs && t.nextFence == u.nextFence
    requires ExecutionsOk(t)
    ensures ExecutionsOk(u)
  {
    forall a | a in u.auths ensures AuthOk(u, a) {
      assert AuthOk(t, a);
    }
    forall x | x in u.execs ensures ExecOk(u, x) {
      assert ExecOk(t, x);
    }
    forall f | 1 <= f <= u.nextFence ensures HasFence(u, f) {
      assert HasFence(t, f);
    }
  }

  /** Authorizations keep their bindings and executions their owner and fence; an authorization
      moves only forward, and is consumed only once nothing of it is unresolved. */
  ghost predicate Forward(t: Tables, u: Tables) {
    && (forall a | a in t.auths ::
          && a in u.auths && u.auths[a].binding == t.auths[a].binding
          && (u.auths[a].state.Unused? ==> t.auths[a].state.Unused?)
          && (u.auths[a].state.Consumed? && !t.auths[a].state.Consumed? ==> !Unresolved(t, a)))
    && (forall x | x in t.execs ::
          && x in u.execs && u.execs[x].authorizationId == t.execs[x].authorizationId
          && u.execs[x].fence == t.execs[x].fence)
  }

  lemma IntentsFrame(t: Tables, u: Tables)
    requires t.intents == u.intents && t.nextOrdinal == u.nextOrdinal
    requires IntentsOk(t) && Forward(t, u)
    ensures IntentsOk(u)
  {
    forall i | i in u.intents ensures IntentOk(u, i) {
      assert IntentOk(t, i);
    }
  }

  // ---- Registration ----

  lemma RegisterKeepsExecutions(t: Tables, b: Binding)
    requires ExecutionsOk(t) && ValidBinding(b) && b.authorizationId !in t.auths
    ensures ExecutionsOk(Registered(t, b))
  {
    var u := Registered(t, b);
    forall a | a in u.auths ensures AuthOk(u, a) {
      assert a in t.auths ==> AuthOk(t, a);
    }
    forall x | x in u.execs ensures ExecOk(u, x) {
      assert ExecOk(t, x);
    }
    forall f | 1 <= f <= u.nextFence ensures HasFence(u, f) {
      assert HasFence(t, f);
    }
  }

  lemma RegisterDetails(s: Store, b: Binding)
    requires DetailsOk(s) && ValidBinding(b) && RegisterChange(s, b).Ok?
    ensures DetailsOk(RegisterChange(s, b).value.store)
  {
    var after := RegisterChange(s, b).value.store;
    forall a | a in after.tables.auths ensures DetailRowsMatch(after, a, after.tables.auths[a].binding) {
      if a != b.authorizationId {
        assert DetailRowsMatch(s, a, s.tables.auths[a].binding);
      }
    }
  }

  lemma RegisterKeeps(t: Tables, b: Binding)
    requires Invariant(t) && ValidBinding(b) && b.authorizationId !in t.auths
    ensures Invariant(Registered(t, b))
  {
    RegisterKeepsExecutions(t, b);
    IntentsFrame(t, Registered(t, b));
    AttemptsFrame(t, Registered(t, b));
  }

  lemma RegisterSound(s: Store, b: Binding)
    requires Invariant(s.tables) && DetailsOk(s) && ValidBinding(b)
    requires RegisterChange(s, b).Ok?
    ensures Sound(s, RegisterChange(s, b).value)
  {
    RegisterKeeps(s.tables, b);
    RegisterDetails(s, b);
    ApplySingle(s.tables, AuthorizationRegistered(b));
  }

  /** Bindings never change and no row disappears, so the detail rows stay those of the bindings. */
  lemma DetailsFrame(s: Store, after: Store)
    requires DetailsOk(s) && s.items == after.items && s.actions == after.actions
    requires s.tables.auths.Keys == after.tables.auths.Keys
    requires forall a | a in s.tables.auths :: s.tables.auths[a].binding == after.tables.auths[a].binding
    ensures DetailsOk(after)
  {
    forall a | a in after.tables.auths ensures DetailRowsMatch(after, a, after.tables.auths[a].binding) {
      assert DetailRowsMatch(s, a, s.tables.auths[a].binding);
    }
  }

  /** A transaction that only moves the tables to where its one event replays them is sound. */
  lemma SoundFrom(s: Store, c: Change, u: Tables, e: Event)
    requires DetailsOk(s) && Invariant(u)
    requires c == Change(s.(tables := u), [e]) && ApplyEvent(s.tables, e) == Some(u)
    requires s.tables.auths.Keys == u.auths.Keys
    requires forall a | a in s.tables.auths :: s.tables.auths[a].binding == u.auths[a].binding
    ensures Sound(s, c)
  {
    DetailsFrame(s, c.store);
    ApplySingle(s.tables, e);
  }

  // ---- Claims ----

  /** The guards a committed claim has passed. */
  ghost predicate ClaimAllowed(t: Tables, auth: Id, recovery: bool, execution: Text) {
    && auth in t.auths
    && execution !in t.execs
    && (if recovery then t.auths[auth].state.Claimed? else t.auths[auth].state.Unused?)
  }

  function ClaimTables(t: Tables, auth: Id, recovery: bool, execution: Text, now: int): Tables
    requires auth in t.auths
    requires recovery ==> t.auths[auth].execution.Some? && t.auths[auth].execution.value in t.execs
  {
    t.(execs := SupersededExecs(t, auth, recovery, now)[execution := NewExecution(t, auth, recovery, now)],
       nextFence := t.nextFence + 1, auths := Pointed(t, auth, execution))
  }

  lemma ClaimKeepsAuths(t: Tables, auth: Id, recovery: bool, execution: Text, now: int)
    requires AuthsOk(t) && ExecsOk(t) && ClaimAllowed(t, auth, recovery, execution) && AuthOk(t, auth)
    ensures AuthsOk(ClaimTables(t, auth, recovery, execution, now))
  {
    var u := ClaimTables(t, auth, recovery, execution, now);
    forall a | a in u.auths ensures AuthOk(u, a) {
      assert AuthOk(t, a);
      if a != auth && t.auths[a].state.Claimed? && recovery {
        assert t.execs[t.auths[auth].execution.value].authorizationId == auth;
      }
    }
  }

  lemma ClaimKeepsExec(t: Tables, auth: Id, recovery: bool, execution: Text, now: int, x: Text)
    requires x in t.execs && ExecOk(t, x) && 0 <= t.nextFence
    requires ClaimAllowed(t, auth, recovery, execution) && AuthOk(t, auth)
    ensures ExecOk(ClaimTables(t, auth, recovery, execution, now), x)
  {
  }

  lemma ClaimKeepsExecs(t: Tables, auth: Id, recovery: bool, execution: Text, now: int)
    requires ExecsOk(t) && ClaimAllowed(t, auth, recovery, execution) && AuthOk(t, auth)
    ensures ExecsOk(ClaimTables(t, auth, recovery, execution, now))
  {
    var u := ClaimTables(t, auth, recovery, execution, now);
    forall x | x in u.execs ensures ExecOk(u, x) {
      if x in t.execs {
        ClaimKeepsExec(t, auth, recovery, execution, now, x);
      }
    }
  }

  lemma ClaimKeepsFences(t: Tables, auth: Id, recovery: bool, execution: Text, now: int)
    requires ExecsOk(t) && FencesDistinct(t) && FencesCovered(t) && ClaimAllowed(t, auth, recovery, execution) && AuthOk(t, auth)
    ensures FencesDistinct(ClaimTables(t, auth, recovery, execution, now))
    ensures FencesCovered(ClaimTables(t, auth, recovery, execution, now))
  {
    var u := ClaimTables(t, auth, recovery, execution, now);
    forall x, y | x in u.execs && y in u.execs && SameFence(u.execs[x], u.execs[y]) ensures x == y {
      assert x in t.execs ==> ExecOk(t, x);
      assert y in t.execs ==> ExecOk(t, y);
      assert x in t.execs && y in t.execs ==> SameFence(t.execs[x], t.execs[y]);
    }
    forall f | 1 <= f <= u.nextFence ensures HasFence(u, f) {
      if f == u.nextFence {
        assert u.execs[execution].fence == f;
      } else {
        assert HasFence(t, f);
        var x :| x in t.execs && t.execs[x].fence == f;
        assert u.execs[x].fence == f;
      }
    }
  }

  lemma ClaimKeeps(t: Tables, auth: Id, recovery: bool, execution: Text, now: int)
    requires Invariant(t) && ClaimAllowed(t, auth, recovery, execution) && AuthOk(t, auth)
    ensures Invariant(ClaimTables(t, auth, recovery, execution, now))
  {
    var u := ClaimTables(t, auth, recovery, execution, now);
    ClaimKeepsAuths(t, auth, recovery, execution, now);
    ClaimKeepsExecs(t, auth, recovery, execution, now);
    ClaimKeepsFences(t, auth, recovery, execution, now);
    IntentsFrame(t, u);
    AttemptsFrame(t, u);
  }

  function ClaimEvent(t: Tables, auth: Id, recovery: bool, execution: Text, now: int): Event
    requires auth in t.auths && (recovery ==> t.auths[auth].execution.Some?)
  {
    if recovery then RecoveryClaimed(auth, t.auths[auth].execution.value, execution, t.nextFence + 1, now)
    else ExecutionClaimed(auth, execution, t.nextFence + 1, now)
  }

  lemma ClaimShape(s: Store, auth: Id, plan: Id, recovery: bool, execution: Text, now: int)
    requires ClaimChange(s, auth, plan, recovery, execution, now).Ok?
    requires auth in s.tables.auths ==> AuthOk(s.tables, auth)
    ensures ClaimAllowed(s.tables, auth, recovery, execution)
    ensures var u, e := ClaimTables(s.tables, auth, recovery, execution, now), ClaimEvent(s.tables, auth, recovery, execution, now);
            && ClaimChange(s, auth, plan, recovery, execution, now).value == Change(s.(tables := u), [e])
            && ApplyEvent(s.tables, e) == Some(u)
  {
  }

  lemma ClaimSound(s: Store, auth: Id, plan: Id, recovery: bool, execution: Text, now: int)
    requires Invariant(s.tables) && DetailsOk(s)
    requires ClaimChange(s, auth, plan, recovery, execution, now).Ok?
    ensures Sound(s, ClaimChange(s, auth, plan, recovery, execution, now).value)
  {
    var t := s.tables;
    assert AuthOk(t, auth);
    ClaimShape(s, auth, plan, recovery, execution, now);
    ClaimKeeps(t, auth, recovery, execution, now);
    SoundFrom(s, ClaimChange(s, auth, plan, recovery, execution, now).value,
              ClaimTables(t, auth, recovery, execution, now), ClaimEvent(t, auth, recovery, execution, now));
  }

  // ---- Reservations ----

  /** The guards a created reservation has passed. */
  ghost predicate IntentAllowed(t: Tables, a: Authority) {
    && a.authorizationId in t.auths
    && t.auths[a.authorizationId].state.Claimed?
    && AuthorityMatchesBinding(a, t.auths[a.authorizationId].binding)
    && t.auths[a.authorizationId].execution == Some(a.executionId)
    && t.auths[a.authorizationId].fence == Some(a.fence)
    && a.attemptId !in t.intents
    && (forall i | i in t.intents :: !SameAttempt(t.intents[i], a))
    && (forall i | i in t.intents :: !Blocks(t.intents[i], a.authorizationId, a.sourcePathHash))
  }

  lemma IntentKeepsIntents(t: Tables, a: Authority)
    requires IntentsOk(t) && IntentAllowed(t, a) && AuthOk(t, a.authorizationId)
    ensures IntentsOk(WithIntent(t, a))
  {
    var u := WithIntent(t, a);
    forall i | i in u.intents ensures IntentOk(u, i) {
      assert i in t.intents ==> IntentOk(t, i);
    }
  }

  lemma IntentKeepsDistinct(t: Tables, a: Authority)
    requires IntentsOk(t) && AttemptsDistinct(t) && OrdinalsDistinct(t) && IntentAllowed(t, a)
    ensures AttemptsDistinct(WithIntent(t, a)) && OrdinalsDistinct(WithIntent(t, a))
  {
    var u := WithIntent(t, a);
    forall i, j | i in u.intents && j in u.intents && SameAttempt(u.intents[i], u.intents[j].authority) ensures i == j {
      assert i in t.intents ==> IntentOk(t, i) && !SameAttempt(t.intents[i], a);
      assert j in t.intents ==> IntentOk(t, j) && !SameAttempt(t.intents[j], a);
    }
    forall i, j | i in u.intents && j in u.intents && SameOrdinal(u.intents[i], u.intents[j]) ensures i == j {
      assert i in t.intents ==> IntentOk(t, i);
      assert j in t.intents ==> IntentOk(t, j);
      assert i in t.intents && j in t.intents ==> SameOrdinal(t.intents[i], t.intents[j]);
    }
  }

  lemma IntentKeepsResults(t: Tables, a: Authority)
    requires ResultsOk(t) && a.attemptId !in t.intents
    ensures ResultsOk(WithIntent(t, a))
  {
    forall i ensures ResultOk(WithIntent(t, a), i) {
      assert ResultOk(t, i);
    }
  }

  lemma IntentKeepsPaths(t: Tables, a: Authority)
    requires IntentsOk(t) && PathsExclusive(t) && IntentAllowed(t, a)
    ensures PathsExclusive(WithIntent(t, a))
  {
    var u := WithIntent(t, a);
    forall i, j | i in u.intents && j in u.intents ensures !Clash(u.intents[i], u.intents[j]) {
      assert i in t.intents ==> IntentOk(t, i) && !Blocks(t.intents[i], a.authorizationId, a.sourcePathHash);
      assert j in t.intents ==> IntentOk(t, j) && !Blocks(t.intents[j], a.authorizationId, a.sourcePathHash);
      assert i in t.intents && j in t.intents ==> !Clash(t.intents[i], t.intents[j]);
    }
  }

  lemma IntentKeeps(t: Tables, a: Authority)
    requires Invariant(t) && IntentAllowed(t, a) && AuthOk(t, a.authorizationId)
    ensures Invariant(WithIntent(t, a))
  {
    IntentKeepsIntents(t, a);
    IntentKeepsDistinct(t, a);
    IntentKeepsResults(t, a);
    IntentKeepsPaths(t, a);
    ExecutionsFrame(t, WithIntent(t, a));
  }

  lemma ReserveShape(s: Store, c: Claim, r: IntentRequest, attempt: Id, nonce: Id)
    requires RequestAuthorized(c.binding, r)
    requires ReserveChange(s, c, r, attempt, nonce).Ok? && ReserveDecision(s, c, r) == Ok(Created)
    requires c.binding.authorizationId in s.tables.auths ==> AuthOk(s.tables, c.binding.authorizationId)
    ensures var a := NewAuthority(s, c, r, attempt, nonce);
            && IntentAllowed(s.tables, a)
            && ReserveChange(s, c, r, attempt, nonce).value == Change(s.(tables := WithIntent(s.tables, a)), [ActionIntent(a)])
            && ApplyEvent(s.tables, ActionIntent(a)) == Some(WithIntent(s.tables, a))
  {
    var t, a := s.tables, NewAuthority(s, c, r, attempt, nonce);
    forall i | i in t.intents ensures !SameAttempt(t.intents[i], a) {
      assert !SameAction(t.intents[i], a.authorizationId, a.actionId);
    }
  }

  lemma ReserveSound(s: Store, c: Claim, r: IntentRequest, attempt: Id, nonce: Id)
    requires Invariant(s.tables) && DetailsOk(s) && RequestAuthorized(c.binding, r)
    requires ReserveChange(s, c, r, attempt, nonce).Ok?
    ensures Sound(s, ReserveChange(s, c, r, attempt, nonce).value)
  {
    if ReserveDecision(s, c, r) == Ok(Created) {
      var a := NewAuthority(s, c, r, attempt, nonce);
      assert AuthOk(s.tables, a.authorizationId);
      ReserveShape(s, c, r, attempt, nonce);
      IntentKeeps(s.tables, a);
      SoundFrom(s, ReserveChange(s, c, r, attempt, nonce).value, WithIntent(s.tables, a), ActionIntent(a));
    }
  }

  // ---- Outcomes and classifications ----

  /** `u` is `t` with one intent moved to a new terminal state, never reopening it. */
  ghost predicate Terminates(t: Tables, u: Tables, attempt: Id, terminal: Terminal) {
    && attempt in t.intents
    && u.intents == Terminated(t, attempt, terminal)
    && u.auths == t.auths && u.execs == t.execs
    && u.nextOrdinal == t.nextOrdinal && u.nextFence == t.nextFence
    && (terminal.OutcomeRecorded? || t.intents[attempt].terminal.Reserved?)
    && !terminal.Reserved?
  }

  lemma TerminatedKeepsIntents(t: Tables, u: Tables, attempt: Id, terminal: Terminal)
    requires IntentsOk(t) && Terminates(t, u, attempt, terminal)
    ensures IntentsOk(u)
  {
    forall i | i in u.intents ensures IntentOk(u, i) {
      assert IntentOk(t, i);
    }
  }

  lemma TerminatedKeepsAttempts(t: Tables, u: Tables, attempt: Id, terminal: Terminal)
    requires AttemptsDistinct(t) && OrdinalsDistinct(t) && Terminates(t, u, attempt, terminal)
    ensures AttemptsDistinct(u) && OrdinalsDistinct(u)
  {
    forall i, j | i in u.intents && j in u.intents && SameAttempt(u.intents[i], u.intents[j].authority) ensures i == j {
      assert SameAttempt(t.intents[i], t.intents[j].authority);
    }
    forall i, j | i in u.intents && j in u.intents && SameOrdinal(u.intents[i], u.intents[j]) ensures i == j {
      assert SameOrdinal(t.intents[i], t.intents[j]);
    }
  }

  lemma TerminatedKeepsPaths(t: Tables, u: Tables, attempt: Id, terminal: Terminal)
    requires PathsExclusive(t) && Terminates(t, u, attempt, terminal)
    ensures PathsExclusive(u)
  {
    forall i, j | i in u.intents && j in u.intents ensures !Clash(u.intents[i], u.intents[j]) {
      assert !Clash(t.intents[i], t.intents[j]);
    }
  }

  lemma TerminatedKeeps(t: Tables, u: Tables, attempt: Id, terminal: Terminal)
    requires Invariant(t) && Terminates(t, u, attempt, terminal) && ResultsOk(u)
    ensures Invariant(u)
  {
    TerminatedKeepsIntents(t, u, attempt, terminal);
    TerminatedKeepsAttempts(t, u, attempt, terminal);
    TerminatedKeepsPaths(t, u, attempt, terminal);
    ExecutionsFrame(t, u);
  }

  function OutcomeTables(t: Tables, attempt: Id, o: Outcome): Tables
    requires attempt in t.intents
  {
    t.(outcomes := t.outcomes[attempt := o], recoveries := t.recoveries - {attempt},
       intents := Terminated(t, attempt, OutcomeRecorded))
  }

  lemma OutcomeKeeps(t: Tables, attempt: Id, o: Outcome)
    requires Invariant(t) && attempt in t.intents && o.authority == t.intents[attempt].authority
    ensures Invariant(OutcomeTables(t, attempt, o))
    ensures ApplyOutcome(t, o) == Some(OutcomeTables(t, attempt, o))
  {
    var u := OutcomeTables(t, attempt, o);
    assert IntentOk(t, attempt);
    forall i ensures ResultOk(u, i) {
      assert ResultOk(t, i);
    }
    TerminatedKeeps(t, u, attempt, OutcomeRecorded);
  }

  /** `record_outcome` deletes no recovery row, and replay deletes one: they agree because a
      reserved intent has none. */
  lemma RecordOutcomeShape(p: Primitives, s: Store, c: Claim, token: Token, report: Report)
    requires RecordOutcomeChange(p, s, c, token, report).Ok?
    requires ResultOk(s.tables, token.authority.attemptId)
    ensures var attempt := token.authority.attemptId;
            && attempt in s.tables.intents
            && var o := Outcome(s.tables.intents[attempt].authority, report);
               RecordOutcomeChange(p, s, c, token, report).value == Change(s.(tables := OutcomeTables(s.tables, attempt, o)), [ActionOutcome(o)])
  {
    assert s.tables.recoveries - {token.authority.attemptId} == s.tables.recoveries;
  }

  lemma RecordOutcomeSound(p: Primitives, s: Store, c: Claim, token: Token, report: Report)
    requires Invariant(s.tables) && DetailsOk(s)
    requires RecordOutcomeChange(p, s, c, token, report).Ok?
    ensures Sound(s, RecordOutcomeChange(p, s, c, token, report).value)
  {
    var t, attempt := s.tables, token.authority.attemptId;
    assert ResultOk(t, attempt);
    RecordOutcomeShape(p, s, c, token, report);
    var o := Outcome(t.intents[attempt].authority, report);
    OutcomeKeeps(t, attempt, o);
    SoundFrom(s, RecordOutcomeChange(p, s, c, token, report).value, OutcomeTables(t, attempt, o), ActionOutcome(o));
  }

  lemma RecoveryOutcomeSound(p: Primitives, s: Store, c: Claim, attempt: Id, report: Report)
    requires Invariant(s.tables) && DetailsOk(s)
    requires RecoveryOutcomeChange(p, s, c, attempt, report).Ok?
    ensures Sound(s, RecoveryOutcomeChange(p, s, c, attempt, report).value)
  {
    var t := s.tables;
    var o := Outcome(t.intents[attempt].authority, report);
    OutcomeKeeps(t, attempt, o);
    SoundFrom(s, RecoveryOutcomeChange(p, s, c, attempt, report).value, OutcomeTables(t, attempt, o), RecoveryOutcome(o, c.fence));
  }

  function ClassifyTables(t: Tables, attempt: Id, d: Disposition): Tables
    requires attempt in t.intents
  {
    var a := t.intents[attempt].authority;
    t.(recoveries := t.recoveries[a.attemptId := (d, RecordOf(a, d))], intents := Terminated(t, attempt, Classified(d)))
  }

  lemma ClassifyKeeps(t: Tables, attempt: Id, d: Disposition)
    requires Invariant(t) && attempt in t.intents && t.intents[attempt].terminal.Reserved?
    ensures Invariant(ClassifyTables(t, attempt, d))
    ensures t.intents[attempt].authority.attemptId == attempt
  {
    var u := ClassifyTables(t, attempt, d);
    assert IntentOk(t, attempt);
    forall i ensures ResultOk(u, i) {
      assert ResultOk(t, i);
    }
    TerminatedKeeps(t, u, attempt, Classified(d));
  }

  lemma ClassifyOneSound(s: Store, auth: Id, attempt: Id, seen: Option<Observation>)
    requires Invariant(s.tables) && DetailsOk(s)
    requires ClassifyOne(s, auth, attempt, seen).Ok?
    ensures Sound(s, ClassifyOne(s, auth, attempt, seen).value)
  {
    var t := s.tables;
    var a := t.intents[attempt].authority;
    var d := ClassifyObservation(a.mode, seen.value).value;
    ClassifyKeeps(t, attempt, d);
    SoundFrom(s, ClassifyOne(s, auth, attempt, seen).value, ClassifyTables(t, attempt, d), RecoveryClassification(a, RecordOf(a, d)));
  }

  lemma {:induction false} ApplyConcat(t: Tables, before: seq<Event>, events: seq<Event>)
    requires ApplyEvents(t, before).Some?
    ensures ApplyEvents(t, before + events) == ApplyEvents(ApplyEvents(t, before).value, events)
  {
    if events == [] {
      assert before + events == before;
    } else {
      var n := |events| - 1;
      assert (before + events)[..|before + events| - 1] == before + events[..n];
      ApplyConcat(t, before, events[..n]);
    }
  }

  lemma {:induction false} ClassifyAllSound(s: Store, auth: Id, attempts: seq<Id>, observe: Id -> Option<Observation>)
    requires Invariant(s.tables) && DetailsOk(s)
    requires ClassifyAll(s, auth, attempts, observe).Ok?
    ensures Sound(s, ClassifyAll(s, auth, attempts, observe).value)
  {
    if attempts != [] {
      var n := |attempts| - 1;
      ClassifyAllSound(s, auth, attempts[..n], observe);
      var before := ClassifyAll(s, auth, attempts[..n], observe).value;
      ClassifyOneSound(before.store, auth, attempts[n], observe(attempts[n]));
      var step := ClassifyOne(before.store, auth, attempts[n], observe(attempts[n])).value;
      ApplyConcat(s.tables, before.events, step.events);
    }
  }

  // ---- Consumption ----

  function ConsumeTables(t: Tables, auth: Id, execution: Text, now: int): Tables
    requires auth in t.auths
  {
    t.(auths := Retired(t, auth), execs := EndedExecs(t, execution, now))
  }

  lemma ConsumeKeepsRows(t: Tables, auth: Id, execution: Text, now: int)
    requires AuthsOk(t) && ExecsOk(t)
    requires auth in t.auths && t.auths[auth].state.Claimed? && t.auths[auth].execution == Some(execution) && AuthOk(t, auth)
    ensures AuthsOk(ConsumeTables(t, auth, execution, now)) && ExecsOk(ConsumeTables(t, auth, execution, now))
  {
    var u := ConsumeTables(t, auth, execution, now);
    forall a | a in u.auths ensures AuthOk(u, a) {
      assert AuthOk(t, a);
    }
    forall x | x in u.execs ensures ExecOk(u, x) {
      assert ExecOk(t, x);
    }
  }

  lemma ConsumeKeepsFences(t: Tables, auth: Id, execution: Text, now: int)
    requires FencesDistinct(t) && FencesCovered(t) && auth in t.auths
    ensures FencesDistinct(ConsumeTables(t, auth, execution, now)) && FencesCovered(ConsumeTables(t, auth, execution, now))
  {
    var u := ConsumeTables(t, auth, execution, now);
    forall x, y | x in u.execs && y in u.execs && SameFence(u.execs[x], u.execs[y]) ensures x == y {
      assert SameFence(t.execs[x], t.execs[y]);
    }
    forall f | 1 <= f <= u.nextFence ensures HasFence(u, f) {
      assert HasFence(t, f);
      var x :| x in t.execs && t.execs[x].fence == f;
      assert u.execs[x].fence == f;
    }
  }

  lemma ConsumeKeeps(t: Tables, auth: Id, execution: Text, now: int)
    requires Invariant(t) && auth in t.auths && t.auths[auth].state.Claimed?
    requires t.auths[auth].execution == Some(execution) && !Unresolved(t, auth) && AuthOk(t, auth)
    ensures Invariant(ConsumeTables(t, auth, execution, now))
  {
    var u := ConsumeTables(t, auth, execution, now);
    ConsumeKeepsRows(t, auth, execution, now);
    ConsumeKeepsFences(t, auth, execution, now);
    IntentsFrame(t, u);
    AttemptsFrame(t, u);
  }

  /** Consuming never checks that it ended an execution; the invariant says it always does. */
  lemma ConsumeShape(s: Store, c: Claim, now: int)
    requires ConsumeChange(s, c, now).Ok? && ConsumeChange(s, c, now).value.events != []
    requires c.binding.authorizationId in s.tables.auths ==> AuthOk(s.tables, c.binding.authorizationId)
    ensures var auth := c.binding.authorizationId;
            && auth in s.tables.auths && s.tables.auths[auth].state.Claimed?
            && s.tables.auths[auth].execution == Some(c.executionId) && !Unresolved(s.tables, auth)
            && var u, e := ConsumeTables(s.tables, auth, c.executionId, now), ExecutionConsumed(auth, c.executionId, c.fence, now);
               && ConsumeChange(s, c, now).value == Change(s.(tables := u), [e])
               && ApplyEvent(s.tables, e) == Some(u)
  {
  }

  lemma ConsumeSound(s: Store, c: Claim, now: int)
    requires Invariant(s.tables) && DetailsOk(s)
    requires ConsumeChange(s, c, now).Ok?
    ensures Sound(s, ConsumeChange(s, c, now).value)
  {
    var change, t, auth := ConsumeChange(s, c, now).value, s.tables, c.binding.authorizationId;
    assert AuthOk(t, auth);
    if change.events != [] {
      ConsumeShape(s, c, now);
      ConsumeKeeps(t, auth, c.executionId, now);
      SoundFrom(s, change, ConsumeTables(t, auth, c.executionId, now), change.events[0]);
    }
  }

  // ---- Every operation, every run ----

  lemma ChangeSound(p: Primitives, s: Store, op: Operation)
    requires Invariant(s.tables) && DetailsOk(s)
    requires Precheck(s, op).None? && ChangeOf(p, s, op).Ok?
    ensures Sound(s, ChangeOf(p, s, op).value)
  {
    match op
    case Register(_, b) => RegisterSound(s, b);
    case ClaimSession(auth, plan, recovery, execution, now) => ClaimSound(s, auth, plan, recovery, execution, now);
    case Reserve(c, r, attempt, nonce) => ReserveSound(s, c, r, attempt, nonce);
    case RecordOutcome(c, token, report) => RecordOutcomeSound(p, s, c, token, report);
    case RecordRecoveryOutcome(c, attempt, report) => RecoveryOutcomeSound(p, s, c, attempt, report);
    case ClassifyRecovery(c, attempts, observe) => ClassifyAllSound(s, c.binding.authorizationId, attempts, observe);
    case Consume(c, now) => ConsumeSound(s, c, now);
  }

  /** The journal reproduces the tables, and the tables keep their invariants. */
  ghost predicate Honest(p: Primitives, s: Store) {
    && Invariant(s.tables)
    && DetailsOk(s)
    && s.headSequence == |s.journal|
    && ReplayRows(p, s.journal) == Some(Replayed(s.tables, s.headDigest))
  }

  lemma HonestVerifies(p: Primitives, s: Store)
    requires Honest(p, s)
    ensures VerifyDatabase(p, s)
  {
    forall a | a in s.tables.auths
      ensures DetailRowsMatch(s, s.tables.auths[a].binding.authorizationId, s.tables.auths[a].binding)
    {
      assert AuthOk(s.tables, a);
    }
  }

  /** Appending a transaction's events replays to the tables they lead to. */
  lemma {:induction false} AppendsReplay(p: Primitives, s: Store, t: Tables, events: seq<Event>, stamps: nat -> Stamp)
    requires Lawful(p)
    requires s.headSequence == |s.journal| && ReplayRows(p, s.journal) == Some(Replayed(t, s.headDigest))
    requires ApplyEvents(t, events).Some?
    requires AppendEvents(p, s, events, stamps).Ok?
    ensures var after := AppendEvents(p, s, events, stamps).value;
            && after.headSequence == |after.journal|
            && ReplayRows(p, after.journal) == Some(Replayed(ApplyEvents(t, events).value, after.headDigest))
            && after == s.(journal := after.journal, headSequence := after.headSequence, headDigest := after.headDigest)
  {
    if events != [] {
      var n := |events| - 1;
      AppendsReplay(p, s, t, events[..n], stamps);
      var before := AppendEvents(p, s, events[..n], stamps).value;
      AppendReplays(p, before, events[n], stamps(n).recordedAt, stamps(n).monotonic);
    }
  }

  /** One call keeps the store honest, whether it commits or is refused. */
  lemma ExecuteHonest(p: Primitives, s: Store, op: Operation, stamps: nat -> Stamp)
    requires Lawful(p) && Honest(p, s)
    ensures Honest(p, Execute(p, s, op, stamps))
  {
    if Perform(p, s, op, stamps).Ok? {
      ChangeSound(p, s, op);
      var change := ChangeOf(p, s, op).value;
      AppendsReplay(p, change.store, s.tables, change.events, stamps);
      var after := Execute(p, s, op, stamps);
      assert after.tables == change.store.tables;
      DetailsFrame(change.store, after);
    }
  }

  lemma {:induction false} RunsKeepHonesty(p: Primitives, s: Store, calls: seq<Call>)
    requires Lawful(p) && Honest(p, s)
    ensures Honest(p, RunFrom(p, s, calls))
  {
    if calls != [] {
      var n := |calls| - 1;
      RunsKeepHonesty(p, s, calls[..n]);
      ExecuteHonest(p, RunFrom(p, s, calls[..n]), calls[n].op, calls[n].stamps);
    }
  }

  /** Replay agrees with the store after every sequence of calls: whole-store verification
      never rejects a store its own operations produced. */
  lemma RunsVerify(p: Primitives, databaseId: Text, calls: seq<Call>)
    requires Lawful(p)
    ensures Honest(p, Run(p, databaseId, calls))
    ensures VerifyDatabase(p, Run(p, databaseId, calls))
  {
    RunsKeepHonesty(p, NewStore(databaseId), calls);
    HonestVerifies(p, Run(p, databaseId, calls));
  }
}
