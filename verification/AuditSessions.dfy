/** Live claims, the exclusive store lock, and the in-process `active` flag that shadows it. */
module AuditSessions {
  import opened Wrappers

  /** Who holds the operating-system lock: nobody, one of our claims, or another process. */
  datatype Owner = Free | HeldBy(claim: nat) | Foreign

  /** A `LiveClaimAuthority`: its own active flag, and whether its handle was dropped. */
  datatype Slot = Slot(active: bool, dropped: bool)

  datatype Sessions = Sessions(flag: bool, owner: Owner, claims: seq<Slot>)

  datatype Step = Claim(commits: bool) | Consume(claim: nat) | Drop(claim: nat) | ForeignLock | ForeignUnlock

  function ReleaseLock(owner: Owner, claim: nat): Owner {
    if owner == HeldBy(claim) then Free else owner
  }

  /** `release_live_claim`: gives up the lock if this claim has it, and clears both flags. */
  function Released(s: Sessions, claim: nat): Sessions
    requires claim < |s.claims|
  {
    Sessions(false, ReleaseLock(s.owner, claim), s.claims[claim := s.claims[claim].(active := false)])
  }

  predicate ClaimGranted(s: Sessions) {
    !s.flag && s.owner.Free?
  }

  /** One step; impossible and refused steps change nothing. A claim whose transaction fails
      drops the lock it took. */
  function Next(s: Sessions, step: Step): Sessions {
    match step
    case Claim(commits) =>
      if ClaimGranted(s) && commits then Sessions(true, HeldBy(|s.claims|), s.claims + [Slot(true, false)]) else s
    case Consume(i) =>
      if i < |s.claims| && s.claims[i].active && s.owner == HeldBy(i) then Released(s, i) else s
    case Drop(i) =>
      if i < |s.claims| && !s.claims[i].dropped
      then var r := Released(s, i); r.(claims := r.claims[i := r.claims[i].(dropped := true)]) else s
    case ForeignLock => if s.owner.Free? then s.(owner := Foreign) else s
    case ForeignUnlock => if s.owner.Foreign? then s.(owner := Free) else s
  }

  const Start := Sessions(false, Free, [])

  function RunSteps(steps: seq<Step>): Sessions {
    if steps == [] then Start else Next(RunSteps(steps[..|steps| - 1]), steps[|steps| - 1])
  }

  ghost predicate Live(s: Sessions) {
    exists i :: 0 <= i < |s.claims| && s.claims[i].active
  }

  /** A claim is active exactly while it holds the lock, and the flag is set only then. */
  ghost predicate Consistent(s: Sessions) {
    && (s.owner.HeldBy? ==> s.owner.claim < |s.claims|)
    && (forall i | 0 <= i < |s.claims| :: s.claims[i].active <==> s.owner == HeldBy(i))
    && (s.flag ==> s.owner.HeldBy?)
  }

  lemma {:induction false} RunsConsistent(steps: seq<Step>)
    ensures Consistent(RunSteps(steps))
  {
    if steps != [] {
      RunsConsistent(steps[..|steps| - 1]);
    }
  }

  /** At most one claim is ever live, and the lock alone decides the next one: the flag never
      refuses a claim the lock would have granted. */
  lemma OneLiveClaim(steps: seq<Step>, i: nat, j: nat)
    ensures var s := RunSteps(steps);
            && (i < |s.claims| && j < |s.claims| && s.claims[i].active && s.claims[j].active ==> i == j)
            && (ClaimGranted(s) <==> s.owner.Free?)
            && (s.flag ==> Live(s))
  {
    RunsConsistent(steps);
    var s := RunSteps(steps);
    if s.flag {
      assert s.claims[s.owner.claim].active;
    }
  }

  /** The flag tells the truth: set exactly while some claim is live. */
  ghost predicate FlagTruthful(s: Sessions) {
    s.flag <==> Live(s)
  }

  /** It is not an invariant. Consume a claim, take another, then drop the consumed handle: the
      flag is cleared under the live claim, whose intents can then no longer be armed. */
  lemma StaleDropClearsFlag()
    ensures var s := RunSteps([Claim(true), Consume(0), Claim(true), Drop(0)]);
            |s.claims| == 2 && s.claims[1].active && s.owner == HeldBy(1) && !s.flag
  {
    var a := [Claim(true)];
    var b := a + [Consume(0)];
    var c := b + [Claim(true)];
    var d := c + [Drop(0)];
    assert a[..0] == [] && b[..1] == a && c[..2] == b && d[..3] == c;
    assert RunSteps(a) == Sessions(true, HeldBy(0), [Slot(true, false)]);
    assert RunSteps(b) == Sessions(false, Free, [Slot(false, false)]);
    assert RunSteps(c) == Sessions(true, HeldBy(1), [Slot(false, false), Slot(true, false)]);
    assert d == [Claim(true), Consume(0), Claim(true), Drop(0)];
  }

  /** The step that breaks it: dropping a handle that is no longer active under a live claim. */
  predicate StaleDrop(s: Sessions, step: Step) {
    && step.Drop? && step.claim < |s.claims| && !s.claims[step.claim].dropped
    && !s.claims[step.claim].active && s.owner.HeldBy?
  }

  /** From a truthful state a step keeps the flag truthful iff it is not such a drop. */
  lemma FlagKeptIffNoStaleDrop(s: Sessions, step: Step)
    requires Consistent(s) && FlagTruthful(s)
    ensures FlagTruthful(Next(s, step)) <==> !StaleDrop(s, step)
  {
    var n := Next(s, step);
    if s.owner.HeldBy? {
      assert s.claims[s.owner.claim].active;
    }
    if n.owner.HeldBy? && n.owner.claim < |n.claims| {
      assert n.claims[n.owner.claim].active;
    }
  }

  ghost predicate NoStaleDrops(steps: seq<Step>) {
    forall k | 0 <= k < |steps| :: !StaleDrop(RunSteps(steps[..k]), steps[k])
  }

  lemma {:induction false} FlagTruthfulOverRuns(steps: seq<Step>)
    requires NoStaleDrops(steps)
    ensures FlagTruthful(RunSteps(steps))
  {
    if steps != [] {
      var before := steps[..|steps| - 1];
      forall k | 0 <= k < |before| ensures !StaleDrop(RunSteps(before[..k]), before[k]) {
        assert before[..k] == steps[..k];
      }
      FlagTruthfulOverRuns(before);
      RunsConsistent(before);
      FlagKeptIffNoStaleDrop(RunSteps(before), steps[|steps| - 1]);
    }
  }

  /** The coordinator as the process holds it: one flag, updated in place by claims and drops. */
  class SessionCoordinator {
    var active: bool
    var owner: Owner
    var claims: seq<Slot>

    function State(): Sessions
      reads this
    {
      Sessions(active, owner, claims)
    }

    constructor ()
      ensures State() == Start
    {
      active, owner, claims := false, Free, [];
    }

    method ClaimSession(commits: bool) returns (granted: bool)
      modifies this
      ensures State() == Next(old(State()), Claim(commits))
      ensures granted == (old(ClaimGranted(State())) && commits)
    {
      if active {
        return false;
      }
      if !owner.Free? {
        return false;
      }
      owner := HeldBy(|claims|);
      if !commits {
        owner := Free;
        return false;
      }
      claims := claims + [Slot(true, false)];
      active := true;
      return true;
    }

    method ReleaseLiveClaim(i: nat)
      requires i < |claims|
      modifies this
      ensures State() == Released(old(State()), i)
    {
      if owner == HeldBy(i) {
        owner := Free;
      }
      claims := claims[i := claims[i].(active := false)];
      active := false;
    }

    method ConsumeClaim(i: nat) returns (consumed: bool)
      modifies this
      ensures State() == Next(old(State()), Consume(i))
      ensures consumed == (i < |old(claims)| && old(claims)[i].active && old(owner) == HeldBy(i))
    {
      if i >= |claims| || !claims[i].active || owner != HeldBy(i) {
        return false;
      }
      ReleaseLiveClaim(i);
      return true;
    }

    method DropClaim(i: nat)
      requires i < |claims| && !claims[i].dropped
      modifies this
      ensures State() == Next(old(State()), Drop(i))
    {
      ReleaseLiveClaim(i);
      claims := claims[i := claims[i].(dropped := true)];
    }
  }
}
