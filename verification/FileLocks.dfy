/** SQLite's five-level file lock over three byte ranges of one file, held by any number of
    handles that interleave between single record-lock calls, any of which may fail. */
module FileLocks {
  // ---- One handle ----

  datatype Level = NoLock | Shared | Reserved | Pending | Exclusive

  function Rank(level: Level): nat {
    match level
    case NoLock => 0
    case Shared => 1
    case Reserved => 2
    case Pending => 3
    case Exclusive => 4
  }

  /** What a handle holds on one byte range. */
  datatype Mode = Free | Read | Write

  datatype Held = Held(shared: Mode, reserved: Mode, pending: Mode)

  const NOTHING := Held(Free, Free, Free)

  datatype Call = Lock(level: Level) | Unlock(level: Level) | Close

  /** Where a handle stands inside a call: before a record-lock call, or (`Note…`) before writing
      down the level it has reached. */
  datatype Stage =
    | Idle
    | AskPending(target: Level)
    | AskShared(target: Level)
    | DropPending(target: Level, got: bool)
    | NoteShared(target: Level)
    | AskReserved(target: Level)
    | NoteReserved(target: Level)
    | AskPendingWrite
    | NotePending
    | AskExclusive
    | NoteExclusive
    | ReleaseAll
    | NoteReleased
    | Downgrade
    | DropUpper
    | NoteDowngraded
    | Closing
    | Closed

  /** `level` is the recorded level, `held` the locks the kernel grants, `ok` the last result. */
  datatype Handle = Handle(level: Level, stage: Stage, held: Held, ok: bool)

  const OPENED := Handle(NoLock, Idle, NOTHING, true)

  predicate Requestable(level: Level) {
    level.Shared? || level.Reserved? || level.Exclusive?
  }

  /** Once SHARED is recorded: what a lock call still has to do. */
  function Above(target: Level, level: Level): Stage {
    if Rank(target) >= 2 && Rank(level) < 2 then AskReserved(target)
    else if target.Exclusive? then AskPendingWrite
    else Idle
  }

  /** The checks at the head of `lock`, `unlock` and `close`. */
  function Begin(h: Handle, call: Call): Handle
    requires h.stage.Idle?
  {
    match call
    case Lock(target) =>
      if !Requestable(target) then h.(ok := false)
      else if Rank(target) <= Rank(h.level) then h.(ok := true)
      else h.(ok := true, stage := if h.level.NoLock? then AskPending(target) else Above(target, h.level))
    case Unlock(level) =>
      if level.NoLock? then h.(ok := true, stage := ReleaseAll)
      else if level.Shared? then h.(ok := true, stage := Downgrade)
      else h.(ok := false)
    case Close => h.(ok := true, stage := Closing, level := NoLock)
  }

  /** The locks held if the record-lock call at this stage is granted. */
  function Wanted(h: Handle): Held {
    match h.stage
    case AskPending(_) => h.held.(pending := Read)
    case AskShared(_) => h.held.(shared := Read)
    case DropPending(_, _) => h.held.(pending := Free)
    case AskReserved(_) => h.held.(reserved := Write)
    case AskPendingWrite => h.held.(pending := Write)
    case AskExclusive => h.held.(shared := Write)
    case ReleaseAll => NOTHING
    case Downgrade => h.held.(shared := Read)
    case DropUpper => h.held.(pending := Free, reserved := Free)
    case Closing => NOTHING
    case _ => h.held
  }

  predicate Calls(stage: Stage) {
    !stage.Idle? && !stage.Closed? && !Notes(stage)
  }

  predicate Notes(stage: Stage) {
    stage.NoteShared? || stage.NoteReserved? || stage.NotePending? || stage.NoteExclusive?
    || stage.NoteReleased? || stage.NoteDowngraded?
  }

  /** The stage after the record-lock call at this stage returns. */
  function Next(h: Handle, granted: bool): Handle
    requires Calls(h.stage)
  {
    match h.stage
    case AskPending(t) => if granted then h.(stage := AskShared(t)) else Fail(h)
    case AskShared(t) => h.(stage := DropPending(t, granted))
    case DropPending(t, got) => if got && granted then h.(stage := NoteShared(t)) else Fail(h)
    case AskReserved(t) => if granted then h.(stage := NoteReserved(t)) else Fail(h)
    case AskPendingWrite => if granted then h.(stage := NotePending) else Fail(h)
    case AskExclusive => if granted then h.(stage := NoteExclusive) else Fail(h)
    case ReleaseAll => if granted then h.(stage := NoteReleased) else Fail(h)
    case Downgrade => if granted then h.(stage := DropUpper) else Fail(h)
    case DropUpper => if granted then h.(stage := NoteDowngraded) else Fail(h)
    case Closing => h.(stage := Closed, ok := granted)
  }

  function Fail(h: Handle): Handle {
    h.(stage := Idle, ok := false)
  }

  /** Writing down a level and going on. */
  function Noted(h: Handle): Handle
    requires Notes(h.stage)
  {
    match h.stage
    case NoteShared(t) => h.(level := Shared, stage := Above(t, Shared))
    case NoteReserved(t) => h.(level := Reserved, stage := Above(t, Reserved))
    case NotePending => h.(level := Pending, stage := AskExclusive)
    case NoteExclusive => h.(level := Exclusive, stage := Idle)
    case NoteReleased => h.(level := NoLock, stage := Idle)
    case NoteDowngraded => h.(level := Shared, stage := Idle)
  }

  /** One step of one handle, given the lock manager's answer where it asks one. */
  function Advance(h: Handle, granted: bool): Handle {
    if Calls(h.stage) then (if granted then Next(h, true).(held := Wanted(h)) else Next(h, false))
    else if Notes(h.stage) then Noted(h)
    else h
  }

  // ---- Every handle on one file ----

  predicate Coexist(a: Mode, b: Mode) {
    a.Free? || b.Free? || (a.Read? && b.Read?)
  }

  predicate Compatible(a: Held, b: Held) {
    Coexist(a.shared, b.shared) && Coexist(a.reserved, b.reserved) && Coexist(a.pending, b.pending)
  }

  /** Moves: a call begins, or a handle takes its next step. The lock manager grants only what is
      compatible with every other handle, and may refuse anything. */
  datatype Move = Enter(handle: nat, call: Call) | Resume(handle: nat, willing: bool)

  /** Callers only unlock downwards: to nothing, or to SHARED from SHARED or above. */
  predicate Downwards(h: Handle, call: Call) {
    call.Unlock? && call.level.Shared? ==> Rank(h.level) >= 1
  }

  predicate Allowed(all: seq<Handle>, i: nat)
    requires i < |all|
  {
    forall j | 0 <= j < |all| && j != i :: Compatible(Wanted(all[i]), all[j].held)
  }

  function Step(all: seq<Handle>, move: Move): (after: seq<Handle>)
    ensures |after| == |all|
  {
    if move.handle >= |all| then all
    else
      var i, h := move.handle, all[move.handle];
      match move
      case Enter(_, call) => if h.stage.Idle? && Downwards(h, call) then all[i := Begin(h, call)] else all
      case Resume(_, willing) => all[i := Advance(h, willing && Allowed(all, i))]
  }

  function Run(all: seq<Handle>, moves: seq<Move>): (after: seq<Handle>)
    ensures |after| == |all|
  {
    if moves == [] then all else Step(Run(all, moves[..|moves| - 1]), moves[|moves| - 1])
  }

  // ---- What every run keeps ----

  /** Locks are gone but the old level is still recorded. */
  predicate Lagging(h: Handle) {
    h.stage.NoteReleased? || h.stage.NoteDowngraded?
  }

  /** Outside the tail of unlock, the recorded level never claims more than is held. */
  predicate LevelHeld(h: Handle) {
    && (Rank(h.level) >= 1 ==> !h.held.shared.Free?)
    && (Rank(h.level) >= 2 ==> h.held.reserved.Write?)
    && (Rank(h.level) >= 3 ==> h.held.pending.Write?)
  }

  predicate StageOk(h: Handle) {
    match h.stage
    case AskPending(_) => h.level.NoLock?
    case AskShared(_) => h.level.NoLock? && !h.held.pending.Free?
    case DropPending(_, got) => h.level.NoLock? && (got ==> !h.held.shared.Free?)
    case NoteShared(_) => h.level.NoLock? && !h.held.shared.Free?
    case AskReserved(_) => h.level.Shared?
    case NoteReserved(_) => h.level.Shared? && h.held.reserved.Write?
    case AskPendingWrite => 2 <= Rank(h.level) <= 3
    case NotePending => 2 <= Rank(h.level) <= 3 && h.held.pending.Write?
    case AskExclusive => h.level.Pending?
    case NoteExclusive => h.level.Pending? && h.held.shared.Write?
    case Downgrade => Rank(h.level) >= 1
    case DropUpper => Rank(h.level) >= 1 && h.held.shared.Read?
    case NoteReleased => h.held == NOTHING
    case NoteDowngraded => h.held == Held(Read, Free, Free)
    case Closing => h.level.NoLock?
    case Closed => h.level.NoLock?
    case _ => true
  }

  predicate HandleOk(h: Handle) {
    StageOk(h) && (!Lagging(h) ==> LevelHeld(h))
  }

  /** No other handle holds the shared range while this one is recorded EXCLUSIVE and has not let
      go of PENDING. A failed unlock may already have downgraded this handle's own range. */
  predicate Sealed(a: Handle, b: Handle) {
    a.level.Exclusive? && !Lagging(a) ==> b.held.shared.Free?
  }

  ghost predicate Safe(all: seq<Handle>) {
    && (forall i {:trigger HandleOk(all[i])} | 0 <= i < |all| :: HandleOk(all[i]))
    && (forall i, j {:trigger Compatible(all[i].held, all[j].held)} | 0 <= i < |all| && 0 <= j < |all| && i != j ::
          Compatible(all[i].held, all[j].held))
    && (forall i, j {:trigger Sealed(all[i], all[j])} | 0 <= i < |all| && 0 <= j < |all| && i != j :: Sealed(all[i], all[j]))
  }

  /** Taking the shared range anew means holding PENDING, which no one else then holds for writing. */
  lemma NewHolderHoldsPending(h: Handle, granted: bool)
    requires HandleOk(h) && h.held.shared.Free? && !Advance(h, granted).held.shared.Free?
    ensures granted && !h.held.pending.Free? && Advance(h, granted).held == Wanted(h)
  {
  }

  lemma AdvanceOk(h: Handle, granted: bool)
    requires HandleOk(h)
    ensures HandleOk(Advance(h, granted))
  {
    if Calls(h.stage) {
      if granted {
        GrantedOk(h);
      }
    } else if Notes(h.stage) {
      NotedOk(h);
    }
  }

  lemma GrantedOk(h: Handle)
    requires HandleOk(h) && Calls(h.stage)
    ensures HandleOk(Next(h, true).(held := Wanted(h)))
  {
  }

  lemma NotedOk(h: Handle)
    requires HandleOk(h) && Notes(h.stage)
    ensures HandleOk(Noted(h))
  {
  }

  lemma StepKeepsSafe(all: seq<Handle>, move: Move)
    requires Safe(all)
    ensures Safe(Step(all, move))
  {
    var after, m := Step(all, move), move.handle;
    if m < |all| {
      var h := all[m];
      assert HandleOk(h);
      forall j | 0 <= j < |all| && j != m
        ensures Compatible(after[m].held, all[j].held) && Compatible(all[j].held, after[m].held)
        ensures Sealed(after[m], all[j]) && Sealed(all[j], after[m])
      {
        assert Compatible(h.held, all[j].held);
        assert Sealed(h, all[j]) && Sealed(all[j], h);
        assert HandleOk(all[j]);
        StepKeepsPair(all, move, j);
      }
      if move.Resume? {
        AdvanceOk(h, move.willing && Allowed(all, m));
      }
      forall i | 0 <= i < |all| ensures HandleOk(after[i]) {
        assert HandleOk(all[i]);
      }
      forall i, j | 0 <= i < |all| && 0 <= j < |all| && i != j
        ensures Compatible(after[i].held, after[j].held) && Sealed(after[i], after[j])
      {
        assert Compatible(all[i].held, all[j].held) && Sealed(all[i], all[j]);
      }
    }
  }

  /** The handle that moved against any other. */
  lemma StepKeepsPair(all: seq<Handle>, move: Move, j: nat)
    requires move.handle < |all| && j < |all| && j != move.handle
    requires HandleOk(all[move.handle]) && HandleOk(all[j])
    requires Compatible(all[move.handle].held, all[j].held)
    requires Sealed(all[move.handle], all[j]) && Sealed(all[j], all[move.handle])
    ensures var h := Step(all, move)[move.handle];
            && Compatible(h.held, all[j].held) && Compatible(all[j].held, h.held)
            && Sealed(h, all[j]) && Sealed(all[j], h)
  {
    var h := all[move.handle];
    if move.Resume? {
      var granted := move.willing && Allowed(all, move.handle);
      if granted {
        assert Compatible(Wanted(h), all[j].held);
      }
    }
  }

  lemma {:induction false} RunsAreSafe(count: nat, moves: seq<Move>)
    ensures Safe(Run(seq(count, _ => OPENED), moves))
  {
    if moves != [] {
      RunsAreSafe(count, moves[..|moves| - 1]);
      StepKeepsSafe(Run(seq(count, _ => OPENED), moves[..|moves| - 1]), moves[|moves| - 1]);
    }
  }

  // ---- What the recorded levels mean ----

  /** The recorded level claims locks that are gone: all of them, or those above SHARED. */
  predicate Lags(h: Handle) {
    (h.stage.NoteReleased? && Rank(h.level) >= Rank(Shared)) || (h.stage.NoteDowngraded? && Rank(h.level) >= Rank(Reserved))
  }

  /** In every reachable state a recorded level is backed by the locks it stands for if and only
      if its handle is not between letting locks go and writing that down. */
  lemma LevelHeldIffNotLagging(count: nat, moves: seq<Move>, i: nat)
    requires i < |Run(seq(count, _ => OPENED), moves)|
    ensures var h := Run(seq(count, _ => OPENED), moves)[i]; LevelHeld(h) <==> !Lags(h)
  {
    RunsAreSafe(count, moves);
    assert HandleOk(Run(seq(count, _ => OPENED), moves)[i]);
  }

  /** EXCLUSIVE beside SHARED or above, or two handles at RESERVED or above. */
  predicate Broken(a: Handle, b: Handle) {
    || (a.level.Exclusive? && Rank(b.level) >= Rank(Shared))
    || (b.level.Exclusive? && Rank(a.level) >= Rank(Shared))
    || (Rank(a.level) >= Rank(Reserved) && Rank(b.level) >= Rank(Reserved))
  }

  lemma SafePairExcludes(a: Handle, b: Handle)
    requires HandleOk(a) && HandleOk(b) && !Lags(a) && !Lags(b)
    requires Compatible(a.held, b.held) && Sealed(a, b) && Sealed(b, a)
    ensures !Broken(a, b)
  {
  }

  /** In every reachable state, between handles neither of which lags: EXCLUSIVE excludes every
      other handle at SHARED or above, and at most one handle is at RESERVED or above. */
  lemma LevelsExclude(count: nat, moves: seq<Move>, i: nat, j: nat)
    requires i < |Run(seq(count, _ => OPENED), moves)| && j < |Run(seq(count, _ => OPENED), moves)| && i != j
    ensures var all := Run(seq(count, _ => OPENED), moves);
            !Lags(all[i]) && !Lags(all[j]) ==> !Broken(all[i], all[j])
  {
    RunsAreSafe(count, moves);
    var all := Run(seq(count, _ => OPENED), moves);
    assert HandleOk(all[i]) && HandleOk(all[j]);
    assert Compatible(all[i].held, all[j].held) && Sealed(all[i], all[j]) && Sealed(all[j], all[i]);
    if !Lags(all[i]) && !Lags(all[j]) {
      SafePairExcludes(all[i], all[j]);
    }
  }

  /** While one handle keeps PENDING, no other handle becomes a holder of the shared range. */
  lemma HoldersOnlyShrink(all: seq<Handle>, move: Move, i: nat, j: nat)
    requires Safe(all) && i < |all| && j < |all| && i != j
    requires all[i].held.pending.Write? && all[j].held.shared.Free?
    ensures Step(all, move)[j].held.shared.Free?
  {
    if move.handle == j && move.Resume? {
      var granted := move.willing && Allowed(all, j);
      assert HandleOk(all[j]);
      if !Advance(all[j], granted).held.shared.Free? {
        NewHolderHoldsPending(all[j], granted);
        PendingPersists(all[j], granted);
        assert false;
      }
    }
  }

  /** A step that takes the shared range lets go of nothing. */
  lemma PendingPersists(h: Handle, granted: bool)
    requires HandleOk(h) && h.held.shared.Free? && !Advance(h, granted).held.shared.Free?
    ensures Wanted(h).pending == h.held.pending
  {
  }

  ghost predicate KeepsPending(all: seq<Handle>, moves: seq<Move>, i: nat)
  {
    i < |all| && forall k | 0 <= k <= |moves| :: i < |Run(all, moves[..k])| && Run(all, moves[..k])[i].held.pending.Write?
  }

  /** Over any stretch of a run throughout which one handle holds PENDING, the set of other
      holders of the shared range only shrinks. */
  lemma {:induction false} HoldersShrinkOverRuns(all: seq<Handle>, moves: seq<Move>, i: nat, j: nat)
    requires Safe(all) && j < |all| && i != j && KeepsPending(all, moves, i)
    ensures Safe(Run(all, moves)) && |Run(all, moves)| == |all|
    ensures !Run(all, moves)[j].held.shared.Free? ==> !all[j].held.shared.Free?
  {
    if moves != [] {
      var n := |moves| - 1;
      assert forall k | 0 <= k <= n :: moves[..n][..k] == moves[..k];
      HoldersShrinkOverRuns(all, moves[..n], i, j);
      StepKeepsSafe(Run(all, moves[..n]), moves[n]);
      assert moves[..n][..n] == moves[..n];
      assert Run(all, moves[..n])[i].held.pending.Write?;
      if Run(all, moves[..n])[j].held.shared.Free? {
        HoldersOnlyShrink(Run(all, moves[..n]), moves[n], i, j);
      }
    }
  }

  /** Why callers must unlock downwards: unlocking to SHARED from nothing takes the shared range
      without passing through PENDING, so a handle holding PENDING would see a new holder. */
  lemma UnlockUpwardsAddsHolder(pendingHolder: Handle)
    requires pendingHolder == Handle(Pending, AskExclusive, Held(Read, Write, Write), true)
    ensures var h := Begin(OPENED, Unlock(Shared));
            && Compatible(Wanted(h), pendingHolder.held)
            && !Advance(h, true).held.shared.Free? && !Downwards(OPENED, Unlock(Shared))
  {
  }

  // ---- Whole calls ----

  function Left(stage: Stage): nat {
    match stage
    case AskPending(_) => 12
    case AskShared(_) => 11
    case DropPending(_, _) => 10
    case NoteShared(_) => 9
    case AskReserved(_) => 8
    case NoteReserved(_) => 7
    case AskPendingWrite => 6
    case NotePending => 5
    case AskExclusive => 4
    case NoteExclusive => 3
    case Downgrade => 3
    case ReleaseAll => 2
    case DropUpper => 2
    case NoteReleased => 1
    case NoteDowngraded => 1
    case Closing => 1
    case _ => 0
  }

  /** Runs a call to its end; `answers(n)` is the lock manager's answer to its n-th request. */
  function Drive(h: Handle, answers: nat -> bool, n: nat): Handle
    decreases Left(h.stage)
  {
    if Calls(h.stage) then Drive(Advance(h, answers(n)), answers, n + 1)
    else if Notes(h.stage) then Drive(Advance(h, true), answers, n)
    else h
  }

  lemma DriveCall(h: Handle, answers: nat -> bool, n: nat)
    requires Calls(h.stage)
    ensures Drive(h, answers, n) == Drive(Advance(h, answers(n)), answers, n + 1)
  {
  }

  lemma DriveNote(h: Handle, answers: nat -> bool, n: nat)
    requires Notes(h.stage)
    ensures Drive(h, answers, n) == Drive(Advance(h, true), answers, n)
  {
  }

  predicate Locking(h: Handle, target: Level) {
    match h.stage
    case AskPending(t) => t == target
    case AskShared(t) => t == target
    case DropPending(t, _) => t == target
    case NoteShared(t) => t == target
    case AskReserved(t) => t == target && Rank(target) >= 2
    case NoteReserved(t) => t == target && Rank(target) >= 2
    case AskPendingWrite => target.Exclusive?
    case NotePending => target.Exclusive?
    case AskExclusive => target.Exclusive?
    case NoteExclusive => target.Exclusive?
    case Idle => h.ok ==> Rank(h.level) >= Rank(target)
    case _ => false
  }

  /** One more stage of a lock call. */
  lemma LockingAdvances(h: Handle, target: Level, granted: bool)
    requires HandleOk(h) && h.ok && Requestable(target) && Locking(h, target) && (Calls(h.stage) || Notes(h.stage))
    ensures var e := Advance(h, granted);
            && HandleOk(e) && Locking(e, target) && Rank(e.level) >= Rank(h.level) && Left(e.stage) < Left(h.stage)
            && (e.stage.DropPending? && !e.stage.got ==> Calls(h.stage) && !granted)
            && (!e.ok ==> e.stage.Idle? && Calls(h.stage) && (!granted || (h.stage.DropPending? && !h.stage.got)))
  {
    AdvanceOk(h, granted);
  }

  /** One of the first `n` answers was a refusal. */
  predicate Refused(answers: nat -> bool, n: nat) {
    exists k | 0 <= k < n :: !answers(k)
  }

  lemma RefusedLater(answers: nat -> bool, n: nat)
    ensures Refused(answers, n) || !answers(n) ==> Refused(answers, n + 1)
  {
    assert !answers(n) ==> Refused(answers, n + 1);
  }

  lemma {:induction false} DriveLocks(h: Handle, target: Level, answers: nat -> bool, n: nat)
    requires HandleOk(h) && Requestable(target) && Locking(h, target)
    requires h.stage.DropPending? && !h.stage.got ==> Refused(answers, n)
    requires !h.ok ==> h.stage.Idle? && Refused(answers, n)
    ensures var e := Drive(h, answers, n);
            && e.stage.Idle? && HandleOk(e)
            && Rank(e.level) >= Rank(h.level)
            && (e.ok ==> Rank(e.level) >= Rank(target))
            && ((forall k: nat :: answers(k)) ==> e.ok)
    decreases Left(h.stage)
  {
    if Calls(h.stage) {
      LockingAdvances(h, target, answers(n));
      RefusedLater(answers, n);
      DriveCall(h, answers, n);
      DriveLocks(Advance(h, answers(n)), target, answers, n + 1);
    } else if Notes(h.stage) {
      LockingAdvances(h, target, true);
      DriveNote(h, answers, n);
      DriveLocks(Advance(h, true), target, answers, n);
    }
  }

  /** A lock call that reports success has reached its level, one that fails never loses a level,
      and it fails only if some record-lock call was refused. */
  lemma LockReaches(h: Handle, target: Level, answers: nat -> bool)
    requires HandleOk(h) && h.stage.Idle? && Requestable(target)
    ensures var e := Drive(Begin(h, Lock(target)), answers, 0);
            && e.stage.Idle? && HandleOk(e)
            && Rank(e.level) >= Rank(h.level)
            && (e.ok ==> Rank(e.level) >= Rank(target))
            && ((forall k: nat :: answers(k)) ==> e.ok)
  {
    DriveLocks(Begin(h, Lock(target)), target, answers, 0);
  }

  /** An unlock that reports success holds exactly what its level needs; one that fails leaves the
      recorded level as it was. */
  lemma UnlockReaches(h: Handle, level: Level, answers: nat -> bool)
    requires HandleOk(h) && h.stage.Idle? && (level.NoLock? || (level.Shared? && Rank(h.level) >= 1))
    ensures var e := Drive(Begin(h, Unlock(level)), answers, 0);
            && e.stage.Idle?
            && (e.ok ==> e.level == level && e.held == if level.NoLock? then NOTHING else Held(Read, Free, Free))
            && (!e.ok ==> e.level == h.level)
            && ((forall k: nat :: answers(k)) ==> e.ok)
  {
    var s := Begin(h, Unlock(level));
    DriveCall(s, answers, 0);
    var s1 := Advance(s, answers(0));
    if s1.stage.DropUpper? {
      DriveCall(s1, answers, 1);
      var s2 := Advance(s1, answers(1));
      if Notes(s2.stage) {
        DriveNote(s2, answers, 2);
      }
    } else if Notes(s1.stage) {
      DriveNote(s1, answers, 1);
    }
  }

  // ---- What a lagging level breaks ----

  lemma {:induction false} RunConcat(all: seq<Handle>, first: seq<Move>, rest: seq<Move>)
    ensures Run(all, first + rest) == Run(Run(all, first), rest)
  {
    if rest == [] {
      assert first + rest == first;
    } else {
      var n := |rest| - 1;
      assert (first + rest)[..|first + rest| - 1] == first + rest[..n];
      RunConcat(all, first, rest[..n]);
    }
  }

  function Pair(mine: Handle, other: Handle, i: nat): seq<Handle> {
    if i == 0 then [mine, other] else [other, mine]
  }

  /** `states` lists what `moves` lead through. */
  ghost predicate Follows(states: nat -> seq<Handle>, moves: seq<Move>, k: nat)
    requires k < |moves|
  {
    Step(states(k), moves[k]) == states(k + 1)
  }

  lemma {:induction false} RunFollows(states: nat -> seq<Handle>, moves: seq<Move>)
    requires forall k {:trigger Follows(states, moves, k)} | 0 <= k < |moves| :: Follows(states, moves, k)
    ensures Run(states(0), moves) == states(|moves|)
  {
    if moves != [] {
      var n := |moves| - 1;
      forall k | 0 <= k < n ensures Follows(states, moves[..n], k) {
        assert Follows(states, moves, k);
      }
      RunFollows(states, moves[..n]);
      assert Follows(states, moves, n);
    }
  }

  /** A call as the handle goes through it, every request granted: idle, begun, and so on. */
  type Script = nat -> Handle

  ghost predicate ScriptOk(script: Script, call: Call, other: Handle, k: nat) {
    if k == 0 then script(0).stage.Idle? && Downwards(script(0), call) && script(1) == Begin(script(0), call)
    else script(k + 1) == Advance(script(k), true) && Compatible(Wanted(script(k)), other.held)
  }

  function MoveAt(i: nat, call: Call, k: int): Move {
    if k == 0 then Enter(i, call) else Resume(i, true)
  }

  /** A call begun and taken `n` steps further. */
  function CallMoves(i: nat, call: Call, n: nat): (moves: seq<Move>)
    ensures |moves| == n + 1
  {
    seq(n + 1, k requires 0 <= k < n + 1 => MoveAt(i, call, k))
  }

  lemma ScriptStep(script: Script, call: Call, other: Handle, i: nat, k: nat)
    requires i < 2 && ScriptOk(script, call, other, k)
    ensures Step(Pair(script(k), other, i), MoveAt(i, call, k)) == Pair(script(k + 1), other, i)
  {
    if k > 0 {
      assert Allowed(Pair(script(k), other, i), i);
    }
  }

  /** Beside a handle that is in its way nowhere, a call runs its script. */
  lemma ScriptRuns(script: Script, call: Call, other: Handle, i: nat, n: nat)
    requires i < 2 && forall k {:trigger ScriptOk(script, call, other, k)} | 0 <= k <= n :: ScriptOk(script, call, other, k)
    ensures Run(Pair(script(0), other, i), CallMoves(i, call, n)) == Pair(script(n + 1), other, i)
  {
    var states := (k: nat) => Pair(script(k), other, i);
    var moves := CallMoves(i, call, n);
    forall k | 0 <= k < |moves| ensures Follows(states, moves, k) {
      assert ScriptOk(script, call, other, k);
      ScriptStep(script, call, other, i, k);
    }
    RunFollows(states, moves);
  }

  /** A fresh handle on its way to `target`. */
  function LockState(target: Level, k: nat): Handle {
    match k
    case 0 => OPENED
    case 1 => Handle(NoLock, AskPending(target), NOTHING, true)
    case 2 => Handle(NoLock, AskShared(target), Held(Free, Free, Read), true)
    case 3 => Handle(NoLock, DropPending(target, true), Held(Read, Free, Read), true)
    case 4 => Handle(NoLock, NoteShared(target), Held(Read, Free, Free), true)
    case 5 => Handle(Shared, Above(target, Shared), Held(Read, Free, Free), true)
    case 6 => Handle(Shared, NoteReserved(target), Held(Read, Write, Free), true)
    case 7 => Handle(Reserved, Above(target, Reserved), Held(Read, Write, Free), true)
    case 8 => Handle(Reserved, NotePending, Held(Read, Write, Write), true)
    case 9 => Handle(Pending, AskExclusive, Held(Read, Write, Write), true)
    case 10 => Handle(Pending, NoteExclusive, Held(Write, Write, Write), true)
    case _ => Handle(Exclusive, Idle, Held(Write, Write, Write), true)
  }

  /** Steps from nothing to SHARED, RESERVED and EXCLUSIVE. */
  function Height(target: Level): nat {
    if target.Shared? then 4 else if target.Reserved? then 6 else 10
  }

  lemma LockStateNext(target: Level, other: Handle, k: nat)
    requires Requestable(target) && 1 <= k <= Height(target)
    requires other.held == NOTHING || (other.held == Held(Read, Free, Free) && !target.Exclusive?)
    ensures LockState(target, k + 1) == Advance(LockState(target, k), true)
    ensures Compatible(Wanted(LockState(target, k)), other.held)
  {
  }

  function LockScript(target: Level): Script {
    (k: nat) => LockState(target, k)
  }

  lemma LockScriptOk(target: Level, other: Handle, k: nat)
    requires Requestable(target) && k <= Height(target)
    requires other.held == NOTHING || (other.held == Held(Read, Free, Free) && !target.Exclusive?)
    ensures ScriptOk(LockScript(target), Lock(target), other, k)
  {
    if k > 0 {
      LockStateNext(target, other, k);
    }
  }

  /** A fresh handle locks, nothing another holds being in its way. */
  lemma FreshLock(target: Level, other: Handle, i: nat)
    requires i < 2 && Requestable(target)
    requires other.held == NOTHING || (other.held == Held(Read, Free, Free) && !target.Exclusive?)
    ensures Run(Pair(OPENED, other, i), CallMoves(i, Lock(target), Height(target))) == Pair(Locked(target), other, i)
  {
    forall k | 0 <= k <= Height(target) ensures ScriptOk(LockScript(target), Lock(target), other, k) {
      LockScriptOk(target, other, k);
    }
    ScriptRuns(LockScript(target), Lock(target), other, i, Height(target));
  }

  function Locked(target: Level): Handle {
    Handle(target, Idle, if target.Shared? then Held(Read, Free, Free)
                         else if target.Reserved? then Held(Read, Write, Free) else Held(Write, Write, Write), true)
  }

  /** Moves of the second handle alone, and only to lock. */
  predicate SecondLocks(moves: seq<Move>) {
    forall m | m in moves :: m.handle == 1 && (m.Enter? ==> m.call.Lock?)
  }

  predicate BreaksAfter(a: Handle, moves: seq<Move>) {
    Broken(Run([a, OPENED], moves)[0], Run([a, OPENED], moves)[1])
  }

  predicate Unlocking(h: Handle) {
    h.stage.ReleaseAll? || h.stage.NoteReleased? || h.stage.Downgrade? || h.stage.DropUpper? || h.stage.NoteDowngraded?
  }

  lemma SecondStep(a: Handle, b: Handle, move: Move)
    requires !Unlocking(b) && move.handle == 1 && (move.Enter? ==> move.call.Lock?)
    ensures Step([a, b], move)[0] == a && !Unlocking(Step([a, b], move)[1])
  {
  }

  lemma {:induction false} SecondStaysOut(a: Handle, moves: seq<Move>)
    requires HandleOk(a) && SecondLocks(moves)
    ensures Safe(Run([a, OPENED], moves))
    ensures Run([a, OPENED], moves)[0] == a && !Unlocking(Run([a, OPENED], moves)[1])
  {
    if moves == [] {
      assert HandleOk(a) && HandleOk(OPENED);
    } else {
      var n := |moves| - 1;
      assert moves[n] in moves && forall m | m in moves[..n] :: m in moves;
      SecondStaysOut(a, moves[..n]);
      var all := Run([a, OPENED], moves[..n]);
      StepKeepsSafe(all, moves[n]);
      assert all == [a, all[1]];
      SecondStep(a, all[1], moves[n]);
    }
  }

  /** Beside a lagging handle, a newly opened one locks its way to a broken pair. */
  lemma LagBreaks(a: Handle) returns (moves: seq<Move>)
    requires HandleOk(a) && Lags(a)
    ensures SecondLocks(moves) && BreaksAfter(a, moves)
  {
    var target := if a.stage.NoteDowngraded? then Reserved else Exclusive;
    FreshLock(target, a, 1);
    moves := CallMoves(1, Lock(target), Height(target));
  }

  /** The lag is exactly what lets the levels clash: another handle, only ever locking, can come
      to break the exclusion beside `a` if and only if `a` lags. */
  lemma ClashIffLags(a: Handle)
    requires HandleOk(a)
    ensures Lags(a) <==> exists moves :: SecondLocks(moves) && BreaksAfter(a, moves)
  {
    if Lags(a) {
      var moves := LagBreaks(a);
    } else {
      forall moves | SecondLocks(moves) ensures !BreaksAfter(a, moves) {
        SecondStaysOut(a, moves);
        var all := Run([a, OPENED], moves);
        assert HandleOk(all[0]) && HandleOk(all[1]) && Compatible(all[0].held, all[1].held);
        assert Sealed(all[0], all[1]) && Sealed(all[1], all[0]);
        SafePairExcludes(all[0], all[1]);
      }
    }
  }

  /** Letting go, up to writing the new level down. */
  function UnlockState(target: Level, k: nat): Handle {
    if target.Exclusive? then
      match k
      case 0 => Locked(Exclusive)
      case 1 => Handle(Exclusive, ReleaseAll, Held(Write, Write, Write), true)
      case _ => Handle(Exclusive, NoteReleased, NOTHING, true)
    else
      match k
      case 0 => Locked(Reserved)
      case 1 => Handle(Reserved, Downgrade, Held(Read, Write, Free), true)
      case 2 => Handle(Reserved, DropUpper, Held(Read, Write, Free), true)
      case _ => Handle(Reserved, NoteDowngraded, Held(Read, Free, Free), true)
  }

  function UnlockScript(target: Level): Script {
    (k: nat) => UnlockState(target, k)
  }

  lemma UnlockScriptOk(target: Level, k: nat)
    requires (target.Exclusive? && k <= 1) || (target.Reserved? && k <= 2)
    ensures ScriptOk(UnlockScript(target), Unlock(if target.Exclusive? then NoLock else Shared), OPENED, k)
  {
  }

  /** Taking the locks of `target` and letting go again. */
  lemma ComesToLag(target: Level) returns (moves: seq<Move>)
    requires target.Exclusive? || target.Reserved?
    ensures Run([OPENED, OPENED], moves) == [UnlockState(target, if target.Exclusive? then 2 else 3), OPENED]
  {
    var call, n := Unlock(if target.Exclusive? then NoLock else Shared), if target.Exclusive? then 1 else 2;
    var first, second := CallMoves(0, Lock(target), Height(target)), CallMoves(0, call, n);
    FreshLock(target, OPENED, 0);
    forall k | 0 <= k <= n ensures ScriptOk(UnlockScript(target), call, OPENED, k) {
      UnlockScriptOk(target, k);
    }
    ScriptRuns(UnlockScript(target), call, OPENED, 0, n);
    moves := first + second;
    RunConcat([OPENED, OPENED], first, second);
  }

  /** The state is reached: two handles are opened, one locks to EXCLUSIVE and lets go of
      everything, the other locks to SHARED before the first has written its new level down. */
  lemma UnlockLags() returns (moves: seq<Move>)
    ensures var all := Run(seq(2, _ => OPENED), moves);
            all[0].level.Exclusive? && all[1].level.Shared? && all[1].stage.Idle?
  {
    var lagging := Handle(Exclusive, NoteReleased, NOTHING, true);
    var before := ComesToLag(Exclusive);
    FreshLock(Shared, lagging, 1);
    RunConcat([OPENED, OPENED], before, CallMoves(1, Lock(Shared), 4));
    moves := before + CallMoves(1, Lock(Shared), 4);
    assert seq(2, _ => OPENED) == [OPENED, OPENED];
  }

  /** And so is the other: two handles at RESERVED, the first on its way down to SHARED. */
  lemma DowngradeLags() returns (moves: seq<Move>)
    ensures var all := Run(seq(2, _ => OPENED), moves);
            all[0].level.Reserved? && all[1].level.Reserved? && all[1].stage.Idle?
  {
    var lagging := Handle(Reserved, NoteDowngraded, Held(Read, Free, Free), true);
    var before := ComesToLag(Reserved);
    FreshLock(Reserved, lagging, 1);
    RunConcat([OPENED, OPENED], before, CallMoves(1, Lock(Reserved), 6));
    moves := before + CallMoves(1, Lock(Reserved), 6);
    assert seq(2, _ => OPENED) == [OPENED, OPENED];
  }

  /** One open database file: its recorded level and the locks the kernel holds for it. */
  class DatabaseFile {
    var level: Level
    var held: Held

    constructor ()
      ensures Handle(level, Idle, held, true) == OPENED
    {
      level, held := NoLock, NOTHING;
    }

    ghost function Snapshot(ok: bool): Handle
      reads this
    {
      Handle(level, Idle, held, ok)
    }

    /** The first part of `lock`: SHARED is taken under PENDING, which is then let go whatever
        became of SHARED. */
    method AcquireShared(target: Level, answers: nat -> bool) returns (ok: bool)
      requires level.NoLock?
      modifies this
      ensures ok ==> level == Shared
      ensures Drive(Handle(old(level), AskPending(target), old(held), true), answers, 0) ==
              if ok then Drive(Handle(level, Above(target, level), held, true), answers, 3) else Snapshot(false)
    {
      ghost var h := Handle(level, AskPending(target), held, true);
      DriveCall(h, answers, 0);
      if !answers(0) {
        return false;
      }
      held := held.(pending := Read);
      h := Advance(h, true);
      DriveCall(h, answers, 1);
      var shared := answers(1);
      if shared {
        held := held.(shared := Read);
      }
      h := Advance(h, shared);
      DriveCall(h, answers, 2);
      var released := answers(2);
      if released {
        held := held.(pending := Free);
      }
      h := Advance(h, released);
      if !shared || !released {
        return false;
      }
      DriveNote(h, answers, 3);
      level := Shared;
      return true;
    }

    /** The last part: PENDING, which is recorded on its own, then the whole shared range. */
    method AcquireExclusive(answers: nat -> bool, n: nat) returns (ok: bool)
      modifies this
      ensures Drive(Handle(old(level), AskPendingWrite, old(held), true), answers, n) == Snapshot(ok)
    {
      ghost var h := Handle(level, AskPendingWrite, held, true);
      DriveCall(h, answers, n);
      if !answers(n) {
        return false;
      }
      held := held.(pending := Write);
      h := Advance(h, true);
      DriveNote(h, answers, n + 1);
      level := Pending;
      h := Advance(h, true);
      DriveCall(h, answers, n + 1);
      if !answers(n + 1) {
        return false;
      }
      held := held.(shared := Write);
      h := Advance(h, true);
      DriveNote(h, answers, n + 2);
      level := Exclusive;
      return true;
    }

    /** `lock`, with the lock manager's answers in the order they are asked for. */
    method Lock(target: Level, answers: nat -> bool) returns (ok: bool)
      modifies this
      ensures Snapshot(ok) == Drive(Begin(old(Snapshot(true)), Call.Lock(target)), answers, 0)
    {
      if !Requestable(target) {
        return false;
      }
      if Rank(target) <= Rank(level) {
        return true;
      }
      var n := 0;
      if level.NoLock? {
        var shared := AcquireShared(target, answers);
        if !shared {
          return false;
        }
        n := 3;
      }
      ghost var h := Handle(level, Above(target, level), held, true);
      assert Drive(h, answers, n) == Drive(Begin(old(Snapshot(true)), Call.Lock(target)), answers, 0);
      if Rank(target) >= Rank(Reserved) && Rank(level) < Rank(Reserved) {
        DriveCall(h, answers, n);
        if !answers(n) {
          return false;
        }
        held := held.(reserved := Write);
        h := Advance(h, true);
        n := n + 1;
        DriveNote(h, answers, n);
        level := Reserved;
        h := Advance(h, true);
      }
      if target.Exclusive? {
        ok := AcquireExclusive(answers, n);
        return;
      }
      return true;
    }

    /** `unlock`. */
    method Unlock(target: Level, answers: nat -> bool) returns (ok: bool)
      modifies this
      ensures Snapshot(ok) == Drive(Begin(old(Snapshot(true)), Call.Unlock(target)), answers, 0)
    {
      ghost var h := Begin(Snapshot(true), Call.Unlock(target));
      if target.NoLock? {
        DriveCall(h, answers, 0);
        if !answers(0) {
          return false;
        }
        held := NOTHING;
        h := Advance(h, true);
        DriveNote(h, answers, 1);
      } else if target.Shared? {
        DriveCall(h, answers, 0);
        if !answers(0) {
          return false;
        }
        held := held.(shared := Read);
        h := Advance(h, true);
        DriveCall(h, answers, 1);
        if !answers(1) {
          return false;
        }
        held := held.(pending := Free, reserved := Free);
        h := Advance(h, true);
        DriveNote(h, answers, 2);
      } else {
        return false;
      }
      level := target;
      return true;
    }
  }
}
