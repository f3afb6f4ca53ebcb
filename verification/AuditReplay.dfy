/** The journal's own reading of the state machine: `replay_event` and `replay_claim`. */
module AuditReplay {
  import opened Bytes
  import opened Wrappers
  import opened AuditModel

  predicate SameAttempt(row: IntentRow, a: Authority) {
    row.authorizationId == a.authorizationId && row.actionId == a.actionId
  }

  /** Replays a claim; `previous` names the execution a recovery claim supersedes. */
  function ApplyClaim(t: Tables, auth: Id, execution: Text, fence: int, kind: ExecKind,
                      startedAt: int, previous: Option<Text>): Option<Tables>
  {
    if t.nextFence == I64_MAX || fence != t.nextFence + 1 then None
    else if previous.Some? && previous.value !in t.execs then None
    else if previous.None? && (auth !in t.auths || !t.auths[auth].state.Unused?) then None
    else if auth !in t.auths then None
    else
      var ended := if previous.None? then t.execs
                   else t.execs[previous.value := t.execs[previous.value].(state := Superseded, endedAt := Some(startedAt))];
      Some(t.(execs := ended[execution := ExecRow(auth, fence, kind, Active, startedAt, None)],
              auths := t.auths[auth := t.auths[auth].(state := Claimed, fence := Some(fence), execution := Some(execution))],
              nextFence := fence))
  }

  function ApplyOutcome(t: Tables, o: Outcome): Option<Tables> {
    var attempt := o.authority.attemptId;
    if attempt !in t.intents then None
    else Some(t.(intents := t.intents[attempt := t.intents[attempt].(terminal := OutcomeRecorded)],
                 recoveries := t.recoveries - {attempt},
                 outcomes := t.outcomes[attempt := o]))
  }

  /** The tables after one event, or None where replay reports a head mismatch. */
  function ApplyEvent(t: Tables, e: Event): Option<Tables> {
    match e
    case AuthorizationRegistered(b) =>
      if b.authorizationId in t.auths then None
      else Some(t.(auths := t.auths[b.authorizationId := AuthRow(b.planDigest, b, Unused, None, None)]))
    case ExecutionClaimed(auth, execution, fence, startedAt) =>
      ApplyClaim(t, auth, execution, fence, Execution, startedAt, None)
    case RecoveryClaimed(auth, previous, execution, fence, startedAt) =>
      ApplyClaim(t, auth, execution, fence, Recovery, startedAt, Some(previous))
    case ActionIntent(a) =>
      if t.nextOrdinal == I64_MAX || a.attemptId in t.intents
         || exists i | i in t.intents :: SameAttempt(t.intents[i], a) then None
      else Some(t.(nextOrdinal := t.nextOrdinal + 1,
                   intents := t.intents[a.attemptId := IntentRowOf(t.nextOrdinal + 1, a)]))
    case ActionOutcome(o) => ApplyOutcome(t, o)
    case RecoveryOutcome(o, _) => ApplyOutcome(t, o)
    case RecoveryClassification(a, record) =>
      if a.attemptId !in t.intents then None
      else Some(t.(intents := t.intents[a.attemptId := t.intents[a.attemptId].(terminal := Classified(record.disposition))],
                   recoveries := t.recoveries[a.attemptId := (record.disposition, record)]))
    case ExecutionConsumed(auth, execution, fence, endedAt) =>
      if auth !in t.auths || t.auths[auth].execution != Some(execution)
         || t.auths[auth].fence != Some(fence) || execution !in t.execs then None
      else Some(t.(auths := t.auths[auth := t.auths[auth].(state := Consumed, execution := None)],
                   execs := t.execs[execution := t.execs[execution].(state := Ended, endedAt := Some(endedAt))]))
  }

  function ApplyEvents(t: Tables, events: seq<Event>): Option<Tables> {
    if events == [] then Some(t)
    else
      var before := ApplyEvents(t, events[..|events| - 1]);
      if before.None? then None else ApplyEvent(before.value, events[|events| - 1])
  }

  /** The mutable projection replay fills in place, one event at a time. A refused event may
      leave it half updated; every caller then discards it. */
  class ReplayedProjection {
    var auths: map<Id, AuthRow>
    var execs: map<Text, ExecRow>
    var intents: map<Id, IntentRow>
    var outcomes: map<Id, Outcome>
    var recoveries: map<Id, (Disposition, RecoveryRecord)>
    var nextFence: int
    var nextOrdinal: int

    function Contents(): Tables
      reads this
    {
      Tables(auths, execs, intents, outcomes, recoveries, nextFence, nextOrdinal)
    }

    constructor ()
      ensures Contents() == EmptyTables
    {
      auths, execs, intents, outcomes, recoveries := map[], map[], map[], map[], map[];
      nextFence, nextOrdinal := 0, 0;
    }

    method ReplayClaim(auth: Id, execution: Text, fence: int, kind: ExecKind, startedAt: int,
                       previous: Option<Text>) returns (ok: bool)
      modifies this
      ensures ok == old(ApplyClaim(Contents(), auth, execution, fence, kind, startedAt, previous)).Some?
      ensures ok ==> Some(Contents()) == old(ApplyClaim(Contents(), auth, execution, fence, kind, startedAt, previous))
    {
      if nextFence == I64_MAX || fence != nextFence + 1 {
        return false;
      }
      match previous {
        case Some(earlier) =>
          if earlier !in execs {
            return false;
          }
          execs := execs[earlier := execs[earlier].(state := Superseded, endedAt := Some(startedAt))];
        case None =>
          if auth !in auths || !auths[auth].state.Unused? {
            return false;
          }
      }
      nextFence := fence;
      execs := execs[execution := ExecRow(auth, fence, kind, Active, startedAt, None)];
      if auth !in auths {
        return false;
      }
      auths := auths[auth := auths[auth].(state := Claimed, fence := Some(fence), execution := Some(execution))];
      return true;
    }

    method ReplayEvent(e: Event) returns (ok: bool)
      modifies this
      ensures ok == old(ApplyEvent(Contents(), e)).Some?
      ensures ok ==> Some(Contents()) == old(ApplyEvent(Contents(), e))
    {
      match e {
        case AuthorizationRegistered(b) =>
          var isNew := b.authorizationId !in auths;
          auths := auths[b.authorizationId := AuthRow(b.planDigest, b, Unused, None, None)];
          return isNew;
        case ExecutionClaimed(auth, execution, fence, startedAt) =>
          ok := ReplayClaim(auth, execution, fence, Execution, startedAt, None);
        case RecoveryClaimed(auth, previous, execution, fence, startedAt) =>
          ok := ReplayClaim(auth, execution, fence, Recovery, startedAt, Some(previous));
        case ActionIntent(a) =>
          if nextOrdinal == I64_MAX {
            return false;
          }
          nextOrdinal := nextOrdinal + 1;
          if exists i | i in intents :: SameAttempt(intents[i], a) {
            return false;
          }
          var isNew := a.attemptId !in intents;
          intents := intents[a.attemptId := IntentRowOf(nextOrdinal, a)];
          return isNew;
        case ActionOutcome(o) =>
          ok := ReplayOutcome(o);
        case RecoveryOutcome(o, _) =>
          ok := ReplayOutcome(o);
        case RecoveryClassification(a, record) =>
          if a.attemptId !in intents {
            return false;
          }
          intents := intents[a.attemptId := intents[a.attemptId].(terminal := Classified(record.disposition))];
          recoveries := recoveries[a.attemptId := (record.disposition, record)];
          return true;
        case ExecutionConsumed(auth, execution, fence, endedAt) =>
          if auth !in auths {
            return false;
          }
          if auths[auth].execution != Some(execution) || auths[auth].fence != Some(fence) {
            return false;
          }
          auths := auths[auth := auths[auth].(state := Consumed, execution := None)];
          if execution !in execs {
            return false;
          }
          execs := execs[execution := execs[execution].(state := Ended, endedAt := Some(endedAt))];
          return true;
      }
    }

    method ReplayOutcome(o: Outcome) returns (ok: bool)
      modifies this
      ensures ok == old(ApplyOutcome(Contents(), o)).Some?
      ensures ok ==> Some(Contents()) == old(ApplyOutcome(Contents(), o))
    {
      var attempt := o.authority.attemptId;
      if attempt !in intents {
        return false;
      }
      intents := intents[attempt := intents[attempt].(terminal := OutcomeRecorded)];
      recoveries := recoveries - {attempt};
      outcomes := outcomes[attempt := o];
      return true;
    }
  }
}
