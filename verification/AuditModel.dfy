/** Entities of the audit store: bindings, claims, tokens, events and the SQL tables. */
module AuditModel {
  import opened Bytes
  import opened Wrappers

  type Id = Text

  const I64_MAX: int := 0x7FFF_FFFF_FFFF_FFFF
  const MAX_ACTIONS_PER_AUTHORIZATION := 256
  const MAX_AUTHORIZATIONS := 4096
  const MAX_EVENTS := 100_000

  datatype AuthorizationSource = HumanApproval | ExplicitDangerousDelete | DeterministicSimulation
  datatype RequestedMode = Trash | Permanent
  datatype RiskTier = R1 | R2 | R3 | R4

  /** The policy and session fields a binding, an intent and a token must agree on. */
  datatype Policy = Policy(version: Text, policyDigest: Id, anchorSnapshotDigest: Id,
                           adapterCapabilitiesDigest: Id, cleanerSetDigest: Id,
                           hostInstance: Id, userIdentity: Id, workflowSession: Id)

  datatype Binding = Binding(authorizationId: Id, source: AuthorizationSource, batchId: Id,
                             planId: Id, planDigest: Id, mode: RequestedMode,
                             itemIds: set<Id>, actionIds: set<Id>, actionCount: nat,
                             itemByAction: map<Id, Id>, riskByAction: map<Id, RiskTier>,
                             policy: Policy)

  predicate ValidBinding(b: Binding) {
    && 0 < |b.actionIds| <= MAX_ACTIONS_PER_AUTHORIZATION
    && 0 < |b.itemIds| <= MAX_ACTIONS_PER_AUTHORIZATION
    && b.actionCount == |b.actionIds|
    && b.itemByAction.Keys == b.actionIds
    && b.riskByAction.Keys == b.actionIds
    && b.itemByAction.Values == b.itemIds
    && b.policy.version != []
    && (b.source.ExplicitDangerousDelete? ==>
          b.mode.Permanent? && forall a | a in b.riskByAction :: b.riskByAction[a].R4?)
  }

  /** Everything an intent was authorised under; a durable token carries the same fields. */
  datatype Authority = Authority(attemptId: Id, nonce: Id, databaseId: Text, executionId: Text,
                                 authorizationId: Id, source: AuthorizationSource, batchId: Id,
                                 planId: Id, planDigest: Id, itemId: Id, actionId: Id,
                                 mode: RequestedMode, risk: RiskTier, sourcePathHash: Id,
                                 revalidationDigest: Id, fence: int, policy: Policy)

  predicate AuthorityMatchesBinding(a: Authority, b: Binding) {
    && a.authorizationId == b.authorizationId
    && a.source == b.source
    && a.batchId == b.batchId
    && a.planId == b.planId
    && a.planDigest == b.planDigest
    && a.mode == b.mode
    && a.actionId in b.itemByAction && b.itemByAction[a.actionId] == a.itemId
    && a.actionId in b.riskByAction && b.riskByAction[a.actionId] == a.risk
    && a.policy == b.policy
  }

  datatype StableStatus = TrashSucceededPlatformReported | TrashSucceededLocationReported
    | PermanentDeleteSucceeded | FailedPlatformError | FailedCancelledByPlatform
    | FailedSourceUnchanged | VanishedBeforeAction | CancelledBeforeAction
    | IndeterminateAfterCrash | IndeterminatePlatformResult

  datatype RecoveryState = PlatformTrashReported | TrashLocationReported | InapplicablePermanent
    | RecoverySourceUnchanged | RecoveryCancelled | RecoveryVanished | RecoveryIndeterminate

  /** A validated platform result; `detail` stands for its remaining evidence fields. */
  datatype Report = Report(status: StableStatus, recoveryState: RecoveryState, detail: Text)

  datatype Outcome = Outcome(authority: Authority, report: Report)

  datatype Disposition = Pending | StillReserved | Indeterminate

  datatype RecoveryRecord = RecoveryRecord(batchId: Id, authorizationId: Id, actionId: Id,
                                           attemptId: Id, disposition: Disposition)

  datatype Observation = SourceStillPresent(exists_: bool) | DestinationConfirmed(exists_: bool)
    | DestinationUnconfirmed | Unknown

  /** What a recovery observation proves about a reserved intent; contradictions are refused. */
  function ClassifyObservation(mode: RequestedMode, o: Observation): Option<Disposition> {
    match o
    case SourceStillPresent(present) => if present then Some(StillReserved) else None
    case DestinationConfirmed(present) =>
      if !present then None else if mode.Trash? then Some(Pending) else Some(Indeterminate)
    case DestinationUnconfirmed => Some(Indeterminate)
    case Unknown => Some(Indeterminate)
  }

  datatype Event =
    | AuthorizationRegistered(binding: Binding)
    | ExecutionClaimed(authorizationId: Id, executionId: Text, fence: int, startedAt: int)
    | RecoveryClaimed(authorizationId: Id, previousExecutionId: Text, executionId: Text,
                      fence: int, startedAt: int)
    | ActionIntent(authority: Authority)
    | ActionOutcome(outcome: Outcome)
    | RecoveryOutcome(outcome: Outcome, recoveryFence: int)
    | RecoveryClassification(authority: Authority, record: RecoveryRecord)
    | ExecutionConsumed(authorizationId: Id, executionId: Text, fence: int, endedAt: int)

  function Kind(e: Event): Text {
    match e
    case AuthorizationRegistered(_) => Ascii("authorization_registered")
    case ExecutionClaimed(_, _, _, _) => Ascii("execution_claimed")
    case RecoveryClaimed(_, _, _, _, _) => Ascii("recovery_claimed")
    case ActionIntent(_) => Ascii("action_intent")
    case ActionOutcome(_) => Ascii("action_outcome")
    case RecoveryOutcome(_, _) => Ascii("recovery_outcome")
    case RecoveryClassification(_, _) => Ascii("recovery_classification")
    case ExecutionConsumed(_, _, _, _) => Ascii("execution_consumed")
  }

  function AuthorityIds(a: Authority): (Option<Id>, Option<Id>, Option<Id>) {
    (Some(a.authorizationId), Some(a.actionId), Some(a.attemptId))
  }

  /** The (authorization, action, attempt) columns an event row is indexed by. */
  function IndexedIds(e: Event): (Option<Id>, Option<Id>, Option<Id>) {
    match e
    case AuthorizationRegistered(b) => (Some(b.authorizationId), None, None)
    case ExecutionClaimed(a, _, _, _) => (Some(a), None, None)
    case RecoveryClaimed(a, _, _, _, _) => (Some(a), None, None)
    case ActionIntent(a) => AuthorityIds(a)
    case ActionOutcome(o) => AuthorityIds(o.authority)
    case RecoveryOutcome(o, _) => AuthorityIds(o.authority)
    case RecoveryClassification(a, _) => AuthorityIds(a)
    case ExecutionConsumed(a, _, _, _) => (Some(a), None, None)
  }

  datatype AuthState = Unused | Claimed | Consumed
  datatype ExecState = Active | Superseded | Ended
  datatype ExecKind = Execution | Recovery
  datatype Terminal = Reserved | OutcomeRecorded | Classified(disposition: Disposition)

  datatype AuthRow = AuthRow(planDigest: Id, binding: Binding, state: AuthState,
                             fence: Option<int>, execution: Option<Text>)
  datatype ExecRow = ExecRow(authorizationId: Id, fence: int, kind: ExecKind, state: ExecState,
                             startedAt: int, endedAt: Option<int>)
  datatype IntentRow = IntentRow(ordinal: int, nonce: Id, authorizationId: Id, executionId: Text,
                                 fence: int, itemId: Id, actionId: Id, sourcePathHash: Id,
                                 revalidationDigest: Id, authority: Authority, terminal: Terminal)

  /** The replayable tables: what SQL stores and what the journal must reproduce. */
  datatype Tables = Tables(auths: map<Id, AuthRow>, execs: map<Text, ExecRow>,
                           intents: map<Id, IntentRow>, outcomes: map<Id, Outcome>,
                           recoveries: map<Id, (Disposition, RecoveryRecord)>,
                           nextFence: int, nextOrdinal: int)

  const EmptyTables := Tables(map[], map[], map[], map[], map[], 0, 0)

  function IntentRowOf(ordinal: int, a: Authority): IntentRow {
    IntentRow(ordinal, a.nonce, a.authorizationId, a.executionId, a.fence, a.itemId, a.actionId,
              a.sourcePathHash, a.revalidationDigest, a, Reserved)
  }

  /** A `ClaimedExecution`: the authority a caller presents, forged or honest. `active` is the
      live-claim flag its guard reads. */
  datatype Claim = Claim(binding: Binding, fence: int, databaseId: Text, executionId: Text,
                         active: bool)

  /** A `DurableIntentToken` and the live claim its weak pointer leads to. */
  datatype Token = Token(authority: Authority, liveAuthorization: Id, liveExecution: Text,
                         liveFence: int, liveActive: bool)

  datatype IntentRequest = IntentRequest(itemId: Id, actionId: Id, sourcePathHash: Id,
                                         revalidationDigest: Id)

  datatype AuditError =
    | NonSimulationAuthorizationRejected | NativeAuthorizationRequired
    | AuthorizationBindingMismatch | IntegrityFailure | StateTooLarge
    | AuthorizationAlreadyExists | AuthorizationUnknown | PlanDigestMismatch
    | FenceEpochOverflow | InvalidClock | AuthorizationNotClaimed | AuthorizationAlreadyClaimed
    | AuthorizationAlreadyConsumed | HeadMismatch | FenceEpochMismatch | ConstraintViolation
    | ActionNotAuthorized | ClaimNotActive | OutcomeAlreadyExists | IntentNotFound
    | InvalidOutcome | RecoveryClaimRequired | InvalidRecoveryObservation
    | UnresolvedIntentsRemain | JournalTooLarge | RecordTooLarge
}
