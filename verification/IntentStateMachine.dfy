/** The transition table of an intent's status. */
module IntentStateMachine {
  import opened Prelude
  import opened PolicyEngine

  datatype IntentStatus =
    | Draft | PolicyEvaluated | Denied | PendingApproval | ReadyToSign | Submitted | Executed | Failed | Cancelled

  datatype IntentEvent =
    | PolicyAllow | PolicyRequireApproval | PolicyDeny
    | ApprovalCompleted | ApprovalRejected | ApprovalExpired
    | Proposed | OnchainSuccess | OnchainFailed | CancelRequested

  // How far a status is from the end of the table; every listed transition comes closer.
  function Distance(status: IntentStatus): nat {
    match status
    case Draft => 4
    case PolicyEvaluated => 4
    case PendingApproval => 3
    case ReadyToSign => 2
    case Submitted => 1
    case _ => 0
  }

  // None stands for the error of an event the table does not list.
  function Transition(current: IntentStatus, event: IntentEvent): (next: Option<IntentStatus>)
    ensures next.Some? ==> Distance(next.value) < Distance(current)
  {
    match (current, event)
    case (Draft, PolicyAllow) => Some(ReadyToSign)
    case (Draft, PolicyRequireApproval) => Some(PendingApproval)
    case (Draft, PolicyDeny) => Some(Denied)
    case (PolicyEvaluated, PolicyAllow) => Some(ReadyToSign)
    case (PolicyEvaluated, PolicyRequireApproval) => Some(PendingApproval)
    case (PolicyEvaluated, PolicyDeny) => Some(Denied)
    case (PendingApproval, ApprovalCompleted) => Some(ReadyToSign)
    case (PendingApproval, ApprovalRejected) => Some(Cancelled)
    case (PendingApproval, ApprovalExpired) => Some(Cancelled)
    case (PendingApproval, CancelRequested) => Some(Cancelled)
    case (ReadyToSign, Proposed) => Some(Submitted)
    case (ReadyToSign, CancelRequested) => Some(Cancelled)
    case (Submitted, OnchainSuccess) => Some(Executed)
    case (Submitted, OnchainFailed) => Some(Failed)
    case _ => None
  }

  /** The table has no way out of exactly the statuses at distance 0, and no cycles. */
  lemma FinalStatuses(current: IntentStatus)
    ensures (forall e :: Transition(current, e).None?) <==> Distance(current) == 0
  {
    assert Transition(Draft, PolicyDeny).Some? && Transition(PolicyEvaluated, PolicyDeny).Some?;
    assert Transition(PendingApproval, CancelRequested).Some? && Transition(ReadyToSign, CancelRequested).Some?;
    assert Transition(Submitted, OnchainFailed).Some?;
  }

  /**
   * The table read by column: an event leads to one status wherever it is listed, and it is listed in one stage (for
   * a cancellation: the two stages before submission).
   */
  lemma TableByEvent(current: IntentStatus, event: IntentEvent, next: IntentStatus)
    ensures Transition(current, event) == Some(next) <==>
            match event
            case PolicyAllow => current in {Draft, PolicyEvaluated} && next == ReadyToSign
            case PolicyRequireApproval => current in {Draft, PolicyEvaluated} && next == PendingApproval
            case PolicyDeny => current in {Draft, PolicyEvaluated} && next == Denied
            case ApprovalCompleted => current == PendingApproval && next == ReadyToSign
            case ApprovalRejected => current == PendingApproval && next == Cancelled
            case ApprovalExpired => current == PendingApproval && next == Cancelled
            case Proposed => current == ReadyToSign && next == Submitted
            case OnchainSuccess => current == Submitted && next == Executed
            case OnchainFailed => current == Submitted && next == Failed
            case CancelRequested => current in {PendingApproval, ReadyToSign} && next == Cancelled
  {
  }

  // The services only ask for transitions the table lists.
  function StatusAfter(current: IntentStatus, event: IntentEvent): IntentStatus
    requires Transition(current, event).Some?
  {
    Transition(current, event).value
  }

  function PolicyEvent(decision: DecisionType): (event: IntentEvent)
    ensures Transition(Draft, event).Some?
  {
    match decision
    case Allow => PolicyAllow
    case Deny => PolicyDeny
    case NeedApproval => PolicyRequireApproval
  }

  function InitialStatus(decision: DecisionType): IntentStatus {
    StatusAfter(Draft, PolicyEvent(decision))
  }
}
