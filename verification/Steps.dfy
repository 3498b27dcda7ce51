/** What each service call does to the tables when nothing else runs in between. */
module Steps {
  import opened Prelude
  import opened PolicyEngine
  import opened IntentStateMachine
  import opened PolicyEvaluation
  import opened Store

  datatype Error =
    | IntentNotFound | IntentNotReady | NotPrepared | SafeApiRetryable | SafeApiError
    | ApprovalNotFound | ApprovalNotPending | NotEligibleApprover | ApprovalAlreadyDecided
    | MemberNotFound | RoleNotFound | WalletNotFound | InvalidAccessWindow | RoleAlreadyAssigned | AssignmentNotFound
    | PolicyDenied(intentId: Id)

  // ---- Intents ----

  function NewIntent(orgId: Id, memberId: Id, decision: PolicyDecision): Intent {
    Intent(orgId, memberId, InitialStatus(decision.decision), decision, None, None, None)
  }

  function CreateForIntent(t: Tables, intentId: Id, requestId: Id, decision: PolicyDecision, expiresAt: int): Tables {
    if decision.decision.NeedApproval? && decision.metadata.Approval?
    then
      var approval := decision.metadata.approval;
      var roles := if approval.approverRoleIds.Some? then approval.approverRoleIds.value else [];
      var requested := t.(requests := t.requests[requestId :=
                         Request(intentId, approval.approverCount, roles, expiresAt, Pending)]);
      PutIntentStatus(requested, intentId, PendingApproval)
    else t
  }

  function CreateIntent(t: Tables, intentId: Id, requestId: Id, orgId: Id, memberId: Id, decision: PolicyDecision,
                        expiresAt: int): Tables
  {
    CreateForIntent(PutIntent(t, intentId, NewIntent(orgId, memberId, decision)), intentId, requestId, decision,
                    expiresAt)
  }

  predicate Cancellable(status: IntentStatus) {
    status.PendingApproval? || status.ReadyToSign? || status.PolicyEvaluated?
  }

  function CancelIntents(t: Tables, memberIds: set<Id>): Tables {
    t.(intents := map i | i in t.intents ::
                    if t.intents[i].memberId in memberIds && Cancellable(t.intents[i].status)
                    then t.intents[i].(status := Cancelled, failureReason := Some("access_revoked"))
                    else t.intents[i])
  }

  // ---- Approvals ----

  // The checks of recordDecision, in its order. The request's expiry time is not among them.
  function DecisionError(t: Tables, now: int, requestId: Id, memberId: Id): Option<Error> {
    if requestId !in t.requests then Some(ApprovalNotFound)
    else
      var request := t.requests[requestId];
      if !request.status.Pending? then Some(ApprovalNotPending)
      else if request.intentId !in t.intents
              || memberId !in EligibleApprovers(t, now, t.intents[request.intentId].orgId, request.approverRoleIds)
      then Some(NotEligibleApprover)
      else if (requestId, memberId) in t.decisions then Some(ApprovalAlreadyDecided)
      else None
  }

  // Closes a request and moves its intent.
  function Settle(t: Tables, requestId: Id, requestStatus: RequestStatus, intentStatus: IntentStatus): Tables
    requires requestId in t.requests
  {
    PutIntentStatus(PutRequestStatus(t, requestId, requestStatus), t.requests[requestId].intentId, intentStatus)
  }

  function RecordDecision(t: Tables, now: int, requestId: Id, memberId: Id, vote: Vote): Tables {
    if DecisionError(t, now, requestId, memberId).Some? then t
    else
      var voted := PutDecision(t, requestId, memberId, vote);
      if vote.Reject? then Settle(voted, requestId, Rejected, StatusAfter(PendingApproval, ApprovalRejected))
      else if IsQuorumMet(CountApprovals(voted.decisions, requestId), t.requests[requestId].requiredCount)
      then Settle(voted, requestId, Fulfilled, StatusAfter(PendingApproval, ApprovalCompleted))
      else voted
  }

  function ExpireRequest(t: Tables, requestId: Id): Tables {
    if requestId in t.requests && t.requests[requestId].status.Pending?
    then Settle(t, requestId, Expired, StatusAfter(PendingApproval, ApprovalExpired))
    else t
  }

  function StaleRequests(t: Tables, now: int): set<Id> {
    set r | r in t.requests && t.requests[r].status.Pending? && t.requests[r].expiresAt < now
  }

  function IntentsOf(t: Tables, requestIds: set<Id>): set<Id> {
    set r | r in requestIds && r in t.requests :: t.requests[r].intentId
  }

  function ExpireRequests(t: Tables, requestIds: set<Id>): Tables {
    t.(requests := map r | r in t.requests ::
                     if r in requestIds then t.requests[r].(status := Expired) else t.requests[r],
       intents := map i | i in t.intents ::
                    if i in IntentsOf(t, requestIds) then t.intents[i].(status := Cancelled) else t.intents[i])
  }

  // ---- Execution ----

  // What the Safe Transaction Service answers to a proposal.
  datatype SafeAnswer = SafeAccepted(safeTxHash: string) | SafeRejected(reason: string) | SafeRetry

  function ProposalError(t: Tables, intentId: Id, prepared: bool): Option<Error> {
    if intentId !in t.intents then Some(IntentNotFound)
    else if !t.intents[intentId].status.ReadyToSign? then Some(IntentNotReady)
    else if !prepared then Some(NotPrepared)
    else None
  }

  function Propose(t: Tables, intentId: Id, prepared: bool, answer: SafeAnswer): Tables {
    if ProposalError(t, intentId, prepared).Some? then t
    else
      match answer
      case SafeAccepted(hash) =>
        PutIntent(t, intentId,
                  t.intents[intentId].(status := StatusAfter(ReadyToSign, Proposed), safeTxHash := Some(hash)))
      case SafeRejected(reason) =>
        PutIntent(t, intentId, t.intents[intentId].(status := Failed, failureReason := Some(reason)))
      case SafeRetry => t
  }

  // What a poll of the chain status yields; `Pending` outcomes of the source leave the intent alone
  // until the last attempt.
  datatype ChainAnswer = ChainExecuted(txHash: string) | ChainFailed(reason: string) | ChainPending
                       | ChainError(retryable: bool, reason: string)

  const MAX_ATTEMPTS := 60

  // The intent's final row after a poll, if the poll settles it.
  function Settled(intent: Intent, answer: ChainAnswer, attempt: nat): Option<Intent> {
    match answer
    case ChainExecuted(hash) =>
      Some(intent.(status := StatusAfter(Submitted, OnchainSuccess), txHash := Some(hash)))
    case ChainFailed(reason) =>
      Some(intent.(status := StatusAfter(Submitted, OnchainFailed), failureReason := Some(reason)))
    case ChainPending =>
      if attempt >= MAX_ATTEMPTS
      then Some(intent.(status := Failed, failureReason := Some("tx_status_poll_timeout"))) else None
    case ChainError(retryable, reason) =>
      if !retryable || attempt >= MAX_ATTEMPTS
      then Some(intent.(status := Failed, failureReason := Some(reason))) else None
  }

  function Poll(t: Tables, intentId: Id, answer: ChainAnswer, attempt: nat): Tables {
    if intentId in t.intents && t.intents[intentId].status.Submitted?
       && Settled(t.intents[intentId], answer, attempt).Some?
    then PutIntent(t, intentId, Settled(t.intents[intentId], answer, attempt).value)
    else t
  }

  // ---- Role assignments ----

  predicate Live(a: Assignment) {
    a.status.Scheduled? || a.status.Active?
  }

  predicate SameGrant(a: Assignment, memberId: Id, roleId: Id, walletId: Option<Id>) {
    a.memberId == memberId && a.roleId == roleId && a.walletId == walletId
  }

  // What a caller asks for. `startsAt` defaults to the clock; the last two say whether the role and the wallet are
  // rows of the organisation.
  datatype Grant = Grant(orgId: Id, memberId: Id, roleId: Id, walletId: Option<Id>,
                         startsAt: Option<int>, endsAt: Option<int>, roleInOrg: bool, walletInOrg: bool)

  function StartOf(g: Grant, now: int): int {
    if g.startsAt.Some? then g.startsAt.value else now
  }

  function AssignError(t: Tables, now: int, g: Grant): Option<Error> {
    if !ActiveMember(t, g.orgId, g.memberId) then Some(MemberNotFound)
    else if !g.roleInOrg then Some(RoleNotFound)
    else if g.walletId.Some? && !g.walletInOrg then Some(WalletNotFound)
    else if g.endsAt.Some? && g.endsAt.value <= StartOf(g, now) then Some(InvalidAccessWindow)
    else if exists a :: a in t.assignments && Live(t.assignments[a])
                        && SameGrant(t.assignments[a], g.memberId, g.roleId, g.walletId)
    then Some(RoleAlreadyAssigned)
    else None
  }

  function Assign(t: Tables, now: int, assignmentId: Id, g: Grant): Tables {
    if AssignError(t, now, g).Some? then t
    else
      var status := if StartOf(g, now) > now then Scheduled else Active;
      t.(assignments := t.assignments[assignmentId :=
           Assignment(g.memberId, g.roleId, g.walletId, StartOf(g, now), g.endsAt, status)])
  }

  function RevokeError(t: Tables, orgId: Id, memberId: Id, assignmentId: Id): Option<Error> {
    if assignmentId in t.assignments && t.assignments[assignmentId].memberId == memberId
       && memberId in t.members && t.members[memberId].orgId == orgId && Live(t.assignments[assignmentId])
    then None else Some(AssignmentNotFound)
  }

  function Revoke(t: Tables, now: int, orgId: Id, memberId: Id, assignmentId: Id): Tables {
    if RevokeError(t, orgId, memberId, assignmentId).Some? then t
    else
      var revoked := t.assignments[assignmentId].(status := Revoked, endsAt := Some(now));
      CancelIntents(t.(assignments := t.assignments[assignmentId := revoked]), {memberId})
  }

  function Promote(t: Tables, now: int): Tables {
    t.(assignments := map a | a in t.assignments ::
                        if t.assignments[a].status.Scheduled? && t.assignments[a].startsAt <= now
                        then t.assignments[a].(status := Active) else t.assignments[a])
  }

  function Due(t: Tables, now: int): set<Id> {
    set a | a in t.assignments && t.assignments[a].status.Active?
            && t.assignments[a].endsAt.Some? && t.assignments[a].endsAt.value <= now
  }

  function Holders(t: Tables, assignmentIds: set<Id>): set<Id> {
    set a | a in assignmentIds && a in t.assignments :: t.assignments[a].memberId
  }

  // Ends the given assignments and cancels the open intents of their holders.
  function EndAssignments(t: Tables, due: set<Id>): Tables {
    CancelIntents(t.(assignments := map a | a in t.assignments ::
                                      if a in due then t.assignments[a].(status := Ended) else t.assignments[a]),
                  Holders(t, due))
  }

  // The access-expiry job: promote at one clock reading, expire at a later one.
  function Sweep(t: Tables, promoteAt: int, expireAt: int): Tables {
    var promoted := Promote(t, promoteAt);
    EndAssignments(promoted, Due(promoted, expireAt))
  }
}
