/**
 * The same calls broken at their awaits. Any number of calls is in flight; each database statement is
 * atomic and sees every earlier one. A call that crashes is one that is never continued.
 */
module Interleaving {
  import opened Prelude
  import opened PolicyEngine
  import opened IntentStateMachine
  import opened PolicyEvaluation
  import opened Store
  import opened Steps

  // A call in flight: what it has read, and (in the comment) the statement it runs next.
  datatype Call =
    | DecideRead(requestId: Id, memberId: Id, vote: Vote, seen: Request, orgId: Id)  // query the eligible approvers
    | DecideEligible(requestId: Id, memberId: Id, vote: Vote, seen: Request)  // look for an earlier decision
    | DecideFresh(requestId: Id, memberId: Id, vote: Vote, seen: Request)     // insert the decision
    | DecideInserted(requestId: Id, memberId: Id, vote: Vote, seen: Request)  // mark rejected, or count approvals
    | DecideQuorum(requestId: Id, intentId: Id)                               // mark the request fulfilled
    | DecideClosed(requestId: Id, intentId: Id, closedAs: RequestStatus)      // write the intent's status
    | SweepList(stale: seq<Id>)                                               // read the first stale request
    | ExpireRead(requestId: Id, intentId: Id, rest: seq<Id>)                  // mark the request expired
    | ExpireMarked(intentId: Id, rest: seq<Id>)                               // cancel the intent
    | ProposeRead(intentId: Id)                                               // ask the Safe service
    | ProposeAnswered(intentId: Id, safe: SafeAnswer)                         // write submitted or failed
    | PollRead(intentId: Id, attempt: nat)                                    // ask for the chain status
    | PollAnswered(intentId: Id, chain: ChainAnswer, attempt: nat)            // write executed or failed
    | CreateInserted(intentId: Id, decision: PolicyDecision, expiresAt: int)  // insert the approval request
    | CreateRequested(intentId: Id)                                           // write pending_approval

  datatype Input =
    | NoInput
    | FreshRequest(requestId: Id)
    | Safe(prepared: bool, safe: SafeAnswer)
    | Chain(chain: ChainAnswer)

  datatype Action =
    | StartDecide(call: Id, requestId: Id, memberId: Id, vote: Vote)
    | StartSweep(call: Id, stale: seq<Id>)
    | StartPropose(call: Id, intentId: Id)
    | StartPoll(call: Id, intentId: Id, attempt: nat)
    | StartCreate(call: Id, intentId: Id, orgId: Id, memberId: Id, evaluation: Evaluation, expiresAt: int)
    | Continue(call: Id, input: Input)
    | CancelByMember(memberId: Id)
    | ChangeRoster(members: map<Id, Member>, assignments: map<Id, Assignment>)
    | Tick(to: int)

  datatype State = State(tables: Tables, now: int, calls: map<Id, Call>)

  // ---- One statement of a call ----

  // The tables after the call's next statement.
  function Effect(t: Tables, c: Call, input: Input): Tables {
    match c
    case DecideFresh(r, m, vote, _) => if (r, m) in t.decisions then t else PutDecision(t, r, m, vote)
    case DecideInserted(r, _, vote, _) => if vote.Reject? then PutRequestStatus(t, r, Rejected) else t
    case DecideQuorum(r, _) => PutRequestStatus(t, r, Fulfilled)
    case DecideClosed(_, i, closedAs) =>
      PutIntentStatus(t, i,
                      StatusAfter(PendingApproval, if closedAs.Fulfilled? then ApprovalCompleted else ApprovalRejected))
    case ExpireRead(r, _, _) => PutRequestStatus(t, r, Expired)
    case ExpireMarked(i, _) => PutIntentStatus(t, i, StatusAfter(PendingApproval, ApprovalExpired))
    case ProposeAnswered(i, answer) =>
      if i in t.intents then
        match answer
        case SafeAccepted(hash) =>
          PutIntent(t, i, t.intents[i].(status := StatusAfter(ReadyToSign, Proposed), safeTxHash := Some(hash)))
        case SafeRejected(reason) => PutIntent(t, i, t.intents[i].(status := Failed, failureReason := Some(reason)))
        case SafeRetry => t
      else t
    case PollAnswered(i, answer, attempt) =>
      if i in t.intents && Settled(t.intents[i], answer, attempt).Some?
      then PutIntent(t, i, Settled(t.intents[i], answer, attempt).value) else t
    case CreateInserted(i, d, expiresAt) =>
      if input.FreshRequest? && input.requestId !in t.requests && d.metadata.Approval?
      then
        var approval := d.metadata.approval;
        var roles := if approval.approverRoleIds.Some? then approval.approverRoleIds.value else [];
        t.(requests := t.requests[input.requestId := Request(i, approval.approverCount, roles, expiresAt, Pending)])
      else t
    case CreateRequested(i) => PutIntentStatus(t, i, PendingApproval)
    case _ => t
  }

  // Where the call stands after that statement; None when it has returned or thrown.
  function After(t: Tables, now: int, c: Call, input: Input): Option<Call> {
    match c
    case DecideRead(r, m, vote, seen, org) =>
      if m in EligibleApprovers(t, now, org, seen.approverRoleIds) then Some(DecideEligible(r, m, vote, seen)) else None
    case DecideEligible(r, m, vote, seen) =>
      if (r, m) in t.decisions then None else Some(DecideFresh(r, m, vote, seen))
    case DecideFresh(r, m, vote, seen) =>
      if (r, m) in t.decisions then None else Some(DecideInserted(r, m, vote, seen))
    case DecideInserted(r, m, vote, seen) =>
      if vote.Reject? then Some(DecideClosed(r, seen.intentId, Rejected))
      else if IsQuorumMet(CountApprovals(t.decisions, r), seen.requiredCount) then Some(DecideQuorum(r, seen.intentId))
      else None
    case DecideQuorum(r, i) => Some(DecideClosed(r, i, Fulfilled))
    case SweepList(stale) =>
      if stale == [] then None
      else if stale[0] in t.requests && t.requests[stale[0]].status.Pending?
      then Some(ExpireRead(stale[0], t.requests[stale[0]].intentId, stale[1..]))
      else Some(SweepList(stale[1..]))
    case ExpireRead(_, i, rest) => Some(ExpireMarked(i, rest))
    case ExpireMarked(_, rest) => Some(SweepList(rest))
    case ProposeRead(i) =>
      if input.Safe? then
        if input.prepared && !input.safe.SafeRetry? then Some(ProposeAnswered(i, input.safe)) else None
      else Some(c)
    case PollRead(i, attempt) => if input.Chain? then Some(PollAnswered(i, input.chain, attempt)) else Some(c)
    case CreateInserted(i, d, _) =>
      if input.FreshRequest? && input.requestId !in t.requests && d.metadata.Approval? then Some(CreateRequested(i))
      else Some(c)
    case DecideClosed(_, _, _) => None
    case ProposeAnswered(_, _) => None
    case PollAnswered(_, _, _) => None
    case CreateRequested(_) => None
  }

  // ---- Starting a call: its first statement ----

  ghost predicate CanStart(t: Tables, now: int, a: Action) {
    match a
    case StartDecide(_, r, _, _) =>
      r in t.requests && t.requests[r].status.Pending? && t.requests[r].intentId in t.intents
    case StartSweep(_, stale) =>
      && (forall r :: r in stale <==> r in StaleRequests(t, now))
      && (forall i, j :: 0 <= i < j < |stale| ==> stale[i] != stale[j])
    case StartPropose(_, i) => i in t.intents && t.intents[i].status.ReadyToSign?
    case StartPoll(_, i, _) => i in t.intents && t.intents[i].status.Submitted?
    case StartCreate(_, i, _, _, e, _) => i !in t.intents && CountsPositive(e.rules)
    case _ => false
  }

  function StartTables(t: Tables, a: Action): Tables {
    if a.StartCreate? then PutIntent(t, a.intentId, NewIntent(a.orgId, a.memberId, EvaluateIntent(a.evaluation))) else t
  }

  // The call after its first statement; a created intent that needs no approval is done.
  ghost function Started(t: Tables, now: int, a: Action): Option<Call>
    requires CanStart(t, now, a)
  {
    match a
    case StartDecide(_, r, m, vote) =>
      Some(DecideRead(r, m, vote, t.requests[r], t.intents[t.requests[r].intentId].orgId))
    case StartSweep(_, stale) => Some(SweepList(stale))
    case StartPropose(_, i) => Some(ProposeRead(i))
    case StartPoll(_, i, attempt) => Some(PollRead(i, attempt))
    case StartCreate(_, i, _, _, e, expiresAt) =>
      if EvaluateIntent(e).decision.NeedApproval? then Some(CreateInserted(i, EvaluateIntent(e), expiresAt)) else None
    case _ => None
  }

  function SetCall(calls: map<Id, Call>, p: Id, c: Option<Call>): map<Id, Call> {
    if c.Some? then calls[p := c.value] else calls - {p}
  }

  // An action that is not possible leaves the state as it is.
  ghost function Next(s: State, a: Action): State {
    match a
    case Continue(p, input) =>
      if p in s.calls
      then State(Effect(s.tables, s.calls[p], input), s.now,
                 SetCall(s.calls, p, After(s.tables, s.now, s.calls[p], input)))
      else s
    case CancelByMember(m) => s.(tables := CancelIntents(s.tables, {m}))
    case ChangeRoster(members, assignments) => s.(tables := s.tables.(members := members, assignments := assignments))
    case Tick(to) => if s.now <= to then s.(now := to) else s
    case _ =>
      if a.call !in s.calls && CanStart(s.tables, s.now, a)
      then State(StartTables(s.tables, a), s.now, SetCall(s.calls, a.call, Started(s.tables, s.now, a)))
      else s
  }

  ghost function Exec(s: State, actions: seq<Action>): State {
    if actions == [] then s else Next(Exec(s, actions[..|actions| - 1]), actions[|actions| - 1])
  }

  function Initial(start: int): State {
    State(NO_ROWS, start, map[])
  }
}
