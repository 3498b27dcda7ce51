/**
 * Runs in which every service call is one step. The request and intent rows then obey an exact joint
 * invariant, and every status change of an intent comes closer to an end.
 */
module AtomicRuns {
  import opened Prelude
  import opened PolicyEngine
  import opened IntentStateMachine
  import opened PolicyEvaluation
  import opened Store
  import opened Steps

  datatype Op =
    | DoCreate(intentId: Id, requestId: Id, orgId: Id, memberId: Id, evaluation: Evaluation, expiresAt: int)
    | DoDecide(requestId: Id, approverId: Id, vote: Vote)
    | DoExpireStale
    | DoPropose(intentId: Id, prepared: bool, safe: SafeAnswer)
    | DoPoll(intentId: Id, chain: ChainAnswer, attempt: nat)
    | DoAssign(assignmentId: Id, grant: Grant)
    | DoRevoke(orgId: Id, memberId: Id, assignmentId: Id)
    | DoSweep(lag: nat)
    | DoSetMember(memberId: Id, member: Member)

  // New rows get fresh identifiers, and stored approval rules are valid.
  ghost predicate Enabled(t: Tables, op: Op) {
    match op
    case DoCreate(i, r, _, _, e, _) => i !in t.intents && r !in t.requests && CountsPositive(e.rules)
    case DoAssign(a, _) => a !in t.assignments
    case _ => true
  }

  ghost function Apply(t: Tables, now: int, op: Op): Tables {
    if !Enabled(t, op) then t
    else
      match op
      case DoCreate(i, r, org, m, e, expiresAt) => CreateIntent(t, i, r, org, m, EvaluateIntent(e), expiresAt)
      case DoDecide(r, m, vote) => RecordDecision(t, now, r, m, vote)
      case DoExpireStale => ExpireRequests(t, StaleRequests(t, now))
      case DoPropose(i, prepared, answer) => Propose(t, i, prepared, answer)
      case DoPoll(i, answer, attempt) => Poll(t, i, answer, attempt)
      case DoAssign(a, g) => Assign(t, now, a, g)
      case DoRevoke(org, m, a) => Revoke(t, now, org, m, a)
      case DoSweep(lag) => Sweep(t, now, now + lag)
      case DoSetMember(m, member) => t.(members := t.members[m := member])
  }

  datatype World = World(tables: Tables, now: int)

  // A call starts `delay` after the previous one ended; the clock never runs backwards.
  datatype Timed = Timed(delay: nat, op: Op)

  ghost function Next(w: World, s: Timed): World {
    var start := w.now + s.delay;
    World(Apply(w.tables, start, s.op), if s.op.DoSweep? then start + s.op.lag else start)
  }

  ghost function Run(w: World, steps: seq<Timed>): World {
    if steps == [] then w else Next(Run(w, steps[..|steps| - 1]), steps[|steps| - 1])
  }

  // ---- The joint invariant ----

  ghost predicate RequestRow(t: Tables, r: Id)
    requires r in t.requests
  {
    var q := t.requests[r];
    && q.intentId in t.intents
    && var d := t.intents[q.intentId].decision;
       d.decision.NeedApproval? && d.metadata.Approval? && d.metadata.approval.approverCount == q.requiredCount >= 1
  }

  // How far a request got, what was decided on it, and where its intent may then be.
  ghost predicate Consistent(q: Request, intentStatus: IntentStatus, approvals: nat, rejecters: set<Id>) {
    match q.status
    case Pending =>
      (intentStatus.PendingApproval? || intentStatus.Cancelled?) && approvals < q.requiredCount && rejecters == {}
    case Fulfilled =>
      (intentStatus.ReadyToSign? || intentStatus.Submitted? || intentStatus.Executed? || intentStatus.Failed?
       || intentStatus.Cancelled?)
      && approvals == q.requiredCount && rejecters == {}
    case Rejected =>
      intentStatus.Cancelled? && approvals < q.requiredCount && |rejecters| == 1
    case Expired =>
      intentStatus.Cancelled? && approvals < q.requiredCount && rejecters == {}
  }

  ghost predicate RequestState(t: Tables, r: Id)
    requires r in t.requests && t.requests[r].intentId in t.intents
  {
    Consistent(t.requests[r], t.intents[t.requests[r].intentId].status,
               CountApprovals(t.decisions, r), RejectersOf(t.decisions, r))
  }

  ghost predicate RequestsOk(t: Tables) {
    && (forall r :: r in t.requests ==> RequestRow(t, r) && RequestState(t, r))
    && (forall k :: k in t.decisions ==> k.0 in t.requests)
  }

  ghost predicate OneRequestPerIntent(t: Tables) {
    forall r, s :: r in t.requests && s in t.requests && t.requests[r].intentId == t.requests[s].intentId ==> r == s
  }

  // Which statuses an intent can have, by its stored decision.
  predicate StatusFits(intent: Intent) {
    match intent.decision.decision
    case Deny => intent.status.Denied?
    case Allow => !intent.status.Draft? && !intent.status.PolicyEvaluated? && !intent.status.Denied?
                  && !intent.status.PendingApproval?
    case NeedApproval => !intent.status.Draft? && !intent.status.PolicyEvaluated? && !intent.status.Denied?
  }

  ghost predicate IntentsOk(t: Tables) {
    forall i :: i in t.intents ==> StatusFits(t.intents[i])
  }

  ghost predicate HasRequest(t: Tables, i: Id) {
    exists r :: r in t.requests && t.requests[r].intentId == i
  }

  ghost predicate ApprovalsRequested(t: Tables) {
    forall i :: i in t.intents && t.intents[i].decision.decision.NeedApproval? ==> HasRequest(t, i)
  }

  ghost predicate JointInvariant(t: Tables) {
    RequestsOk(t) && OneRequestPerIntent(t) && IntentsOk(t) && ApprovalsRequested(t)
  }

  // What any call may do to an existing intent's status.
  predicate Change(a: IntentStatus, b: IntentStatus) {
    a == b || (Cancellable(a) && b.Cancelled?) || ((a.PendingApproval? || a.Cancelled?) && b.ReadyToSign?)
    || (a.ReadyToSign? && (b.Submitted? || b.Failed?)) || (a.Submitted? && (b.Executed? || b.Failed?))
  }

  // No row appears or goes, requests keep their intents, snapshots stay, and statuses change only as above.
  ghost predicate SameRows(t: Tables, u: Tables) {
    && u.requests.Keys == t.requests.Keys && u.intents.Keys == t.intents.Keys
    && (forall r :: r in t.requests ==> u.requests[r].intentId == t.requests[r].intentId)
    && (forall i :: i in t.intents ==>
          u.intents[i].decision == t.intents[i].decision && Change(t.intents[i].status, u.intents[i].status))
  }

  lemma ReflexiveChange()
    ensures forall a :: Change(a, a)
  {
  }

  lemma SameRowsKeepIntents(t: Tables, u: Tables)
    requires IntentsOk(t) && SameRows(t, u)
    ensures IntentsOk(u)
  {
  }

  lemma SameRowsKeepRequests(t: Tables, u: Tables)
    requires OneRequestPerIntent(t) && ApprovalsRequested(t) && SameRows(t, u)
    ensures OneRequestPerIntent(u) && ApprovalsRequested(u)
  {
    forall i | i in u.intents && u.intents[i].decision.decision.NeedApproval?
      ensures HasRequest(u, i)
    {
      assert HasRequest(t, i);
      var r :| r in t.requests && t.requests[r].intentId == i;
      assert r in u.requests && u.requests[r].intentId == i;
    }
  }

  // ---- Deciding ----

  // `voted` differs from t by decisions on request r only.
  ghost predicate VotedOn(t: Tables, voted: Tables, r: Id) {
    && r in t.requests && t.requests[r].status.Pending?
    && voted == t.(decisions := voted.decisions)
    && (forall k :: k in voted.decisions ==> k.0 in t.requests)
    && (forall s :: s in t.requests && s != r ==>
          && ApproversOf(voted.decisions, s) == ApproversOf(t.decisions, s)
          && RejectersOf(voted.decisions, s) == RejectersOf(t.decisions, s))
  }

  function IntentOutcome(status: RequestStatus): IntentStatus {
    if status.Fulfilled? then ReadyToSign else Cancelled
  }

  lemma SettledRequest(t: Tables, voted: Tables, r: Id, status: RequestStatus, s: Id)
    requires RequestsOk(t) && OneRequestPerIntent(t) && VotedOn(t, voted, r) && !status.Pending?
    requires Consistent(t.requests[r].(status := status), IntentOutcome(status),
                        CountApprovals(voted.decisions, r), RejectersOf(voted.decisions, r))
    requires s in t.requests
    ensures var u := Settle(voted, r, status, IntentOutcome(status));
            s in u.requests && RequestRow(u, s) && RequestState(u, s)
  {
    var u := Settle(voted, r, status, IntentOutcome(status));
    assert RequestRow(t, r) && RequestRow(t, s) && RequestState(t, s);
    assert u.decisions == voted.decisions;
    if s == r {
      assert u.requests[r] == t.requests[r].(status := status);
    } else {
      assert u.requests[s] == t.requests[s];
      assert u.intents[t.requests[s].intentId] == t.intents[t.requests[s].intentId];
    }
  }

  lemma PendingIntent(t: Tables, r: Id)
    requires RequestsOk(t) && r in t.requests && t.requests[r].status.Pending?
    ensures var i := t.requests[r].intentId;
            i in t.intents && (t.intents[i].status.PendingApproval? || t.intents[i].status.Cancelled?)
  {
    hide CountApprovals, RejectersOf;
    assert RequestRow(t, r) && RequestState(t, r);
  }

  lemma SettledRows(t: Tables, voted: Tables, r: Id, status: RequestStatus)
    requires RequestsOk(t) && VotedOn(t, voted, r) && !status.Pending?
    ensures SameRows(t, Settle(voted, r, status, IntentOutcome(status)))
  {
    hide RequestsOk, RejectersOf, ApproversOf;
    PendingIntent(t, r);
  }

  lemma SettleKeepsInvariant(t: Tables, voted: Tables, r: Id, status: RequestStatus)
    requires JointInvariant(t) && VotedOn(t, voted, r) && !status.Pending?
    requires Consistent(t.requests[r].(status := status), IntentOutcome(status),
                        CountApprovals(voted.decisions, r), RejectersOf(voted.decisions, r))
    ensures JointInvariant(Settle(voted, r, status, IntentOutcome(status)))
  {
    var u := Settle(voted, r, status, IntentOutcome(status));
    SettledRows(t, voted, r, status);
    SameRowsKeepIntents(t, u);
    SameRowsKeepRequests(t, u);
    assert RequestsOk(u) by {
      forall s | s in u.requests
        ensures RequestRow(u, s) && RequestState(u, s)
      {
        SettledRequest(t, voted, r, status, s);
      }
    }
  }

  lemma PlainVoteRequest(t: Tables, voted: Tables, r: Id, s: Id)
    requires RequestsOk(t) && VotedOn(t, voted, r) && s in t.requests
    requires RejectersOf(voted.decisions, r) == {} && CountApprovals(voted.decisions, r) < t.requests[r].requiredCount
    ensures RequestRow(voted, s) && RequestState(voted, s)
  {
    hide ApproversOf, RejectersOf;
    assert RequestRow(t, s) && RequestState(t, s);
  }

  lemma PlainVoteKeepsInvariant(t: Tables, voted: Tables, r: Id)
    requires JointInvariant(t) && VotedOn(t, voted, r)
    requires RejectersOf(voted.decisions, r) == {} && CountApprovals(voted.decisions, r) < t.requests[r].requiredCount
    ensures JointInvariant(voted)
  {
    hide ApproversOf, RejectersOf, RequestState, OneRequestPerIntent, ApprovalsRequested, IntentsOk, Change;
    ReflexiveChange();
    SameRowsKeepIntents(t, voted);
    SameRowsKeepRequests(t, voted);
    assert RequestsOk(voted) by {
      forall s | s in voted.requests
        ensures RequestRow(voted, s) && RequestState(voted, s)
      {
        PlainVoteRequest(t, voted, r, s);
      }
    }
  }

  lemma VoteTouchesOneRequest(t: Tables, r: Id, m: Id, vote: Vote)
    requires RequestsOk(t) && r in t.requests && t.requests[r].status.Pending?
    ensures VotedOn(t, PutDecision(t, r, m, vote), r)
  {
    forall s | s in t.requests && s != r
      ensures var more := t.decisions[(r, m) := vote];
              ApproversOf(more, s) == ApproversOf(t.decisions, s) && RejectersOf(more, s) == RejectersOf(t.decisions, s)
    {
      OtherRequestsUnaffected(t.decisions, r, m, vote, s);
    }
  }

  // An accepted decision: what is counted before and after it.
  lemma AcceptedVote(t: Tables, now: int, r: Id, m: Id, vote: Vote)
    requires RequestsOk(t) && DecisionError(t, now, r, m).None?
    ensures r in t.requests && RequestRow(t, r) && RequestState(t, r) && t.requests[r].status.Pending?
    ensures var more := PutDecision(t, r, m, vote).decisions;
            if vote.Reject?
            then RejectersOf(more, r) == {m} && CountApprovals(more, r) == CountApprovals(t.decisions, r)
            else RejectersOf(more, r) == {} && CountApprovals(more, r) == CountApprovals(t.decisions, r) + 1
  {
    assert RequestRow(t, r) && RequestState(t, r);
    if vote.Reject? {
      OneMoreRejection(t.decisions, r, m);
    } else {
      OneMoreApproval(t.decisions, r, m);
    }
  }

  lemma DecideKeepsInvariant(t: Tables, now: int, r: Id, m: Id, vote: Vote)
    requires JointInvariant(t)
    ensures JointInvariant(RecordDecision(t, now, r, m, vote))
  {
    hide ApproversOf, RejectersOf, JointInvariant, DecisionError, VotedOn;
    if DecisionError(t, now, r, m).None? {
      assert RequestsOk(t) by {
        InvariantParts(t);
      }
      var voted := PutDecision(t, r, m, vote);
      AcceptedVote(t, now, r, m, vote);
      VoteTouchesOneRequest(t, r, m, vote);
      if vote.Reject? {
        SettleKeepsInvariant(t, voted, r, Rejected);
      } else if IsQuorumMet(CountApprovals(voted.decisions, r), t.requests[r].requiredCount) {
        SettleKeepsInvariant(t, voted, r, Fulfilled);
      } else {
        PlainVoteKeepsInvariant(t, voted, r);
      }
    }
  }

  lemma InvariantParts(t: Tables)
    requires JointInvariant(t)
    ensures RequestsOk(t) && OneRequestPerIntent(t) && IntentsOk(t) && ApprovalsRequested(t)
  {
  }

  // ---- The other calls ----

  // Rewriting intent rows only: requests, decisions and snapshots stay, and no intent is revived.
  ghost predicate IntentWrites(t: Tables, u: Tables) {
    && u.requests == t.requests && u.decisions == t.decisions && SameRows(t, u)
    && forall i :: i in t.intents ==> PlainChange(t.intents[i].status, u.intents[i].status)
  }

  predicate PlainChange(a: IntentStatus, b: IntentStatus) {
    Change(a, b) && (b.ReadyToSign? ==> a.ReadyToSign?)
  }

  lemma IntentWritesKeepInvariant(t: Tables, u: Tables)
    requires JointInvariant(t) && IntentWrites(t, u)
    ensures JointInvariant(u)
  {
    SameRowsKeepIntents(t, u);
    SameRowsKeepRequests(t, u);
    assert RequestsOk(u) by {
      forall r | r in u.requests
        ensures RequestRow(u, r) && RequestState(u, r)
      {
        assert RequestRow(t, r) && RequestState(t, r);
      }
    }
  }

  lemma CancelWritesIntents(t: Tables, memberIds: set<Id>)
    ensures IntentWrites(t, CancelIntents(t, memberIds))
  {
  }

  lemma ProposalChanges()
    ensures Change(ReadyToSign, StatusAfter(ReadyToSign, Proposed)) && Change(ReadyToSign, Failed)
  {
  }

  lemma ProposeWritesIntents(t: Tables, i: Id, prepared: bool, answer: SafeAnswer)
    ensures IntentWrites(t, Propose(t, i, prepared, answer))
  {
    hide Change;
    ReflexiveChange();
    ProposalChanges();
  }

  lemma SettledKeepsSnapshot(intent: Intent, answer: ChainAnswer, attempt: nat)
    ensures var settled := Settled(intent, answer, attempt);
            settled.Some? ==> settled.value.decision == intent.decision
                              && (settled.value.status.Executed? || settled.value.status.Failed?)
  {
  }

  lemma PollWritesIntents(t: Tables, i: Id, answer: ChainAnswer, attempt: nat)
    ensures IntentWrites(t, Poll(t, i, answer, attempt))
  {
    hide Settled;
    if i in t.intents {
      SettledKeepsSnapshot(t.intents[i], answer, attempt);
    }
  }

  lemma RevokeWritesIntents(t: Tables, now: int, org: Id, m: Id, a: Id)
    ensures IntentWrites(t, Revoke(t, now, org, m, a))
  {
    if RevokeError(t, org, m, a).None? {
      CancelWritesIntents(t.(assignments := Revoke(t, now, org, m, a).assignments), {m});
    }
  }

  lemma SweepWritesIntents(t: Tables, promoteAt: int, expireAt: int)
    ensures IntentWrites(t, Sweep(t, promoteAt, expireAt))
  {
    var promoted := Promote(t, promoteAt);
    CancelWritesIntents(t.(assignments := Sweep(t, promoteAt, expireAt).assignments),
                        Holders(promoted, Due(promoted, expireAt)));
  }

  // The calls that only rewrite intent rows.
  lemma OtherStepsWriteIntents(t: Tables, now: int, op: Op)
    requires !op.DoCreate? && !op.DoDecide? && !op.DoExpireStale?
    ensures IntentWrites(t, Apply(t, now, op))
  {
    hide Propose, Poll, Revoke, Sweep, AssignError;
    match op
    case DoPropose(i, prepared, answer) => ProposeWritesIntents(t, i, prepared, answer);
    case DoPoll(i, answer, attempt) => PollWritesIntents(t, i, answer, attempt);
    case DoAssign(_, _) =>
    case DoSetMember(_, _) =>
    case DoRevoke(org, m, a) => RevokeWritesIntents(t, now, org, m, a);
    case DoSweep(lag) => SweepWritesIntents(t, now, now + lag);
  }

  ghost predicate GoodDecision(d: PolicyDecision) {
    d.decision.NeedApproval? ==> d.metadata.Approval? && d.metadata.approval.approverCount >= 1
  }

  // A request of an intent that no step touched stays as it was.
  lemma UntouchedRequest(t: Tables, u: Tables, s: Id)
    requires s in t.requests && RequestRow(t, s) && RequestState(t, s)
    requires s in u.requests && u.requests[s] == t.requests[s] && u.decisions == t.decisions
    requires t.requests[s].intentId in u.intents
    requires u.intents[t.requests[s].intentId] == t.intents[t.requests[s].intentId]
    ensures RequestRow(u, s) && RequestState(u, s)
  {
    hide CountApprovals, ApproversOf, RejectersOf;
  }

  lemma CreatedRows(t: Tables, i: Id, r: Id, org: Id, m: Id, d: PolicyDecision, expiresAt: int)
    requires i !in t.intents && r !in t.requests
    ensures var u := CreateIntent(t, i, r, org, m, d, expiresAt);
            && u.decisions == t.decisions
            && (forall j :: j in t.intents ==> j in u.intents && u.intents[j] == t.intents[j])
            && (forall s :: s in t.requests ==> s in u.requests && u.requests[s] == t.requests[s])
            && (forall s :: s in u.requests ==> s == r || s in t.requests)
  {
  }

  lemma CreatedRequest(t: Tables, i: Id, r: Id, org: Id, m: Id, d: PolicyDecision, expiresAt: int)
    requires RequestsOk(t) && i !in t.intents && r !in t.requests && GoodDecision(d)
    requires r in CreateIntent(t, i, r, org, m, d, expiresAt).requests
    ensures var u := CreateIntent(t, i, r, org, m, d, expiresAt);
            RequestRow(u, r) && RequestState(u, r)
  {
    hide RequestRow, RequestState;
    assert ApproversOf(t.decisions, r) == {} && RejectersOf(t.decisions, r) == {};
    NewRequest(t, i, r, org, m, d, expiresAt);
  }

  lemma NewRequest(t: Tables, i: Id, r: Id, org: Id, m: Id, d: PolicyDecision, expiresAt: int)
    requires ApproversOf(t.decisions, r) == {} && RejectersOf(t.decisions, r) == {}
    requires r !in t.requests && GoodDecision(d) && r in CreateIntent(t, i, r, org, m, d, expiresAt).requests
    ensures var u := CreateIntent(t, i, r, org, m, d, expiresAt);
            RequestRow(u, r) && RequestState(u, r)
  {
    hide ApproversOf, RejectersOf;
  }

  lemma CreatedRequests(t: Tables, i: Id, r: Id, org: Id, m: Id, d: PolicyDecision, expiresAt: int)
    requires RequestsOk(t) && i !in t.intents && r !in t.requests && GoodDecision(d)
    ensures RequestsOk(CreateIntent(t, i, r, org, m, d, expiresAt))
  {
    hide CreateIntent, RequestState, GoodDecision;
    var u := CreateIntent(t, i, r, org, m, d, expiresAt);
    CreatedRows(t, i, r, org, m, d, expiresAt);
    forall s | s in u.requests
      ensures RequestRow(u, s) && RequestState(u, s)
    {
      if s in t.requests {
        assert RequestRow(t, s) && RequestState(t, s);
        UntouchedRequest(t, u, s);
      } else {
        CreatedRequest(t, i, r, org, m, d, expiresAt);
      }
    }
  }

  lemma CreatedIntents(t: Tables, i: Id, r: Id, org: Id, m: Id, d: PolicyDecision, expiresAt: int)
    requires IntentsOk(t) && i !in t.intents && GoodDecision(d)
    ensures IntentsOk(CreateIntent(t, i, r, org, m, d, expiresAt))
  {
  }

  lemma CreatedOneRequest(t: Tables, i: Id, r: Id, org: Id, m: Id, d: PolicyDecision, expiresAt: int)
    requires RequestsOk(t) && OneRequestPerIntent(t) && i !in t.intents && r !in t.requests
    ensures OneRequestPerIntent(CreateIntent(t, i, r, org, m, d, expiresAt))
  {
    forall s | s in t.requests
      ensures t.requests[s].intentId != i
    {
      assert RequestRow(t, s);
    }
  }

  lemma CreatedHasRequest(t: Tables, i: Id, r: Id, org: Id, m: Id, d: PolicyDecision, expiresAt: int)
    requires ApprovalsRequested(t) && i !in t.intents && r !in t.requests && GoodDecision(d)
    ensures ApprovalsRequested(CreateIntent(t, i, r, org, m, d, expiresAt))
  {
    var u := CreateIntent(t, i, r, org, m, d, expiresAt);
    forall j | j in u.intents && u.intents[j].decision.decision.NeedApproval?
      ensures HasRequest(u, j)
    {
      if j == i {
        assert r in u.requests && u.requests[r].intentId == i;
      } else {
        assert HasRequest(t, j);
        var s :| s in t.requests && t.requests[s].intentId == j;
        assert s in u.requests && u.requests[s].intentId == j;
      }
    }
  }

  lemma CreateKeepsInvariant(t: Tables, i: Id, r: Id, org: Id, m: Id, d: PolicyDecision, expiresAt: int)
    requires JointInvariant(t) && i !in t.intents && r !in t.requests && GoodDecision(d)
    ensures JointInvariant(CreateIntent(t, i, r, org, m, d, expiresAt))
  {
    hide RequestsOk, OneRequestPerIntent, IntentsOk, ApprovalsRequested;
    CreatedRequests(t, i, r, org, m, d, expiresAt);
    CreatedIntents(t, i, r, org, m, d, expiresAt);
    CreatedOneRequest(t, i, r, org, m, d, expiresAt);
    CreatedHasRequest(t, i, r, org, m, d, expiresAt);
  }

  ghost predicate AllPending(t: Tables, stale: set<Id>) {
    forall r :: r in stale ==> r in t.requests && t.requests[r].status.Pending?
  }

  lemma ExpiredRows(t: Tables, stale: set<Id>)
    requires RequestsOk(t) && AllPending(t, stale)
    ensures SameRows(t, ExpireRequests(t, stale))
  {
    hide CountApprovals, ApproversOf, RejectersOf, IntentsOf;
    var u := ExpireRequests(t, stale);
    forall i | i in t.intents
      ensures Change(t.intents[i].status, u.intents[i].status)
    {
      if i in IntentsOf(t, stale) {
        var r := RequestOf(t, stale, i);
        assert RequestState(t, r);
      }
    }
  }

  lemma RequestOf(t: Tables, stale: set<Id>, i: Id) returns (r: Id)
    requires i in IntentsOf(t, stale)
    ensures r in stale && r in t.requests && t.requests[r].intentId == i
  {
    r :| r in stale && r in t.requests && t.requests[r].intentId == i;
  }

  lemma ExpiredRequest(t: Tables, stale: set<Id>, r: Id)
    requires RequestsOk(t) && OneRequestPerIntent(t) && AllPending(t, stale) && r in t.requests
    ensures var u := ExpireRequests(t, stale);
            RequestRow(u, r) && RequestState(u, r)
  {
    hide CountApprovals, ApproversOf, RejectersOf, IntentsOf;
    assert RequestRow(t, r) && RequestState(t, r);
    StaleIffIntentIs(t, stale, r);
  }

  lemma StaleIffIntentIs(t: Tables, stale: set<Id>, r: Id)
    requires OneRequestPerIntent(t) && r in t.requests
    ensures t.requests[r].intentId in IntentsOf(t, stale) <==> r in stale
  {
  }

  lemma ExpireKeepsInvariant(t: Tables, stale: set<Id>)
    requires JointInvariant(t) && AllPending(t, stale)
    ensures JointInvariant(ExpireRequests(t, stale)) && SameRows(t, ExpireRequests(t, stale))
  {
    hide SameRows, AllPending, OneRequestPerIntent, ApprovalsRequested, IntentsOk, RequestState, IntentsOf;
    var u := ExpireRequests(t, stale);
    ExpiredRows(t, stale);
    SameRowsKeepIntents(t, u);
    SameRowsKeepRequests(t, u);
    assert RequestsOk(u) by {
      forall r | r in u.requests
        ensures RequestRow(u, r) && RequestState(u, r)
      {
        ExpiredRequest(t, stale, r);
      }
    }
  }

  /** Every service call keeps the joint invariant of requests and intents. */
  lemma StepKeepsJointInvariant(t: Tables, now: int, op: Op)
    requires JointInvariant(t)
    ensures JointInvariant(Apply(t, now, op))
  {
    if op.DoCreate? {
      if Enabled(t, op) {
        GoodEvaluation(op.evaluation);
        CreateKeepsInvariant(t, op.intentId, op.requestId, op.orgId, op.memberId, EvaluateIntent(op.evaluation),
                             op.expiresAt);
      }
    } else if op.DoDecide? {
      DecideKeepsInvariant(t, now, op.requestId, op.approverId, op.vote);
    } else if op.DoExpireStale? {
      ExpireKeepsInvariant(t, StaleRequests(t, now));
    } else {
      OtherStepsWriteIntents(t, now, op);
      IntentWritesKeepInvariant(t, Apply(t, now, op));
    }
  }

  lemma GoodEvaluation(e: Evaluation)
    requires CountsPositive(e.rules)
    ensures GoodDecision(EvaluateIntent(e))
  {
    if EvaluateIntent(e).decision.NeedApproval? {
      ApprovalRequirementCovers(e);
    }
  }

  lemma NoRowsAreConsistent()
    ensures JointInvariant(NO_ROWS)
  {
  }

  /** The joint invariant holds after every run of whole service calls from empty tables. */
  lemma {:induction false} JointInvariantHolds(start: int, steps: seq<Timed>)
    ensures JointInvariant(Run(World(NO_ROWS, start), steps).tables)
  {
    hide Apply, JointInvariant;
    NoRowsAreConsistent();
    if steps != [] {
      var before, s := steps[..|steps| - 1], steps[|steps| - 1];
      JointInvariantHolds(start, before);
      var w := Run(World(NO_ROWS, start), before);
      StepKeepsJointInvariant(w.tables, w.now + s.delay, s.op);
    }
  }

  // ---- Termination ----

  ghost predicate HasPendingRequest(t: Tables, i: Id) {
    exists r :: r in t.requests && t.requests[r].intentId == i && t.requests[r].status.Pending?
  }

  ghost function MeasureOf(status: IntentStatus, pending: bool): nat {
    match status
    case PendingApproval => 4
    case Cancelled => if pending then 3 else 0
    case ReadyToSign => 2
    case Submitted => 1
    case _ => 0
  }

  ghost function Measure(t: Tables, i: Id): nat
    requires i in t.intents
  {
    MeasureOf(t.intents[i].status, HasPendingRequest(t, i))
  }

  // A status change that is not in the transition table.
  predicate OffTable(a: IntentStatus, b: IntentStatus) {
    (a.ReadyToSign? && b.Failed?) || (a.Cancelled? && b.ReadyToSign?)
  }

  ghost predicate OnTable(a: IntentStatus, b: IntentStatus) {
    exists e :: Transition(a, e) == Some(b)
  }

  // What a step may do to the status of an intent that already exists.
  ghost predicate LegalChange(t: Tables, u: Tables, i: Id)
    requires i in t.intents && i in u.intents
  {
    var a, b := t.intents[i].status, u.intents[i].status;
    && Measure(u, i) <= Measure(t, i)
    && (a != b ==> Measure(u, i) < Measure(t, i) && (OnTable(a, b) || OffTable(a, b)))
  }

  lemma ChangesAreOnTableOrListed(a: IntentStatus, b: IntentStatus)
    requires Change(a, b) && a != b && !a.PolicyEvaluated?
    ensures OnTable(a, b) || OffTable(a, b)
  {
    assert Transition(PendingApproval, ApprovalCompleted) == Some(ReadyToSign);
    assert Transition(PendingApproval, CancelRequested) == Some(Cancelled);
    assert Transition(ReadyToSign, Proposed) == Some(Submitted);
    assert Transition(ReadyToSign, CancelRequested) == Some(Cancelled);
    assert Transition(Submitted, OnchainSuccess) == Some(Executed);
    assert Transition(Submitted, OnchainFailed) == Some(Failed);
  }

  lemma ReadyHasNoPendingRequest(t: Tables, i: Id)
    requires RequestsOk(t) && i in t.intents
    ensures t.intents[i].status.ReadyToSign? ==> !HasPendingRequest(t, i)
  {
    forall r | r in t.requests && t.requests[r].intentId == i && t.requests[r].status.Pending?
      ensures !t.intents[i].status.ReadyToSign?
    {
      assert RequestState(t, r);
    }
  }

  // When its one request is settled, an intent has no pending request left.
  lemma NoneLeftPending(t: Tables, u: Tables, r: Id, i: Id)
    requires OneRequestPerIntent(t) && SameRows(t, u)
    requires r in t.requests && t.requests[r].intentId == i && t.requests[r].status.Pending?
    requires !u.requests[r].status.Pending?
    ensures HasPendingRequest(t, i) && !HasPendingRequest(u, i)
  {
    hide Change;
    forall s | s in u.requests && u.requests[s].intentId == i
      ensures s == r
    {
      assert t.requests[s].intentId == t.requests[r].intentId;
    }
  }

  lemma SettlingIsLegal(t: Tables, u: Tables, r: Id, i: Id)
    requires RequestsOk(t) && OneRequestPerIntent(t) && IntentsOk(t) && SameRows(t, u) && i in t.intents
    requires r in t.requests && t.requests[r].intentId == i && t.requests[r].status.Pending?
    requires !u.requests[r].status.Pending?
    requires u.intents[i].status.ReadyToSign? || u.intents[i].status.Cancelled?
    ensures LegalChange(t, u, i)
  {
    hide CountApprovals, ApproversOf, RejectersOf, HasPendingRequest, OnTable;
    assert RequestState(t, r);
    NoneLeftPending(t, u, r, i);
    if t.intents[i].status != u.intents[i].status {
      ChangesAreOnTableOrListed(t.intents[i].status, u.intents[i].status);
    }
  }

  // No request of the intent becomes pending, and the intent is not revived.
  lemma PlainChangeIsLegal(t: Tables, u: Tables, i: Id)
    requires RequestsOk(t) && IntentsOk(t) && i in t.intents && i in u.intents
    requires PlainChange(t.intents[i].status, u.intents[i].status)
    requires HasPendingRequest(u, i) ==> HasPendingRequest(t, i)
    ensures LegalChange(t, u, i)
  {
    ReadyHasNoPendingRequest(t, i);
    if t.intents[i].status != u.intents[i].status {
      ChangesAreOnTableOrListed(t.intents[i].status, u.intents[i].status);
    }
  }

  ghost predicate Revives(t: Tables, now: int, r: Id, m: Id, vote: Vote, i: Id) {
    && vote.Approve? && DecisionError(t, now, r, m).None?
    && t.requests[r].intentId == i
    && CountApprovals(t.decisions, r) + 1 == t.requests[r].requiredCount
  }

  lemma SettleEffect(t: Tables, voted: Tables, r: Id, status: RequestStatus)
    requires RequestsOk(t) && r in t.requests && t.requests[r].status.Pending?
    requires voted == t.(decisions := voted.decisions) && !status.Pending?
    ensures var u, i := Settle(voted, r, status, IntentOutcome(status)), t.requests[r].intentId;
            && SameRows(t, u)
            && (forall s :: s in t.requests && s != r ==> u.requests[s] == t.requests[s])
            && (forall j :: j in t.intents && j != i ==> u.intents[j] == t.intents[j])
            && i in t.intents && u.requests[r].status == status && u.intents[i].status == IntentOutcome(status)
  {
    hide RequestsOk;
    PendingIntent(t, r);
  }

  // An accepted decision either only adds a vote or settles its request and moves that request's intent.
  lemma DecideEffect(t: Tables, now: int, r: Id, m: Id, vote: Vote)
    requires RequestsOk(t) && DecisionError(t, now, r, m).None?
    ensures r in t.requests && t.requests[r].status.Pending?
    ensures var i, voted := t.requests[r].intentId, PutDecision(t, r, m, vote);
            RecordDecision(t, now, r, m, vote) ==
            if vote.Reject? then Settle(voted, r, Rejected, Cancelled)
            else if Revives(t, now, r, m, vote, i) then Settle(voted, r, Fulfilled, ReadyToSign)
            else voted
  {
    hide ApproversOf, RejectersOf, DecisionError;
    AcceptedVote(t, now, r, m, vote);
  }

  lemma DecideIsLegal(t: Tables, now: int, r: Id, m: Id, vote: Vote, i: Id)
    requires JointInvariant(t) && i in t.intents
    ensures var u := RecordDecision(t, now, r, m, vote);
            && i in u.intents && LegalChange(t, u, i)
            && (t.intents[i].status.Cancelled? ==>
                  u.intents[i].status == if Revives(t, now, r, m, vote, i) then ReadyToSign else Cancelled)
  {
    hide ApproversOf, RejectersOf, DecisionError, RequestsOk, OneRequestPerIntent, IntentsOk, LegalChange;
    var u := RecordDecision(t, now, r, m, vote);
    if DecisionError(t, now, r, m).None? {
      DecideEffect(t, now, r, m, vote);
      if vote.Reject? || Revives(t, now, r, m, vote, t.requests[r].intentId) {
        SettleEffect(t, PutDecision(t, r, m, vote), r, if vote.Reject? then Rejected else Fulfilled);
        if t.requests[r].intentId == i {
          SettlingIsLegal(t, u, r, i);
        } else {
          PlainChangeIsLegal(t, u, i);
        }
      } else {
        PlainChangeIsLegal(t, u, i);
      }
    } else {
      PlainChangeIsLegal(t, u, i);
    }
  }

  lemma ExpireIsLegal(t: Tables, stale: set<Id>, i: Id)
    requires JointInvariant(t) && i in t.intents && AllPending(t, stale)
    ensures var u := ExpireRequests(t, stale);
            && i in u.intents && LegalChange(t, u, i)
            && (t.intents[i].status.Cancelled? ==> u.intents[i].status.Cancelled?)
  {
    hide CountApprovals, ApproversOf, RejectersOf, HasPendingRequest, LegalChange, IntentsOf;
    var u := ExpireRequests(t, stale);
    ExpiredRows(t, stale);
    if i in IntentsOf(t, stale) {
      var r := RequestOf(t, stale, i);
      SettlingIsLegal(t, u, r, i);
    } else {
      StillPending(t, stale, i);
      PlainChangeIsLegal(t, u, i);
    }
  }

  lemma StillPending(t: Tables, stale: set<Id>, i: Id)
    ensures HasPendingRequest(ExpireRequests(t, stale), i) ==> HasPendingRequest(t, i)
  {
    var u := ExpireRequests(t, stale);
    if HasPendingRequest(u, i) {
      var r :| r in u.requests && u.requests[r].intentId == i && u.requests[r].status.Pending?;
      assert r in t.requests && t.requests[r].status.Pending?;
    }
  }

  lemma CreateIsLegal(t: Tables, i: Id, r: Id, org: Id, m: Id, d: PolicyDecision, expiresAt: int, j: Id)
    requires JointInvariant(t) && i !in t.intents && r !in t.requests && j in t.intents
    ensures var u := CreateIntent(t, i, r, org, m, d, expiresAt);
            j in u.intents && u.intents[j] == t.intents[j] && LegalChange(t, u, j)
  {
    hide RequestsOk, OneRequestPerIntent, IntentsOk, ApprovalsRequested, LegalChange;
    var u := CreateIntent(t, i, r, org, m, d, expiresAt);
    CreatedRows(t, i, r, org, m, d, expiresAt);
    if HasPendingRequest(u, j) {
      CreatedForOther(t, i, r, org, m, d, expiresAt, j);
    }
    PlainChangeIsLegal(t, u, j);
  }

  lemma CreatedForOther(t: Tables, i: Id, r: Id, org: Id, m: Id, d: PolicyDecision, expiresAt: int, j: Id)
    requires i !in t.intents && r !in t.requests && j != i
    requires HasPendingRequest(CreateIntent(t, i, r, org, m, d, expiresAt), j)
    ensures HasPendingRequest(t, j)
  {
    var u := CreateIntent(t, i, r, org, m, d, expiresAt);
    var s :| s in u.requests && u.requests[s].intentId == j && u.requests[s].status.Pending?;
    assert s in t.requests;
  }

  lemma OtherStepsAreLegal(t: Tables, now: int, op: Op, i: Id)
    requires JointInvariant(t) && i in t.intents
    requires !op.DoCreate? && !op.DoDecide? && !op.DoExpireStale?
    ensures var u := Apply(t, now, op);
            && i in u.intents && LegalChange(t, u, i)
            && (t.intents[i].status.Cancelled? ==> u.intents[i].status.Cancelled?)
  {
    var u := Apply(t, now, op);
    OtherStepsWriteIntents(t, now, op);
    PlainChangeIsLegal(t, u, i);
  }

  lemma StepIsLegal(t: Tables, now: int, op: Op, i: Id)
    requires JointInvariant(t) && i in t.intents
    ensures var u := Apply(t, now, op);
            && i in u.intents && LegalChange(t, u, i)
            && (t.intents[i].status.Cancelled? ==>
                  u.intents[i].status == if op.DoDecide? && Revives(t, now, op.requestId, op.approverId, op.vote, i)
                                         then ReadyToSign else Cancelled)
  {
    if op.DoCreate? {
      if Enabled(t, op) {
        CreateIsLegal(t, op.intentId, op.requestId, op.orgId, op.memberId, EvaluateIntent(op.evaluation),
                      op.expiresAt, i);
      } else {
        PlainChangeIsLegal(t, t, i);
      }
    } else if op.DoDecide? {
      DecideIsLegal(t, now, op.requestId, op.approverId, op.vote, i);
    } else if op.DoExpireStale? {
      ExpireIsLegal(t, StaleRequests(t, now), i);
    } else {
      OtherStepsAreLegal(t, now, op, i);
    }
  }

  /**
   * Every change of an intent's status strictly decreases its measure, and is a transition of the table,
   * or a refused proposal, or a quorum completing on a request whose intent was cancelled meanwhile.
   */
  lemma StatusChangesDescend(t: Tables, now: int, op: Op, i: Id)
    requires JointInvariant(t) && i in t.intents
    ensures i in Apply(t, now, op).intents && LegalChange(t, Apply(t, now, op), i)
  {
    StepIsLegal(t, now, op, i);
  }

  /** Denied, executed and failed are never left. */
  lemma FinalStatusesStay(t: Tables, now: int, op: Op, i: Id)
    requires JointInvariant(t) && i in t.intents
    requires t.intents[i].status.Denied? || t.intents[i].status.Executed? || t.intents[i].status.Failed?
    ensures i in Apply(t, now, op).intents && Apply(t, now, op).intents[i].status == t.intents[i].status
  {
    hide Apply, JointInvariant;
    StepIsLegal(t, now, op, i);
  }

  /**
   * A cancelled intent is revived exactly by an accepted approval that completes the quorum of the
   * request the cancellation left pending; it then becomes ready to sign.
   */
  lemma CancelledIsLeftOnlyByLateQuorum(t: Tables, now: int, op: Op, i: Id)
    requires JointInvariant(t) && i in t.intents && t.intents[i].status.Cancelled?
    ensures var u := Apply(t, now, op);
            && i in u.intents
            && (u.intents[i].status != Cancelled <==>
                  op.DoDecide? && Revives(t, now, op.requestId, op.approverId, op.vote, i))
            && (u.intents[i].status != Cancelled ==> u.intents[i].status == ReadyToSign)
  {
    StepIsLegal(t, now, op, i);
  }

  // ---- Exactly when a change is not a transition of the table ----

  // The Safe service refuses a proposal that passed its checks.
  predicate Refused(t: Tables, op: Op, i: Id) {
    op.DoPropose? && op.intentId == i && ProposalError(t, i, op.prepared).None? && op.safe.SafeRejected?
  }

  lemma ReadyFailsIffRefused(t: Tables, now: int, op: Op, i: Id)
    requires JointInvariant(t) && i in t.intents && t.intents[i].status.ReadyToSign?
    ensures i in Apply(t, now, op).intents
    ensures Apply(t, now, op).intents[i].status == Failed <==> Refused(t, op, i)
  {
    hide JointInvariant, Apply, LegalChange, PlainChange;
    StepIsLegal(t, now, op, i);
    if op.DoPropose? {
      ProposalOnReady(t, now, op, i);
    } else {
      OthersDoNotFail(t, now, op, i);
    }
  }

  lemma ProposalOnReady(t: Tables, now: int, op: Op, i: Id)
    requires op.DoPropose? && i in t.intents && t.intents[i].status.ReadyToSign?
    ensures i in Apply(t, now, op).intents
    ensures Apply(t, now, op).intents[i].status == Failed <==> Refused(t, op, i)
  {
    ProposalChanges();
    assert StatusAfter(ReadyToSign, Proposed) == Submitted;
  }

  lemma OthersDoNotFail(t: Tables, now: int, op: Op, i: Id)
    requires JointInvariant(t) && i in t.intents && t.intents[i].status.ReadyToSign? && !op.DoPropose?
    ensures i in Apply(t, now, op).intents && Apply(t, now, op).intents[i].status != Failed
  {
    hide JointInvariant, Settled, EvaluateIntent, DecisionError, AssignError, Revives, IntentsOf, EligibleApprovers;
    if op.DoDecide? {
      assert RequestsOk(t) by {
        InvariantParts(t);
      }
      if DecisionError(t, now, op.requestId, op.approverId).None? {
        DecideEffect(t, now, op.requestId, op.approverId, op.vote);
      }
    } else if op.DoCreate? && Enabled(t, op) {
      CreatedRows(t, op.intentId, op.requestId, op.orgId, op.memberId, EvaluateIntent(op.evaluation), op.expiresAt);
    }
  }

  lemma OffTableIsNotListed(a: IntentStatus, b: IntentStatus)
    ensures OffTable(a, b) ==> !OnTable(a, b)
  {
  }

  /**
   * A whole call changes a status against the table exactly if it is a refused proposal of a ready intent, or an
   * accepted approval that completes the quorum of the request a cancellation left pending.
   */
  lemma OffTableIff(t: Tables, now: int, op: Op, i: Id)
    requires JointInvariant(t) && i in t.intents
    ensures i in Apply(t, now, op).intents
    ensures var a, b := t.intents[i].status, Apply(t, now, op).intents[i].status;
            (a != b && !OnTable(a, b)) <==>
              || Refused(t, op, i)
              || (a.Cancelled? && op.DoDecide? && Revives(t, now, op.requestId, op.approverId, op.vote, i))
  {
    hide JointInvariant, Apply, OnTable, Revives;
    var a := t.intents[i].status;
    StepIsLegal(t, now, op, i);
    var b := Apply(t, now, op).intents[i].status;
    OffTableIsNotListed(a, b);
    if a.ReadyToSign? {
      ReadyFailsIffRefused(t, now, op, i);
    }
  }

  // ---- Approvals after the expiry time ----

  ghost predicate Swept(steps: seq<Timed>) {
    exists k :: 0 <= k < |steps| && steps[k].op.DoExpireStale?
  }

  ghost predicate NobodyDecides(steps: seq<Timed>, r: Id) {
    forall k :: 0 <= k < |steps| && steps[k].op.DoDecide? ==> steps[k].op.requestId != r
  }

  lemma StepOnOverdue(t: Tables, now: int, op: Op, r: Id)
    requires r in t.requests && t.requests[r].expiresAt < now && !(op.DoDecide? && op.requestId == r)
    ensures var u := Apply(t, now, op);
            && r in u.requests && u.requests[r].expiresAt == t.requests[r].expiresAt
            && (u.requests[r].status.Pending? <==> t.requests[r].status.Pending? && !op.DoExpireStale?)
  {
    hide EvaluateIntent, RecordDecision, ExpireRequests, CreateIntent, Propose, Poll, Assign, Revoke, Sweep;
    if op.DoDecide? {
      DecisionElsewhere(t, now, op.requestId, op.approverId, op.vote, r);
    } else if op.DoExpireStale? {
      SweepExpires(t, now, r);
    } else if op.DoCreate? {
      if Enabled(t, op) {
        CreatedRows(t, op.intentId, op.requestId, op.orgId, op.memberId, EvaluateIntent(op.evaluation), op.expiresAt);
      }
    } else {
      OtherStepsWriteIntents(t, now, op);
    }
  }

  lemma DecisionElsewhere(t: Tables, now: int, q: Id, m: Id, vote: Vote, r: Id)
    requires r in t.requests && q != r
    ensures var u := RecordDecision(t, now, q, m, vote);
            r in u.requests && u.requests[r] == t.requests[r]
  {
    hide DecisionError, EligibleApprovers, CountApprovals;
  }

  lemma SweepExpires(t: Tables, now: int, r: Id)
    requires r in t.requests && t.requests[r].expiresAt < now
    ensures var u := ExpireRequests(t, StaleRequests(t, now));
            && r in u.requests && u.requests[r].expiresAt == t.requests[r].expiresAt
            && !u.requests[r].status.Pending?
  {
  }

  lemma {:induction false} RunOnOverdue(w: World, steps: seq<Timed>, r: Id)
    requires r in w.tables.requests && w.tables.requests[r].status.Pending? && w.tables.requests[r].expiresAt < w.now
    requires NobodyDecides(steps, r)
    ensures var u := Run(w, steps);
            && r in u.tables.requests && w.now <= u.now
            && u.tables.requests[r].expiresAt == w.tables.requests[r].expiresAt
            && (u.tables.requests[r].status.Pending? <==> !Swept(steps))
  {
    hide Apply;
    if steps != [] {
      var front, s := steps[..|steps| - 1], steps[|steps| - 1];
      RunOnOverdue(w, front, r);
      var v := Run(w, front);
      StepOnOverdue(v.tables, v.now + s.delay, s.op, r);
      assert Swept(steps) <==> Swept(front) || s.op.DoExpireStale? by {
        if Swept(front) {
          var k :| 0 <= k < |front| && front[k].op.DoExpireStale?;
          assert steps[k].op.DoExpireStale?;
        }
      }
    }
  }

  /**
   * Expiry times are enforced by the sweep alone: once a pending request is overdue and nobody else decides on it,
   * the decision of an eligible member who has not decided is accepted exactly if no sweep ran since.
   */
  lemma OverdueVoteAcceptedIffNotSwept(w: World, steps: seq<Timed>, delay: nat, r: Id, m: Id)
    requires r in w.tables.requests && w.tables.requests[r].status.Pending? && w.tables.requests[r].expiresAt < w.now
    requires NobodyDecides(steps, r)
    requires var u := Run(w, steps);
             && r in u.tables.requests && u.tables.requests[r].intentId in u.tables.intents
             && m in EligibleApprovers(u.tables, u.now + delay, u.tables.intents[u.tables.requests[r].intentId].orgId,
                                       u.tables.requests[r].approverRoleIds)
             && (r, m) !in u.tables.decisions
    ensures var u := Run(w, steps);
            DecisionError(u.tables, u.now + delay, r, m).None? <==> !Swept(steps)
  {
    hide Run, EligibleApprovers, Swept;
    RunOnOverdue(w, steps, r);
  }

  // ---- The number of changes ----

  // How often the status of intent i changes along the steps.
  ghost function Changes(w: World, steps: seq<Timed>, i: Id): nat {
    if steps == [] then 0
    else
      var before := Run(w, steps[..|steps| - 1]);
      var after := Next(before, steps[|steps| - 1]);
      Changes(w, steps[..|steps| - 1], i)
      + (if i in before.tables.intents && i in after.tables.intents
            && before.tables.intents[i].status != after.tables.intents[i].status then 1 else 0)
  }

  lemma {:induction false} ChangesBoundedByMeasure(w: World, steps: seq<Timed>, i: Id)
    requires JointInvariant(w.tables) && i in w.tables.intents
    ensures i in Run(w, steps).tables.intents && JointInvariant(Run(w, steps).tables)
    ensures Changes(w, steps, i) + Measure(Run(w, steps).tables, i) <= Measure(w.tables, i)
  {
    hide Apply, JointInvariant, MeasureOf, HasPendingRequest;
    if steps != [] {
      var before, s := steps[..|steps| - 1], steps[|steps| - 1];
      ChangesBoundedByMeasure(w, before, i);
      var v := Run(w, before);
      StepKeepsJointInvariant(v.tables, v.now + s.delay, s.op);
      StatusChangesDescend(v.tables, v.now + s.delay, s.op, i);
    }
  }

  /** From any moment of any run, an intent's status changes at most four more times. */
  lemma AtMostFourChanges(start: int, history: seq<Timed>, steps: seq<Timed>, i: Id)
    requires i in Run(World(NO_ROWS, start), history).tables.intents
    ensures Changes(Run(World(NO_ROWS, start), history), steps, i) <= 4
  {
    hide Apply, JointInvariant, Run, HasPendingRequest;
    JointInvariantHolds(start, history);
    ChangesBoundedByMeasure(Run(World(NO_ROWS, start), history), steps, i);
  }
}
