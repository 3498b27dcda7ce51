/** What each service call accepts and writes, row by row and with the fields written out. */
module CallEffects {
  import opened Prelude
  import opened PolicyEngine
  import opened IntentStateMachine
  import opened PolicyEvaluation
  import opened Store
  import opened Steps

  // ---- Deciding ----

  // The member belongs to the organisation, is active, and holds one of the named roles now, if any are named.
  ghost predicate MayDecide(t: Tables, now: int, q: Request, m: Id) {
    && q.intentId in t.intents && m in t.members && t.members[m].active
    && t.members[m].orgId == t.intents[q.intentId].orgId
    && (q.approverRoleIds == [] || exists a: Id :: HoldsNow(t, now, a, m, q.approverRoleIds))
  }

  /** A decision is accepted exactly if all four conditions hold; the error names the first that does not. */
  lemma DecisionIsAcceptedIff(t: Tables, now: int, r: Id, m: Id)
    ensures var error := DecisionError(t, now, r, m);
            && (error == None <==> r in t.requests && t.requests[r].status == Pending
                                   && MayDecide(t, now, t.requests[r], m) && (r, m) !in t.decisions)
            && (error == Some(ApprovalNotFound) <==> r !in t.requests)
            && (error == Some(ApprovalNotPending) <==> r in t.requests && t.requests[r].status != Pending)
            && (error == Some(NotEligibleApprover) <==>
                  r in t.requests && t.requests[r].status == Pending && !MayDecide(t, now, t.requests[r], m))
            && (error == Some(ApprovalAlreadyDecided) <==>
                  r in t.requests && t.requests[r].status == Pending && MayDecide(t, now, t.requests[r], m)
                  && (r, m) in t.decisions)
  {
    hide EligibleApprovers, HoldsNow;
    if r in t.requests && t.requests[r].intentId in t.intents {
      EligibleMeaning(t, now, t.intents[t.requests[r].intentId].orgId, t.requests[r].approverRoleIds, m);
    }
  }

  // The members other than m who have approved the request.
  function OtherApprovers(t: Tables, r: Id, m: Id): set<Id> {
    set k | k in t.decisions && k.0 == r && k.1 != m && t.decisions[k] == Approve :: k.1
  }

  // The intent's row with another status.
  ghost predicate StatusWritten(t: Tables, u: Tables, i: Id, status: IntentStatus) {
    u.intents == if i in t.intents then t.intents[i := t.intents[i].(status := status)] else t.intents
  }

  lemma CountWithNewApproval(t: Tables, r: Id, m: Id)
    requires (r, m) !in t.decisions
    ensures CountApprovals(t.decisions[(r, m) := Approve], r) == |OtherApprovers(t, r, m)| + 1
  {
    var more := t.decisions[(r, m) := Approve];
    assert ApproversOf(more, r) == OtherApprovers(t, r, m) + {m};
  }

  /**
   * An accepted decision is stored. A rejection rejects the request and cancels its intent. An approval that is at
   * least the required number fulfils the request and makes its intent ready to sign. Nothing else changes.
   */
  lemma DecisionWrites(t: Tables, now: int, r: Id, m: Id, vote: Vote)
    requires r in t.requests && DecisionError(t, now, r, m) == None
    ensures var u, q := RecordDecision(t, now, r, m, vote), t.requests[r];
            && u.decisions == t.decisions[(r, m) := vote] && u.members == t.members && u.assignments == t.assignments
            && if vote == Reject
               then u.requests == t.requests[r := q.(status := Rejected)] && StatusWritten(t, u, q.intentId, Cancelled)
               else if |OtherApprovers(t, r, m)| + 1 >= q.requiredCount
               then u.requests == t.requests[r := q.(status := Fulfilled)]
                    && StatusWritten(t, u, q.intentId, ReadyToSign)
               else u.requests == t.requests && u.intents == t.intents
  {
    hide EligibleApprovers, ApproversOf, OtherApprovers;
    assert StatusAfter(PendingApproval, ApprovalRejected) == Cancelled;
    assert StatusAfter(PendingApproval, ApprovalCompleted) == ReadyToSign;
    if vote == Approve {
      CountWithNewApproval(t, r, m);
    }
  }

  /** A sweep expires exactly the pending requests whose time is past, and cancels exactly their intents. */
  lemma SweepWrites(t: Tables, now: int)
    ensures var u := ExpireRequests(t, StaleRequests(t, now));
            && u.decisions == t.decisions && u.members == t.members && u.assignments == t.assignments
            && u.requests.Keys == t.requests.Keys && u.intents.Keys == t.intents.Keys
            && (forall r :: r in t.requests ==>
                  u.requests[r] == if t.requests[r].status == Pending && t.requests[r].expiresAt < now
                                   then t.requests[r].(status := Expired) else t.requests[r])
            && (forall i :: i in t.intents ==>
                  u.intents[i] == if exists r: Id :: Overdue(t, now, r, i)
                                  then t.intents[i].(status := Cancelled) else t.intents[i])
  {
    forall i | i in t.intents
      ensures i in IntentsOf(t, StaleRequests(t, now)) <==> exists r: Id :: Overdue(t, now, r, i)
    {
      if i in IntentsOf(t, StaleRequests(t, now)) {
        var r :| r in StaleRequests(t, now) && r in t.requests && t.requests[r].intentId == i;
        assert Overdue(t, now, r, i);
      }
      if r: Id :| Overdue(t, now, r, i) {
        assert r in StaleRequests(t, now);
      }
    }
  }

  predicate Overdue(t: Tables, now: int, r: Id, i: Id) {
    r in t.requests && t.requests[r].status == Pending && t.requests[r].expiresAt < now && t.requests[r].intentId == i
  }

  // ---- Creating and cancelling ----

  /**
   * A creation stores the intent of its member with the decision and the status that follows from it, and for an
   * approval outcome one pending request that asks for the decided number, roles and expiry time.
   */
  lemma CreationWrites(t: Tables, i: Id, r: Id, org: Id, m: Id, d: PolicyDecision, expiresAt: int)
    requires i !in t.intents && r !in t.requests
    ensures var u := CreateIntent(t, i, r, org, m, d, expiresAt);
            && u.decisions == t.decisions && u.members == t.members && u.assignments == t.assignments
            && u.intents == t.intents[i := Intent(org, m,
                                                  match d.decision
                                                  case Allow => ReadyToSign
                                                  case NeedApproval => PendingApproval
                                                  case Deny => Denied,
                                                  d, None, None, None)]
            && (!d.decision.NeedApproval? ==> u.requests == t.requests)
    ensures d.decision.NeedApproval? && d.metadata.Approval? ==>
              var asked := d.metadata.approval;
              CreateIntent(t, i, r, org, m, d, expiresAt).requests ==
              t.requests[r := Request(i, asked.approverCount,
                                      match asked.approverRoleIds case Some(roles) => roles case None => [],
                                      expiresAt, Pending)]
  {
    hide CreateForIntent;
    InitialStatuses();
    var s := PutIntent(t, i, NewIntent(org, m, d));
    RequestWrites(s, i, r, d, expiresAt);
    assert s.intents[i := s.intents[i]] == s.intents;
  }

  lemma InitialStatuses()
    ensures InitialStatus(Allow) == ReadyToSign && InitialStatus(Deny) == Denied
    ensures InitialStatus(NeedApproval) == PendingApproval
  {
  }

  lemma RequestWrites(t: Tables, i: Id, r: Id, d: PolicyDecision, expiresAt: int)
    requires i in t.intents && (d.decision.NeedApproval? ==> t.intents[i].status == PendingApproval)
    ensures var u := CreateForIntent(t, i, r, d, expiresAt);
            && u.intents == t.intents && u.decisions == t.decisions && u.members == t.members
            && u.assignments == t.assignments
            && (!d.decision.NeedApproval? ==> u.requests == t.requests)
    ensures d.decision.NeedApproval? && d.metadata.Approval? ==>
              var asked := d.metadata.approval;
              CreateForIntent(t, i, r, d, expiresAt).requests ==
              t.requests[r := Request(i, asked.approverCount,
                                      match asked.approverRoleIds case Some(roles) => roles case None => [],
                                      expiresAt, Pending)]
  {
    assert t.intents[i := t.intents[i]] == t.intents;
  }

  /** Cancelling touches exactly the members' intents that are evaluated, pending approval or ready to sign. */
  lemma CancellationWrites(t: Tables, memberIds: set<Id>, i: Id)
    requires i in t.intents
    ensures var u, before := CancelIntents(t, memberIds), t.intents[i];
            && u == t.(intents := u.intents) && u.intents.Keys == t.intents.Keys
            && u.intents[i] ==
               if before.memberId in memberIds && before.status in {PolicyEvaluated, PendingApproval, ReadyToSign}
               then before.(status := Cancelled, failureReason := Some("access_revoked")) else before
  {
  }

  // ---- Proposing and polling ----

  /** A proposal is sent for exactly the prepared intents that are ready to sign; its answer is recorded. */
  lemma ProposalWrites(t: Tables, i: Id, prepared: bool, answer: SafeAnswer)
    ensures ProposalError(t, i, prepared) ==
            (if i !in t.intents then Some(IntentNotFound)
             else if t.intents[i].status != ReadyToSign then Some(IntentNotReady)
             else if !prepared then Some(NotPrepared) else None)
    ensures var u := Propose(t, i, prepared, answer);
            && u == t.(intents := u.intents)
            && if i in t.intents && t.intents[i].status == ReadyToSign && prepared && answer != SafeRetry
               then u.intents ==
                    t.intents[i := match answer
                                   case SafeAccepted(hash) =>
                                     t.intents[i].(status := Submitted, safeTxHash := Some(hash))
                                   case SafeRejected(reason) =>
                                     t.intents[i].(status := Failed, failureReason := Some(reason))
                                   case SafeRetry => t.intents[i]]
               else u.intents == t.intents
  {
    assert StatusAfter(ReadyToSign, Proposed) == Submitted;
  }

  // What a poll makes of a submitted intent; the sixtieth attempt is the last.
  function Polled(intent: Intent, answer: ChainAnswer, attempt: nat): Intent {
    match answer
    case ChainExecuted(hash) => intent.(status := Executed, txHash := Some(hash))
    case ChainFailed(reason) => intent.(status := Failed, failureReason := Some(reason))
    case ChainPending =>
      if attempt < 60 then intent else intent.(status := Failed, failureReason := Some("tx_status_poll_timeout"))
    case ChainError(retryable, reason) =>
      if retryable && attempt < 60 then intent else intent.(status := Failed, failureReason := Some(reason))
  }

  /** A poll rewrites only a submitted intent, by the chain's answer and the attempt number. */
  lemma PollWrites(t: Tables, i: Id, answer: ChainAnswer, attempt: nat)
    ensures var u := Poll(t, i, answer, attempt);
            && u == t.(intents := u.intents)
            && u.intents == if i in t.intents && t.intents[i].status == Submitted
                            then t.intents[i := Polled(t.intents[i], answer, attempt)] else t.intents
  {
    assert StatusAfter(Submitted, OnchainSuccess) == Executed;
    assert StatusAfter(Submitted, OnchainFailed) == Failed;
    if i in t.intents {
      assert t.intents[i := t.intents[i]] == t.intents;
    }
  }

  // ---- Granting and revoking roles ----

  // Some scheduled or active assignment already gives the member the role on the wallet.
  ghost predicate AlreadyGranted(t: Tables, g: Grant) {
    exists a: Id :: IsSameGrant(t, g, a)
  }

  predicate IsSameGrant(t: Tables, g: Grant, a: Id) {
    && a in t.assignments && (t.assignments[a].status == Scheduled || t.assignments[a].status == Active)
    && t.assignments[a].memberId == g.memberId && t.assignments[a].roleId == g.roleId
    && t.assignments[a].walletId == g.walletId
  }

  // The window asked for is empty.
  predicate EmptyWindow(g: Grant, now: int) {
    g.endsAt.Some? && g.endsAt.value <= (if g.startsAt.Some? then g.startsAt.value else now)
  }

  /** A grant is made exactly if all conditions hold; the error names the first that does not. */
  lemma GrantIsMadeIff(t: Tables, now: int, g: Grant)
    ensures AssignError(t, now, g) ==
            (if !(g.memberId in t.members && t.members[g.memberId].active && t.members[g.memberId].orgId == g.orgId)
             then Some(MemberNotFound)
             else if !g.roleInOrg then Some(RoleNotFound)
             else if g.walletId != None && !g.walletInOrg then Some(WalletNotFound)
             else if EmptyWindow(g, now) then Some(InvalidAccessWindow)
             else if AlreadyGranted(t, g) then Some(RoleAlreadyAssigned) else None)
  {
    if a: Id :| IsSameGrant(t, g, a) {
      assert Live(t.assignments[a]) && SameGrant(t.assignments[a], g.memberId, g.roleId, g.walletId);
    }
    if a :| a in t.assignments && Live(t.assignments[a])
            && SameGrant(t.assignments[a], g.memberId, g.roleId, g.walletId) {
      assert IsSameGrant(t, g, a);
    }
  }

  /** The new row holds what was asked for; it starts at the instant asked for or now, and waits if that is later. */
  lemma GrantWrites(t: Tables, now: int, id: Id, g: Grant)
    requires AssignError(t, now, g) == None
    ensures var u := Assign(t, now, id, g);
            && u == t.(assignments := u.assignments) && u.assignments.Keys == t.assignments.Keys + {id}
            && (forall a :: a in t.assignments && a != id ==> u.assignments[a] == t.assignments[a])
            && var row := u.assignments[id];
               && row.memberId == g.memberId && row.roleId == g.roleId && row.walletId == g.walletId
               && row.endsAt == g.endsAt
               && (g.startsAt.Some? ==> row.startsAt == g.startsAt.value)
               && (g.startsAt.None? ==> row.startsAt == now)
               && row.status == if row.startsAt > now then Scheduled else Active
  {
  }

  /**
   * A revocation is made exactly for a scheduled or active assignment of a member of the organisation. It ends the
   * assignment now and cancels the member's open intents.
   */
  lemma RevocationWrites(t: Tables, now: int, org: Id, m: Id, a: Id)
    ensures RevokeError(t, org, m, a) == None <==>
            && a in t.assignments && t.assignments[a].memberId == m && m in t.members && t.members[m].orgId == org
            && (t.assignments[a].status == Scheduled || t.assignments[a].status == Active)
    ensures RevokeError(t, org, m, a) != None ==> Revoke(t, now, org, m, a) == t
    ensures RevokeError(t, org, m, a) == None ==>
            Revoke(t, now, org, m, a) ==
            t.(assignments := t.assignments[a := t.assignments[a].(status := Revoked, endsAt := Some(now))],
               intents := CancelIntents(t, {m}).intents)
  {
    hide Cancellable;
  }
}
