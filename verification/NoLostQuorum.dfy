/** However calls interleave, a quorum or a rejection is never overlooked. */
module NoLostQuorum {
  import opened Prelude
  import opened PolicyEngine
  import opened IntentStateMachine
  import opened PolicyEvaluation
  import opened Store
  import opened Steps
  import opened Interleaving
  import opened AuthorisationSafety

  // The call has inserted its decision on request r and has not returned.
  predicate PastInsert(c: Call, r: Id) {
    (c.DecideInserted? || c.DecideQuorum? || c.DecideClosed?) && c.requestId == r
  }

  predicate WillReject(c: Call, r: Id, m: Id) {
    c.DecideInserted? && c.requestId == r && c.memberId == m && c.vote.Reject?
  }

  predicate WillCountOrFulfil(c: Call, r: Id) {
    (c.DecideInserted? && c.requestId == r && c.vote.Approve?) || (c.DecideQuorum? && c.requestId == r)
  }

  ghost predicate RejectionsSeen(s: State, r: Id) {
    forall m :: (r, m) in s.tables.decisions && s.tables.decisions[(r, m)].Reject?
                ==> exists p :: p in s.calls && WillReject(s.calls[p], r, m)
  }

  ghost predicate QuorumSeen(s: State, r: Id)
    requires r in s.tables.requests
  {
    CountApprovals(s.tables.decisions, r) >= s.tables.requests[r].requiredCount
    ==> exists p :: p in s.calls && WillCountOrFulfil(s.calls[p], r)
  }

  // A pending request with a rejection or a quorum has a call in flight that will settle it.
  ghost predicate Watched(s: State) {
    forall r :: r in s.tables.requests && s.tables.requests[r].status.Pending? ==>
      RejectionsSeen(s, r) && QuorumSeen(s, r)
  }

  // ---- One statement of call p ----

  // Decisions stay; a new one is an insert, and a call with a rejection inserted goes on to close its request.
  lemma StatementOnVotes(t: Tables, now: int, c: Call, input: Input, r: Id, m: Id)
    ensures (r, m) in t.decisions ==> (r, m) in Effect(t, c, input).decisions
                                      && Effect(t, c, input).decisions[(r, m)] == t.decisions[(r, m)]
    ensures (r, m) in Effect(t, c, input).decisions && (r, m) !in t.decisions
            ==> && c.DecideFresh? && c.requestId == r && c.memberId == m
                && Effect(t, c, input).decisions[(r, m)] == c.vote
                && After(t, now, c, input) == Some(DecideInserted(r, m, c.vote, c.seen))
    ensures WillReject(c, r, m) && r in Effect(t, c, input).requests
            ==> !Effect(t, c, input).requests[r].status.Pending?
  {
    hide Settled, EligibleApprovers, CountApprovals;
  }

  lemma StatementKeepsRejectionsSeen(s: State, p: Id, input: Input, r: Id)
    requires p in s.calls && r in s.tables.requests && s.tables.requests[r].status.Pending?
    requires RejectionsSeen(s, r)
    requires var u := Next(s, Continue(p, input));
             r in u.tables.requests && u.tables.requests[r].status.Pending?
    ensures RejectionsSeen(Next(s, Continue(p, input)), r)
  {
    hide Effect, After;
    var u, c := Next(s, Continue(p, input)), s.calls[p];
    forall m | (r, m) in u.tables.decisions && u.tables.decisions[(r, m)].Reject?
      ensures exists q :: q in u.calls && WillReject(u.calls[q], r, m)
    {
      StatementOnVotes(s.tables, s.now, c, input, r, m);
      if (r, m) in s.tables.decisions {
        var q :| q in s.calls && WillReject(s.calls[q], r, m);
        assert q != p;
        assert q in u.calls && u.calls[q] == s.calls[q];
      } else {
        assert p in u.calls && WillReject(u.calls[p], r, m);
      }
    }
  }

  lemma StatementAddsAtMostOneApproval(t: Tables, c: Call, input: Input, r: Id)
    ensures var more := Effect(t, c, input).decisions;
            CountApprovals(more, r) == CountApprovals(t.decisions, r)
            || (c.DecideFresh? && c.requestId == r && c.vote.Approve? && (r, c.memberId) !in t.decisions)
  {
    hide ApproversOf, Settled;
    if c.DecideFresh? && (c.requestId, c.memberId) !in t.decisions {
      if c.requestId != r {
        OtherRequestsUnaffected(t.decisions, c.requestId, c.memberId, c.vote, r);
      } else if c.vote.Reject? {
        OneMoreRejection(t.decisions, r, c.memberId);
      }
    }
  }

  lemma StatementKeepsQuorumSeen(s: State, p: Id, input: Input, r: Id)
    requires p in s.calls && r in s.tables.requests && s.tables.requests[r].status.Pending?
    requires CallOk(s.tables, s.now, s.calls[p]) && QuorumSeen(s, r)
    requires var u := Next(s, Continue(p, input));
             && r in u.tables.requests && u.tables.requests[r].status.Pending?
             && u.tables.requests[r].requiredCount == s.tables.requests[r].requiredCount
    ensures QuorumSeen(Next(s, Continue(p, input)), r)
  {
    hide ApproversOf, EligibleApprovers, Settled, Authorised;
    var u, c := Next(s, Continue(p, input)), s.calls[p];
    StatementAddsAtMostOneApproval(s.tables, c, input, r);
    if CountApprovals(u.tables.decisions, r) >= u.tables.requests[r].requiredCount {
      if CountApprovals(u.tables.decisions, r) == CountApprovals(s.tables.decisions, r) {
        var q :| q in s.calls && WillCountOrFulfil(s.calls[q], r);
        assert q in u.calls && WillCountOrFulfil(u.calls[q], r);
      } else {
        assert p in u.calls && WillCountOrFulfil(u.calls[p], r);
      }
    }
  }

  lemma CreationLeavesDecisions(t: Tables, c: Call, input: Input, r: Id)
    requires r !in t.requests && r in Effect(t, c, input).requests
    ensures Effect(t, c, input).decisions == t.decisions
  {
    hide Settled;
  }

  lemma RequiresSomeone(t: Tables, now: int, r: Id)
    requires TablesOk(t, now) && r in t.requests
    ensures t.requests[r].requiredCount >= 1
  {
    hide Authorised;
    assert RequestOk(t, now, r) && IntentOk(t, t.requests[r].intentId);
  }

  lemma NoDecisionsYet(t: Tables, now: int, r: Id)
    requires TablesOk(t, now) && r !in t.requests
    ensures CountApprovals(t.decisions, r) == 0
    ensures forall m :: (r, m) !in t.decisions
  {
    hide IntentOk, RequestOk;
    assert ApproversOf(t.decisions, r) == {};
  }

  // A request that has just been created has neither decisions nor a quorum of nobody.
  lemma NewRequestWatched(s: State, p: Id, input: Input, r: Id)
    requires Invariant(s) && p in s.calls && r !in s.tables.requests
    requires Invariant(Next(s, Continue(p, input))) && r in Next(s, Continue(p, input)).tables.requests
    ensures RejectionsSeen(Next(s, Continue(p, input)), r) && QuorumSeen(Next(s, Continue(p, input)), r)
  {
    hide TablesOk, CallOk, Next, Effect, CountApprovals;
    var u := Next(s, Continue(p, input));
    ContinueTables(s, p, input);
    CreationLeavesDecisions(s.tables, s.calls[p], input, r);
    NoDecisionsYet(s.tables, s.now, r);
    RequiresSomeone(u.tables, u.now, r);
  }

  lemma OnlyNewRequestsArePending(t: Tables, c: Call, input: Input, r: Id)
    requires r in t.requests && r in Effect(t, c, input).requests && Effect(t, c, input).requests[r].status.Pending?
    ensures t.requests[r].status.Pending?
    ensures Effect(t, c, input).requests[r].requiredCount == t.requests[r].requiredCount
  {
    hide Settled;
  }

  lemma StatementKeepsWatched(s: State, p: Id, input: Input)
    requires Invariant(s) && Watched(s) && p in s.calls
    ensures Watched(Next(s, Continue(p, input)))
  {
    hide Invariant, Next, Effect, RejectionsSeen, QuorumSeen;
    var u := Next(s, Continue(p, input));
    NextKeepsInvariant(s, Continue(p, input));
    forall r | r in u.tables.requests && u.tables.requests[r].status.Pending?
      ensures RejectionsSeen(u, r) && QuorumSeen(u, r)
    {
      if r in s.tables.requests {
        ContinueTables(s, p, input);
        OnlyNewRequestsArePending(s.tables, s.calls[p], input, r);
        InvariantOfCall(s, p);
        StatementKeepsRejectionsSeen(s, p, input, r);
        StatementKeepsQuorumSeen(s, p, input, r);
      } else {
        NewRequestWatched(s, p, input, r);
      }
    }
  }

  lemma ContinueTables(s: State, p: Id, input: Input)
    requires p in s.calls
    ensures Next(s, Continue(p, input)).tables == Effect(s.tables, s.calls[p], input)
  {
  }

  lemma InvariantOfCall(s: State, p: Id)
    requires Invariant(s) && p in s.calls
    ensures CallOk(s.tables, s.now, s.calls[p])
  {
  }

  // ---- Every action ----

  // The other actions add no decision, end no call and touch no request.
  lemma OtherActionsAddOnly(s: State, a: Action)
    requires !a.Continue? || a.call !in s.calls
    ensures var u := Next(s, a);
            && u.tables.requests == s.tables.requests && u.tables.decisions == s.tables.decisions
            && forall p :: p in s.calls ==> p in u.calls && u.calls[p] == s.calls[p]
  {
    hide EvaluateIntent, CanStart;
  }

  lemma ActionKeepsWatched(s: State, a: Action)
    requires Invariant(s) && Watched(s)
    ensures Watched(Next(s, a))
  {
    if a.Continue? && a.call in s.calls {
      StatementKeepsWatched(s, a.call, a.input);
    } else {
      hide Next;
      var u := Next(s, a);
      OtherActionsAddOnly(s, a);
      forall r | r in u.tables.requests && u.tables.requests[r].status.Pending?
        ensures RejectionsSeen(u, r) && QuorumSeen(u, r)
      {
        AddingCallsKeepsSeen(s, u, r);
      }
    }
  }

  lemma AddingCallsKeepsSeen(s: State, u: State, r: Id)
    requires r in s.tables.requests && RejectionsSeen(s, r) && QuorumSeen(s, r)
    requires u.tables.requests == s.tables.requests && u.tables.decisions == s.tables.decisions
    requires forall p :: p in s.calls ==> p in u.calls && u.calls[p] == s.calls[p]
    ensures RejectionsSeen(u, r) && QuorumSeen(u, r)
  {
    forall m | (r, m) in u.tables.decisions && u.tables.decisions[(r, m)].Reject?
      ensures exists p :: p in u.calls && WillReject(u.calls[p], r, m)
    {
      var p :| p in s.calls && WillReject(s.calls[p], r, m);
      assert p in u.calls;
    }
    if CountApprovals(u.tables.decisions, r) >= u.tables.requests[r].requiredCount {
      var p :| p in s.calls && WillCountOrFulfil(s.calls[p], r);
      assert p in u.calls;
    }
  }

  lemma {:induction false} WatchedHolds(start: int, actions: seq<Action>)
    ensures Watched(Exec(Initial(start), actions))
  {
    hide Next, Invariant;
    if actions != [] {
      WatchedHolds(start, actions[..|actions| - 1]);
      InvariantHolds(start, actions[..|actions| - 1]);
      ActionKeepsWatched(Exec(Initial(start), actions[..|actions| - 1]), actions[|actions| - 1]);
    }
  }

  /**
   * Whenever no recordDecision call on a request is past its insert and unfinished, the request is no
   * longer pending, or it has fewer approvals than required and no rejection.
   */
  lemma QuorumIsNeverLost(start: int, actions: seq<Action>, r: Id)
    requires var s := Exec(Initial(start), actions);
             && r in s.tables.requests && s.tables.requests[r].status.Pending?
             && forall p :: p in s.calls ==> !PastInsert(s.calls[p], r)
    ensures var s := Exec(Initial(start), actions);
            && CountApprovals(s.tables.decisions, r) < s.tables.requests[r].requiredCount
            && RejectersOf(s.tables.decisions, r) == {}
  {
    hide Exec, ApproversOf;
    WatchedHolds(start, actions);
    var s := Exec(Initial(start), actions);
    assert RejectionsSeen(s, r) && QuorumSeen(s, r);
  }
}
