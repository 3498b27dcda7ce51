/**
 * What is needed for the joint invariant of requests and intents to hold under interleaving: no two calls on the
 * same intent are in flight at once. Calls on different intents, roster changes and cancellations run freely.
 */
module NonOverlapping {
  import opened Prelude
  import opened PolicyEngine
  import opened IntentStateMachine
  import opened PolicyEvaluation
  import opened Store
  import opened Steps
  import opened Interleaving
  import opened AuthorisationSafety
  import opened Finality
  import AtomicRuns

  // The call works on intent i or on its request. A sweep does so only for the request it has just read.
  predicate Names(c: Call, i: Id) {
    match c
    case DecideRead(_, _, _, seen, _) => seen.intentId == i
    case DecideEligible(_, _, _, seen) => seen.intentId == i
    case DecideFresh(_, _, _, seen) => seen.intentId == i
    case DecideInserted(_, _, _, seen) => seen.intentId == i
    case DecideQuorum(_, j) => j == i
    case DecideClosed(_, j, _) => j == i
    case SweepList(_) => false
    case ExpireRead(_, j, _) => j == i
    case ExpireMarked(j, _) => j == i
    case ProposeRead(j) => j == i
    case ProposeAnswered(j, _) => j == i
    case PollRead(j, _) => j == i
    case PollAnswered(j, _, _) => j == i
    case CreateInserted(j, _, _) => j == i
    case CreateRequested(j) => j == i
  }

  ghost predicate NoOverlap(s: State) {
    forall p, q, i :: p in s.calls && q in s.calls && Names(s.calls[p], i) && Names(s.calls[q], i) ==> p == q
  }

  // Throughout the run, no two calls on the same intent are in flight.
  ghost predicate NeverOverlapping(start: int, actions: seq<Action>) {
    forall k :: 0 <= k <= |actions| ==> NoOverlap(Exec(Initial(start), actions[..k]))
  }

  ghost predicate Free(s: State, i: Id) {
    forall p :: p in s.calls ==> !Names(s.calls[p], i)
  }

  predicate Undecided(status: IntentStatus) {
    status.PendingApproval? || status.Cancelled?
  }

  // How far a request and its intent have got while the call is at its place.
  ghost predicate Between(c: Call, q: Request, status: IntentStatus, approvals: nat, rejecters: set<Id>) {
    match c
    case DecideInserted(_, m, vote, _) =>
      q.status.Pending? && Undecided(status)
      && if vote.Reject? then rejecters == {m} && approvals < q.requiredCount
         else rejecters == {} && approvals <= q.requiredCount
    case DecideQuorum(_, _) =>
      q.status.Pending? && Undecided(status) && rejecters == {} && approvals == q.requiredCount
    case DecideClosed(_, _, closedAs) =>
      q.status == closedAs && Undecided(status)
      && if closedAs.Fulfilled? then rejecters == {} && approvals == q.requiredCount
         else closedAs.Rejected? && |rejecters| == 1 && approvals < q.requiredCount
    case ExpireMarked(_, _) =>
      q.status.Expired? && Undecided(status) && rejecters == {} && approvals < q.requiredCount
    case ProposeRead(_) => q.status.Fulfilled? && AtomicRuns.Consistent(q, status, approvals, rejecters)
    case ProposeAnswered(_, _) => q.status.Fulfilled? && AtomicRuns.Consistent(q, status, approvals, rejecters)
    case PollRead(_, _) => q.status.Fulfilled? && AtomicRuns.Consistent(q, status, approvals, rejecters)
    case PollAnswered(_, _, _) => q.status.Fulfilled? && AtomicRuns.Consistent(q, status, approvals, rejecters)
    case CreateInserted(_, _, _) => false
    case _ => q.status.Pending? && AtomicRuns.Consistent(q, status, approvals, rejecters)
  }

  ghost predicate BetweenOn(t: Tables, c: Call, r: Id)
    requires r in t.requests && t.requests[r].intentId in t.intents
  {
    Between(c, t.requests[r], t.intents[t.requests[r].intentId].status, CountApprovals(t.decisions, r),
            RejectersOf(t.decisions, r))
  }

  ghost predicate RequestFits(s: State, r: Id)
    requires r in s.tables.requests && s.tables.requests[r].intentId in s.tables.intents
  {
    && (forall p :: p in s.calls && Names(s.calls[p], s.tables.requests[r].intentId) ==>
          BetweenOn(s.tables, s.calls[p], r))
    && (Free(s, s.tables.requests[r].intentId) ==> AtomicRuns.RequestState(s.tables, r))
  }

  // The request a call works on is that of the intent it names; while a request is being created its intent waits.
  ghost predicate CallNames(t: Tables, c: Call) {
    && (c.ExpireRead? ==> c.requestId in t.requests && t.requests[c.requestId].intentId == c.intentId)
    && (c.CreateInserted? ==> c.intentId in t.intents && Undecided(t.intents[c.intentId].status))
  }

  ghost predicate Fits(s: State) {
    && (forall r :: r in s.tables.requests ==> s.tables.requests[r].intentId in s.tables.intents && RequestFits(s, r))
    && (forall p :: p in s.calls ==> CallNames(s.tables, s.calls[p]))
  }

  // ---- A statement of a call on the request's intent ----

  lemma VoteStatement(t: Tables, now: int, c: Call, r: Id)
    requires r in t.requests && t.requests[r].intentId in t.intents
    requires c.DecideFresh? && c.requestId == r && c.seen.intentId == t.requests[r].intentId && BetweenOn(t, c, r)
    ensures var u, next := Effect(t, c, NoInput), After(t, now, c, NoInput);
            && r in u.requests && u.requests[r] == t.requests[r] && u.intents == t.intents
            && if next.Some? then BetweenOn(u, next.value, r) && Names(next.value, t.requests[r].intentId)
               else AtomicRuns.RequestState(u, r)
  {
    hide ApproversOf, RejectersOf;
    if (r, c.memberId) !in t.decisions {
      if c.vote.Approve? {
        OneMoreApproval(t.decisions, r, c.memberId);
      } else {
        OneMoreRejection(t.decisions, r, c.memberId);
      }
    }
  }

  lemma IgnoresInput(t: Tables, now: int, c: Call, input: Input)
    requires !c.ProposeRead? && !c.PollRead? && !c.CreateInserted?
    ensures Effect(t, c, input) == Effect(t, c, NoInput) && After(t, now, c, input) == After(t, now, c, NoInput)
  {
    hide Settled, EligibleApprovers, CountApprovals, StatusAfter;
  }

  // A decision call past its insert, an expiry or the end of a creation.
  lemma ClosingStatement(t: Tables, now: int, c: Call, r: Id)
    requires r in t.requests && t.requests[r].intentId in t.intents && Names(c, t.requests[r].intentId)
    requires c.DecideInserted? || c.DecideQuorum? || c.DecideClosed? || c.ExpireRead? || c.ExpireMarked?
            || c.CreateRequested?
    requires c.DecideInserted? || c.DecideQuorum? || c.DecideClosed? || c.ExpireRead? ==> c.requestId == r
    requires c.DecideInserted? ==> c.seen.requiredCount == t.requests[r].requiredCount
    requires BetweenOn(t, c, r)
    ensures var u, next := Effect(t, c, NoInput), After(t, now, c, NoInput);
            && r in u.requests && u.requests[r].intentId == t.requests[r].intentId
            && t.requests[r].intentId in u.intents
            && if next.Some? && Names(next.value, t.requests[r].intentId) then BetweenOn(u, next.value, r)
               else AtomicRuns.RequestState(u, r)
  {
    hide ApproversOf, RejectersOf, CountApprovals, StatusAfter;
    WrittenStatuses();
  }

  lemma SettledStatus(intent: Intent, answer: ChainAnswer, attempt: nat)
    ensures var settled := Settled(intent, answer, attempt);
            settled.Some? ==> Final(settled.value.status)
  {
  }

  // A proposal or a poll.
  lemma OutsideStatement(t: Tables, now: int, c: Call, input: Input, r: Id)
    requires r in t.requests && t.requests[r].intentId in t.intents && Names(c, t.requests[r].intentId)
    requires c.ProposeRead? || c.ProposeAnswered? || c.PollRead? || c.PollAnswered?
    requires BetweenOn(t, c, r)
    ensures var u, next := Effect(t, c, input), After(t, now, c, input);
            && r in u.requests && u.requests[r] == t.requests[r] && t.requests[r].intentId in u.intents
            && if next.Some? then BetweenOn(u, next.value, r) && Names(next.value, t.requests[r].intentId)
               else AtomicRuns.RequestState(u, r)
  {
    hide ApproversOf, RejectersOf, CountApprovals, StatusAfter, Settled;
    WrittenStatuses();
    if c.PollAnswered? {
      SettledStatus(t.intents[c.intentId], c.chain, c.attempt);
    }
  }

  // A query of a decision call.
  lemma ReadingStatement(t: Tables, now: int, c: Call, input: Input, r: Id)
    requires r in t.requests && t.requests[r].intentId in t.intents && Names(c, t.requests[r].intentId)
    requires c.DecideRead? || c.DecideEligible?
    requires BetweenOn(t, c, r)
    ensures var u, next := Effect(t, c, input), After(t, now, c, input);
            && u == t
            && if next.Some? then BetweenOn(u, next.value, r) && Names(next.value, t.requests[r].intentId)
               else AtomicRuns.RequestState(u, r)
  {
    hide ApproversOf, RejectersOf, CountApprovals, EligibleApprovers;
  }

  // The request a call writes to is that of the intent it names; one still to be inserted is not there yet.
  ghost predicate Anchored(t: Tables, c: Call) {
    match c
    case DecideRead(r, _, _, seen, _) => r in t.requests && SameTerms(seen, t.requests[r])
    case DecideEligible(r, _, _, seen) => r in t.requests && SameTerms(seen, t.requests[r])
    case DecideFresh(r, _, _, seen) => r in t.requests && SameTerms(seen, t.requests[r])
    case DecideInserted(r, _, _, seen) => r in t.requests && SameTerms(seen, t.requests[r])
    case DecideQuorum(r, i) => r in t.requests && t.requests[r].intentId == i
    case DecideClosed(r, i, _) => r in t.requests && t.requests[r].intentId == i
    case ExpireRead(r, i, _) => r in t.requests && t.requests[r].intentId == i
    case CreateInserted(i, _, _) => NoRequestOf(t, i)
    case _ => true
  }

  lemma CallsAreAnchored(s: State, p: Id)
    requires Invariant(s) && SingleRequest(s) && p in s.calls && CallNames(s.tables, s.calls[p])
    ensures Anchored(s.tables, s.calls[p])
  {
    hide TablesOk, CountApprovals, Authorised, SameTerms;
    assert CallOk(s.tables, s.now, s.calls[p]);
  }

  // With one request per intent, it is the request at hand.
  lemma RequestOfCall(t: Tables, c: Call, r: Id)
    requires OneRequest(t) && Anchored(t, c) && r in t.requests && Names(c, t.requests[r].intentId)
    ensures (c.DecideRead? || c.DecideEligible? || c.DecideFresh? || c.DecideInserted? || c.DecideQuorum?
             || c.DecideClosed? || c.ExpireRead?) ==> c.requestId == r
    ensures c.DecideInserted? ==> c.seen.requiredCount == t.requests[r].requiredCount
    ensures !c.CreateInserted?
  {
  }

  lemma OrderlyParts(s: State)
    requires Orderly(s)
    ensures Invariant(s) && SingleRequest(s) && OneRequest(s.tables)
  {
    hide Invariant, RequestsClosed;
  }

  lemma StatementOnItsRequest(s: State, p: Id, input: Input, r: Id)
    requires Orderly(s) && Fits(s) && p in s.calls && r in s.tables.requests
    requires Names(s.calls[p], s.tables.requests[r].intentId)
    ensures var i, u := s.tables.requests[r].intentId, Next(s, Continue(p, input));
            && r in u.tables.requests && u.tables.requests[r].intentId == i && i in u.tables.intents
            && if p in u.calls && Names(u.calls[p], i) then BetweenOn(u.tables, u.calls[p], r)
               else AtomicRuns.RequestState(u.tables, r)
  {
    hide Orderly, Invariant, SingleRequest, OneRequest, Effect, After, Between, AtomicRuns.RequestState, Anchored;
    var c, i := s.calls[p], s.tables.requests[r].intentId;
    OrderlyParts(s);
    CallsAreAnchored(s, p);
    RequestOfCall(s.tables, c, r);
    assert RequestFits(s, r) && BetweenOn(s.tables, c, r);
    if c.DecideRead? || c.DecideEligible? {
      ReadingStatement(s.tables, s.now, c, input, r);
    } else if c.ProposeRead? || c.ProposeAnswered? || c.PollRead? || c.PollAnswered? {
      OutsideStatement(s.tables, s.now, c, input, r);
    } else {
      IgnoresInput(s.tables, s.now, c, input);
      if c.DecideFresh? {
        VoteStatement(s.tables, s.now, c, r);
      } else {
        ClosingStatement(s.tables, s.now, c, r);
      }
    }
  }

  // ---- A statement of a call on another intent ----

  // Nothing about request r and its intent differs between the tables.
  ghost predicate SameRequest(t: Tables, u: Tables, r: Id)
    requires r in t.requests && t.requests[r].intentId in t.intents
  {
    && r in u.requests && u.requests[r] == t.requests[r]
    && t.requests[r].intentId in u.intents
    && u.intents[t.requests[r].intentId].status == t.intents[t.requests[r].intentId].status
    && CountApprovals(u.decisions, r) == CountApprovals(t.decisions, r)
    && RejectersOf(u.decisions, r) == RejectersOf(t.decisions, r)
  }

  lemma StatementElsewhere(t: Tables, c: Call, input: Input, r: Id)
    requires Anchored(t, c) && r in t.requests && t.requests[r].intentId in t.intents
    requires !Names(c, t.requests[r].intentId)
    ensures SameRequest(t, Effect(t, c, input), r)
  {
    hide CountApprovals, ApproversOf, RejectersOf, Settled, StatusAfter;
    if c.DecideFresh? {
      OtherRequestUncounted(t.decisions, c.requestId, c.memberId, c.vote, r);
    } else if c.ProposeAnswered? || c.PollAnswered? {
      AnswerElsewhere(t, c, input, r);
    }
  }

  lemma AnswerElsewhere(t: Tables, c: Call, input: Input, r: Id)
    requires r in t.requests && t.requests[r].intentId in t.intents
    requires (c.ProposeAnswered? || c.PollAnswered?) && c.intentId != t.requests[r].intentId
    ensures SameRequest(t, Effect(t, c, input), r)
  {
    hide CountApprovals, ApproversOf, RejectersOf, Settled, StatusAfter;
  }

  lemma OtherRequestUncounted(decisions: Decisions, requestId: Id, memberId: Id, vote: Vote, other: Id)
    requires other != requestId
    ensures var more := decisions[(requestId, memberId) := vote];
            CountApprovals(more, other) == CountApprovals(decisions, other)
            && RejectersOf(more, other) == RejectersOf(decisions, other)
  {
    hide ApproversOf, RejectersOf;
    OtherRequestsUnaffected(decisions, requestId, memberId, vote, other);
  }

  // A call comes to name an intent by starting, or by a sweep that finds its request pending.
  lemma NewlyNamed(t: Tables, now: int, c: Call, input: Input, i: Id)
    requires After(t, now, c, input).Some? && Names(After(t, now, c, input).value, i) && !Names(c, i)
    ensures var d := After(t, now, c, input).value;
            && c.SweepList? && d.ExpireRead? && d.intentId == i && Effect(t, c, input) == t
            && d.requestId in t.requests && t.requests[d.requestId].intentId == i
            && t.requests[d.requestId].status.Pending?
  {
    hide EligibleApprovers, CountApprovals;
  }

  // If at most call p names the request's intent, the request fits p, or is consistent without it.
  lemma FitsItsCall(u: State, p: Id, r: Id)
    requires r in u.tables.requests && u.tables.requests[r].intentId in u.tables.intents
    requires forall q :: q in u.calls && Names(u.calls[q], u.tables.requests[r].intentId) ==> q == p
    requires if p in u.calls && Names(u.calls[p], u.tables.requests[r].intentId) then BetweenOn(u.tables, u.calls[p], r)
             else AtomicRuns.RequestState(u.tables, r)
    ensures RequestFits(u, r)
  {
    hide BetweenOn, AtomicRuns.RequestState, Names;
  }

  lemma FitsAfterOwnStatement(s: State, p: Id, input: Input, r: Id)
    requires Orderly(s) && Fits(s) && NoOverlap(s) && p in s.calls && r in s.tables.requests
    requires Names(s.calls[p], s.tables.requests[r].intentId)
    ensures var u := Next(s, Continue(p, input));
            r in u.tables.requests && u.tables.requests[r].intentId in u.tables.intents && RequestFits(u, r)
  {
    hide Orderly, Fits, Effect, After, BetweenOn, AtomicRuns.RequestState, Names, RequestFits;
    var u := Next(s, Continue(p, input));
    StatementOnItsRequest(s, p, input, r);
    FitsItsCall(u, p, r);
  }

  lemma FitsAfterOtherStatement(s: State, p: Id, input: Input, r: Id)
    requires Orderly(s) && Fits(s) && p in s.calls && r in s.tables.requests
    requires !Names(s.calls[p], s.tables.requests[r].intentId) && NoOverlap(Next(s, Continue(p, input)))
    ensures var u := Next(s, Continue(p, input));
            r in u.tables.requests && u.tables.requests[r].intentId in u.tables.intents && RequestFits(u, r)
  {
    hide Orderly, Effect, After, Between, Names, AtomicRuns.RequestState, Anchored, SameRequest, RequestFits, CallNames;
    var i, u, c := s.tables.requests[r].intentId, Next(s, Continue(p, input)), s.calls[p];
    OrderlyParts(s);
    CallsAreAnchored(s, p);
    StatementElsewhere(s.tables, c, input, r);
    if p in u.calls && Names(u.calls[p], i) {
      NewlyNamed(s.tables, s.now, c, input, i);
      forall q | q in s.calls
        ensures !Names(s.calls[q], i)
      {
        assert q != p ==> q in u.calls && u.calls[q] == s.calls[q];
      }
      FreeMeansConsistent(s, r);
      SweepFindsConsistent(s, u, p, r);
    } else {
      OthersUnchanged(s, u, r);
    }
  }

  lemma FreeMeansConsistent(s: State, r: Id)
    requires r in s.tables.requests && s.tables.requests[r].intentId in s.tables.intents && RequestFits(s, r)
    requires forall q :: q in s.calls ==> !Names(s.calls[q], s.tables.requests[r].intentId)
    ensures AtomicRuns.RequestState(s.tables, r)
  {
    hide AtomicRuns.RequestState, Names;
    assert Free(s, s.tables.requests[r].intentId);
  }

  lemma SweepFindsConsistent(s: State, u: State, p: Id, r: Id)
    requires Orderly(s) && r in s.tables.requests && s.tables.requests[r].intentId in s.tables.intents
    requires AtomicRuns.RequestState(s.tables, r) && u.tables == s.tables
    requires p in u.calls && u.calls[p].ExpireRead? && u.calls[p].requestId in s.tables.requests
    requires s.tables.requests[u.calls[p].requestId].intentId == s.tables.requests[r].intentId
    requires s.tables.requests[u.calls[p].requestId].status.Pending?
    requires forall q :: q in u.calls && Names(u.calls[q], s.tables.requests[r].intentId) ==> q == p
    requires Names(u.calls[p], s.tables.requests[r].intentId)
    ensures RequestFits(u, r)
  {
    hide CountApprovals, RejectersOf, Invariant, RequestsClosed;
    assert u.calls[p].requestId == r;
  }

  // Nothing about the request changes, and the same calls name its intent.
  lemma OthersUnchanged(s: State, u: State, r: Id)
    requires r in s.tables.requests && s.tables.requests[r].intentId in s.tables.intents && RequestFits(s, r)
    requires SameRequest(s.tables, u.tables, r)
    requires forall q :: q in u.calls && Names(u.calls[q], s.tables.requests[r].intentId)
                         ==> q in s.calls && u.calls[q] == s.calls[q]
    requires forall q :: q in s.calls && Names(s.calls[q], s.tables.requests[r].intentId)
                         ==> q in u.calls && u.calls[q] == s.calls[q]
    ensures r in u.tables.requests && u.tables.requests[r].intentId in u.tables.intents && RequestFits(u, r)
  {
    hide CountApprovals, RejectersOf, Between, Names, AtomicRuns.Consistent;
    if Free(u, s.tables.requests[r].intentId) {
      assert Free(s, s.tables.requests[r].intentId);
    }
  }

  // A request that has just been inserted has neither decisions nor another call on its intent.
  lemma NewRequestFits(s: State, p: Id, input: Input, r: Id)
    requires Orderly(s) && Fits(s) && p in s.calls && r !in s.tables.requests
    requires var u := Next(s, Continue(p, input));
             NoOverlap(u) && r in u.tables.requests
    ensures var u := Next(s, Continue(p, input));
            u.tables.requests[r].intentId in u.tables.intents && RequestFits(u, r)
  {
    hide TablesOk, SingleRequest, RequestsClosed, CountApprovals, RejectersOf, Names, Settled, StatusAfter;
    var c, u := s.calls[p], Next(s, Continue(p, input));
    EffectOnRequests(s.tables, c, input);
    assert CallNames(s.tables, c) && CallOk(s.tables, s.now, c);
    NothingDecided(s, r);
    CountIsPositive(s, c.intentId);
    NamesItself(c.intentId);
    assert u.calls[p] == CreateRequested(c.intentId) && u.tables.requests[r].intentId == c.intentId;
    assert BetweenOn(u.tables, CreateRequested(c.intentId), r);
    assert !Free(u, c.intentId);
    forall q | q in u.calls && Names(u.calls[q], c.intentId)
      ensures q == p
    {
    }
  }

  lemma NamesItself(i: Id)
    ensures Names(CreateRequested(i), i)
  {
  }

  lemma NothingDecided(s: State, r: Id)
    requires Invariant(s) && r !in s.tables.requests
    ensures CountApprovals(s.tables.decisions, r) == 0 && RejectersOf(s.tables.decisions, r) == {}
  {
    hide IntentOk, RequestOk, CallOk;
    assert ApproversOf(s.tables.decisions, r) == {};
  }

  lemma CountIsPositive(s: State, i: Id)
    requires Invariant(s) && i in s.tables.intents && s.tables.intents[i].decision.decision.NeedApproval?
    ensures var d := s.tables.intents[i].decision;
            d.metadata.Approval? && d.metadata.approval.approverCount >= 1
  {
    hide Authorised, RequestOk, CallOk;
    assert IntentOk(s.tables, i);
  }

  lemma StatementKeepsCallNames(s: State, p: Id, input: Input)
    requires Orderly(s) && NoOverlap(s) && p in s.calls && forall q :: q in s.calls ==> CallNames(s.tables, s.calls[q])
    ensures var u := Next(s, Continue(p, input));
            forall q :: q in u.calls ==> CallNames(u.tables, u.calls[q])
  {
    hide Invariant, SingleRequest, RequestsClosed, Effect, After, Names;
    var c, u := s.calls[p], Next(s, Continue(p, input));
    EffectOnRequests(s.tables, c, input);
    EffectAddsNoIntent(s.tables, c, input);
    forall q | q in u.calls
      ensures CallNames(u.tables, u.calls[q])
    {
      if q == p {
        AfterNames(s.tables, s.now, c, input);
      } else if s.calls[q].CreateInserted? {
        CreationElsewhere(s, p, q, input);
      }
    }
  }

  lemma AfterNames(t: Tables, now: int, c: Call, input: Input)
    requires CallNames(t, c) && After(t, now, c, input).Some?
    ensures CallNames(Effect(t, c, input), After(t, now, c, input).value)
  {
    hide EligibleApprovers, CountApprovals, Settled, StatusAfter;
  }

  lemma CreationElsewhere(s: State, p: Id, q: Id, input: Input)
    requires NoOverlap(s) && p in s.calls && q in s.calls && p != q && s.calls[q].CreateInserted?
    requires CallNames(s.tables, s.calls[q])
    ensures CallNames(Effect(s.tables, s.calls[p], input), s.calls[q])
  {
    hide Effect;
    var i := s.calls[q].intentId;
    assert Names(s.calls[q], i);
    assert !Names(s.calls[p], i);
    EffectStatus(s.tables, s.calls[p], input, i);
  }

  lemma StatementKeepsFits(s: State, p: Id, input: Input)
    requires Orderly(s) && Fits(s) && NoOverlap(s) && p in s.calls
    requires NoOverlap(Next(s, Continue(p, input)))
    ensures Fits(Next(s, Continue(p, input)))
  {
    hide Orderly, NoOverlap, Next, RequestFits, CallNames, Names;
    var u := Next(s, Continue(p, input));
    StatementKeepsCallNames(s, p, input);
    forall r | r in u.tables.requests
      ensures u.tables.requests[r].intentId in u.tables.intents && RequestFits(u, r)
    {
      if r in s.tables.requests {
        if Names(s.calls[p], s.tables.requests[r].intentId) {
          FitsAfterOwnStatement(s, p, input, r);
        } else {
          FitsAfterOtherStatement(s, p, input, r);
        }
      } else {
        NewRequestFits(s, p, input, r);
      }
    }
  }

  // ---- Cancellations, roster changes, the clock, and calls that start ----

  lemma CancelledStillFits(c: Call, q: Request, status: IntentStatus, approvals: nat, rejecters: set<Id>)
    requires Cancellable(status)
    ensures Between(c, q, status, approvals, rejecters) ==> Between(c, q, Cancelled, approvals, rejecters)
    ensures AtomicRuns.Consistent(q, status, approvals, rejecters)
            ==> AtomicRuns.Consistent(q, Cancelled, approvals, rejecters)
  {
  }

  lemma CancellationKeepsFits(s: State, m: Id)
    requires Fits(s)
    ensures Fits(Next(s, CancelByMember(m)))
  {
    hide Between, AtomicRuns.Consistent, CountApprovals, RejectersOf, Names;
    var u := Next(s, CancelByMember(m));
    forall r | r in u.tables.requests
      ensures u.tables.requests[r].intentId in u.tables.intents && RequestFits(u, r)
    {
      assert RequestFits(s, r);
      CancelledRequest(s, u, r);
    }
    forall p | p in u.calls
      ensures CallNames(u.tables, u.calls[p])
    {
      assert CallNames(s.tables, s.calls[p]);
    }
  }

  lemma CancelledRequest(s: State, u: State, r: Id)
    requires r in s.tables.requests && s.tables.requests[r].intentId in s.tables.intents && RequestFits(s, r)
    requires u.calls == s.calls && u.tables.requests == s.tables.requests && u.tables.decisions == s.tables.decisions
    requires s.tables.requests[r].intentId in u.tables.intents
    requires var before, after := s.tables.intents[s.tables.requests[r].intentId].status,
                                  u.tables.intents[s.tables.requests[r].intentId].status;
             after == before || (Cancellable(before) && after == Cancelled)
    ensures RequestFits(u, r)
  {
    hide Between, AtomicRuns.Consistent, CountApprovals, RejectersOf, Names, Cancellable;
    var i, q := s.tables.requests[r].intentId, s.tables.requests[r];
    var before := s.tables.intents[i].status;
    var n, rejecters := CountApprovals(s.tables.decisions, r), RejectersOf(s.tables.decisions, r);
    if Cancellable(before) {
      forall p | p in s.calls && Names(s.calls[p], i)
        ensures BetweenOn(u.tables, s.calls[p], r)
      {
        CancelledStillFits(s.calls[p], q, before, n, rejecters);
      }
      if Free(u, i) {
        assert Free(s, i);
        CancelledStillFits(CreateRequested(i), q, before, n, rejecters);
      }
    } else {
      assert u.tables.intents[i].status == before;
      if Free(u, i) {
        assert Free(s, i);
      }
    }
  }

  // What a call finds when it starts on an intent no other call works on.
  lemma StartedFits(t: Tables, now: int, a: Action, r: Id)
    requires !a.Continue? && !a.CancelByMember? && !a.ChangeRoster? && !a.Tick?
    requires OneRequest(t) && CanStart(t, now, a) && Started(t, now, a).Some?
    requires r in t.requests && t.requests[r].intentId in t.intents && AtomicRuns.RequestState(t, r)
    requires Names(Started(t, now, a).value, t.requests[r].intentId)
    ensures BetweenOn(t, Started(t, now, a).value, r)
  {
    hide CountApprovals, RejectersOf, EvaluateIntent, StaleRequests;
    if a.StartDecide? {
      assert a.requestId == r;
    }
  }

  lemma StartTablesKeep(s: State, a: Action, r: Id)
    requires CanStart(s.tables, s.now, a) && r in s.tables.requests && s.tables.requests[r].intentId in s.tables.intents
    ensures SameRequest(s.tables, StartTables(s.tables, a), r)
  {
    hide CountApprovals, RejectersOf, EvaluateIntent, StaleRequests;
  }

  lemma StartKeepsRequest(s: State, a: Action, r: Id)
    requires Orderly(s) && Fits(s) && NoOverlap(Next(s, a)) && r in s.tables.requests
    requires !a.Continue? && !a.CancelByMember? && !a.ChangeRoster? && !a.Tick?
    requires a.call !in s.calls && CanStart(s.tables, s.now, a)
    ensures var u := Next(s, a);
            r in u.tables.requests && u.tables.requests[r].intentId in u.tables.intents && RequestFits(u, r)
  {
    hide Orderly, Between, Names, AtomicRuns.RequestState, RequestFits, CallNames, CanStart, StartTables, Started,
        SameRequest;
    var u, i := Next(s, a), s.tables.requests[r].intentId;
    StartTablesKeep(s, a, r);
    if a.call in u.calls && Names(u.calls[a.call], i) {
      forall q | q in s.calls
        ensures !Names(s.calls[q], i)
      {
        assert q in u.calls && u.calls[q] == s.calls[q];
      }
      FreeMeansConsistent(s, r);
      OrderlyParts(s);
      StartedFits(s.tables, s.now, a, r);
      SameRequestSameFit(s.tables, u.tables, u.calls[a.call], r);
      FitsItsCall(u, a.call, r);
    } else {
      OthersUnchanged(s, u, r);
    }
  }

  lemma SameRequestSameFit(t: Tables, u: Tables, c: Call, r: Id)
    requires r in t.requests && t.requests[r].intentId in t.intents && SameRequest(t, u, r) && BetweenOn(t, c, r)
    ensures r in u.requests && u.requests[r] == t.requests[r] && u.requests[r].intentId in u.intents
            && BetweenOn(u, c, r)
  {
    hide CountApprovals, RejectersOf, Between;
  }

  lemma StartKeepsCallNames(s: State, a: Action)
    requires Fits(s) && !a.Continue? && !a.CancelByMember? && !a.ChangeRoster? && !a.Tick?
    requires a.call !in s.calls && CanStart(s.tables, s.now, a)
    ensures var u := Next(s, a);
            forall p :: p in u.calls ==> CallNames(u.tables, u.calls[p])
  {
    hide RequestFits, EvaluateIntent, StaleRequests, CountsPositive;
    forall p | p in s.calls
      ensures CallNames(StartTables(s.tables, a), s.calls[p])
    {
      assert CallNames(s.tables, s.calls[p]);
    }
  }

  lemma StartKeepsFits(s: State, a: Action)
    requires Orderly(s) && Fits(s) && NoOverlap(Next(s, a))
    requires !a.Continue? && !a.CancelByMember? && !a.ChangeRoster? && !a.Tick?
    requires a.call !in s.calls && CanStart(s.tables, s.now, a)
    ensures Fits(Next(s, a))
  {
    hide Orderly, NoOverlap, Next, RequestFits, CallNames, CanStart;
    var u := Next(s, a);
    StartKeepsCallNames(s, a);
    assert u.tables.requests == s.tables.requests by {
      OtherActions(s, a);
    }
    forall r | r in u.tables.requests
      ensures u.tables.requests[r].intentId in u.tables.intents && RequestFits(u, r)
    {
      StartKeepsRequest(s, a, r);
    }
  }

  lemma SurroundingsKeepFits(s: State, a: Action)
    requires Fits(s) && (a.ChangeRoster? || a.Tick?)
    ensures Fits(Next(s, a))
  {
    hide Between, AtomicRuns.Consistent, CountApprovals, RejectersOf, Names, Cancellable, Undecided;
    var u := Next(s, a);
    forall r | r in u.tables.requests
      ensures u.tables.requests[r].intentId in u.tables.intents && RequestFits(u, r)
    {
      assert RequestFits(s, r);
      CancelledRequest(s, u, r);
    }
  }

  lemma NextKeepsFits(s: State, a: Action)
    requires Orderly(s) && Fits(s) && NoOverlap(s) && NoOverlap(Next(s, a))
    ensures Fits(Next(s, a))
  {
    hide Orderly, Fits, NoOverlap, Effect, After, CanStart, StartTables, Started, CancelIntents;
    match a
    case Continue(p, input) =>
      if p in s.calls {
        StatementKeepsFits(s, p, input);
      }
    case CancelByMember(m) => CancellationKeepsFits(s, m);
    case ChangeRoster(_, _) => SurroundingsKeepFits(s, a);
    case Tick(_) => SurroundingsKeepFits(s, a);
    case _ =>
      if a.call !in s.calls && CanStart(s.tables, s.now, a) {
        StartKeepsFits(s, a);
      }
  }

  lemma NothingFits(start: int)
    ensures Fits(Initial(start))
  {
  }

  lemma NeverOverlappingBefore(start: int, actions: seq<Action>, a: Action)
    requires NeverOverlapping(start, actions + [a])
    ensures NeverOverlapping(start, actions)
    ensures NoOverlap(Exec(Initial(start), actions)) && NoOverlap(Exec(Initial(start), actions + [a]))
  {
    hide NoOverlap, Exec;
    var more := actions + [a];
    forall k | 0 <= k <= |actions|
      ensures NoOverlap(Exec(Initial(start), actions[..k]))
    {
      assert more[..k] == actions[..k];
    }
    assert actions[..|actions|] == actions && more[..|more|] == more;
  }

  lemma {:induction false} FitsHolds(start: int, actions: seq<Action>)
    requires NeverOverlapping(start, actions)
    ensures Fits(Exec(Initial(start), actions))
  {
    hide Next, Fits, NoOverlap, NeverOverlapping, Orderly;
    if actions == [] {
      NothingFits(start);
    } else {
      var before, a := actions[..|actions| - 1], actions[|actions| - 1];
      assert actions == before + [a];
      NeverOverlappingBefore(start, before, a);
      FitsHolds(start, before);
      RunsAreOrderly(start, before);
      NextKeepsFits(Exec(Initial(start), before), a);
    }
  }

  lemma RowOfRequest(s: State, r: Id)
    requires Invariant(s) && r in s.tables.requests
    ensures AtomicRuns.RequestRow(s.tables, r)
  {
    hide Authorised, CallOk;
    assert RequestOk(s.tables, s.now, r) && IntentOk(s.tables, s.tables.requests[r].intentId);
  }

  /**
   * In a run in which no two calls on the same intent are ever in flight together, every request that no call in
   * flight works on agrees with its decisions and its intent, whatever goes on elsewhere.
   */
  lemma QuietRequestsAreConsistent(start: int, actions: seq<Action>, r: Id)
    requires NeverOverlapping(start, actions)
    requires var s := Exec(Initial(start), actions);
             r in s.tables.requests && Free(s, s.tables.requests[r].intentId)
    ensures var t := Exec(Initial(start), actions).tables;
            AtomicRuns.RequestRow(t, r) && AtomicRuns.RequestState(t, r)
  {
    hide Exec, Invariant, AtomicRuns.RequestState, NeverOverlapping, Free;
    FitsHolds(start, actions);
    InvariantHolds(start, actions);
    RowOfRequest(Exec(Initial(start), actions), r);
    assert RequestFits(Exec(Initial(start), actions), r);
  }

  // ---- The rest of the joint invariant holds in every interleaving ----

  ghost predicate Requested(s: State, i: Id) {
    || AtomicRuns.HasRequest(s.tables, i)
    || exists p :: p in s.calls && s.calls[p].CreateInserted? && s.calls[p].intentId == i
  }

  ghost predicate IntentFits(s: State, i: Id)
    requires i in s.tables.intents
  {
    && AtomicRuns.StatusFits(s.tables.intents[i])
    && (s.tables.intents[i].decision.decision.NeedApproval? ==> Requested(s, i))
  }

  ghost predicate IntentsFit(s: State) {
    forall i :: i in s.tables.intents ==> IntentFits(s, i)
  }

  // The statuses that statements write to intents that are not denied.
  lemma WrittenStatusFits(s: State, p: Id, input: Input, i: Id)
    requires Invariant(s) && p in s.calls && i in s.tables.intents && AtomicRuns.StatusFits(s.tables.intents[i])
    ensures i in Effect(s.tables, s.calls[p], input).intents
    ensures AtomicRuns.StatusFits(Effect(s.tables, s.calls[p], input).intents[i])
  {
    hide TablesOk, Authorised, CountApprovals, SameTerms, QuorumOn;
    var c := s.calls[p];
    assert CallOk(s.tables, s.now, c);
    EffectStatus(s.tables, c, input, i);
    if (c.ProposeAnswered? || c.PollAnswered? || c.ExpireMarked?) && c.intentId == i {
      NotDenied(s.tables, s.now, i);
    } else if c.DecideClosed? && c.intentId == i {
      DecidedIsNotDenied(s, p);
    }
  }

  lemma DecidedIsNotDenied(s: State, p: Id)
    requires Invariant(s) && p in s.calls && s.calls[p].DecideClosed?
    ensures s.calls[p].intentId in s.tables.intents
    ensures s.tables.intents[s.calls[p].intentId].decision.decision.NeedApproval?
  {
    hide IntentOk, CountApprovals;
    assert CallOk(s.tables, s.now, s.calls[p]);
    assert RequestOk(s.tables, s.now, s.calls[p].requestId);
  }

  lemma EffectStatus(t: Tables, c: Call, input: Input, i: Id)
    requires i in t.intents
    ensures var u := Effect(t, c, input);
            && i in u.intents && u.intents[i].decision == t.intents[i].decision
            && (u.intents[i].status == t.intents[i].status
                || (c.CreateRequested? && c.intentId == i && u.intents[i].status.PendingApproval?)
                || ((c.DecideClosed? || c.ExpireMarked? || c.ProposeAnswered? || c.PollAnswered?) && c.intentId == i
                    && (u.intents[i].status.Cancelled? || PastApproval(u.intents[i].status))))
  {
    hide Settled, StatusAfter;
    WrittenStatuses();
    if c.PollAnswered? && c.intentId == i {
      SettledStatus(t.intents[i], c.chain, c.attempt);
      SettledKeepsSnapshot(t.intents[i], c.chain, c.attempt);
    }
  }

  lemma StatementKeepsRequested(s: State, p: Id, input: Input, i: Id)
    requires p in s.calls && Requested(s, i)
    ensures Requested(Next(s, Continue(p, input)), i)
  {
    hide Effect, After;
    var c, u := s.calls[p], Next(s, Continue(p, input));
    EffectOnRequests(s.tables, c, input);
    if AtomicRuns.HasRequest(s.tables, i) {
      var r :| r in s.tables.requests && s.tables.requests[r].intentId == i;
      assert r in u.tables.requests && u.tables.requests[r].intentId == i;
    } else {
      var q :| q in s.calls && s.calls[q].CreateInserted? && s.calls[q].intentId == i;
      if q == p {
        CreationGoesOn(s.tables, s.now, c, input);
        assert After(s.tables, s.now, c, input) == Some(c) ==> p in u.calls && u.calls[p] == c;
      } else {
        assert q in u.calls && u.calls[q] == s.calls[q];
      }
    }
  }

  // A creation waiting to insert its request stays there or has inserted it.
  lemma CreationGoesOn(t: Tables, now: int, c: Call, input: Input)
    requires c.CreateInserted?
    ensures After(t, now, c, input) == Some(c) || AtomicRuns.HasRequest(Effect(t, c, input), c.intentId)
  {
    if InsertsRequest(t, c, input) {
      assert input.requestId in Effect(t, c, input).requests;
    }
  }

  lemma StatementKeepsIntentsFit(s: State, p: Id, input: Input)
    requires Invariant(s) && IntentsFit(s) && p in s.calls
    ensures IntentsFit(Next(s, Continue(p, input)))
  {
    hide Invariant, Effect, After, Requested, AtomicRuns.StatusFits;
    var u := Next(s, Continue(p, input));
    EffectAddsNoIntent(s.tables, s.calls[p], input);
    forall i | i in u.tables.intents
      ensures IntentFits(u, i)
    {
      assert IntentFits(s, i);
      WrittenStatusFits(s, p, input, i);
      EffectStatus(s.tables, s.calls[p], input, i);
      if Requested(s, i) {
        StatementKeepsRequested(s, p, input, i);
      }
    }
  }

  lemma StartKeepsIntentsFit(s: State, a: Action)
    requires IntentsFit(s) && !a.Continue? && !a.CancelByMember? && !a.ChangeRoster? && !a.Tick?
    requires a.call !in s.calls && CanStart(s.tables, s.now, a)
    ensures IntentsFit(Next(s, a))
  {
    hide EvaluateIntent, StaleRequests, CountsPositive;
    var u := Next(s, a);
    forall i | i in u.tables.intents
      ensures IntentFits(u, i)
    {
      if i in s.tables.intents {
        assert IntentFits(s, i);
        MoreCallsKeepRequested(s, u, i);
      } else {
        assert a.StartCreate? && a.intentId == i;
        if EvaluateIntent(a.evaluation).decision.NeedApproval? {
          assert u.calls[a.call].CreateInserted? && u.calls[a.call].intentId == i;
        }
      }
    }
  }

  lemma MoreCallsKeepRequested(s: State, u: State, i: Id)
    requires u.tables.requests == s.tables.requests
    requires forall p :: p in s.calls ==> p in u.calls && u.calls[p] == s.calls[p]
    ensures Requested(s, i) ==> Requested(u, i)
  {
    if Requested(s, i) && !AtomicRuns.HasRequest(s.tables, i) {
      var p :| p in s.calls && s.calls[p].CreateInserted? && s.calls[p].intentId == i;
      assert p in u.calls && u.calls[p].CreateInserted? && u.calls[p].intentId == i;
    }
  }

  lemma OtherActionsKeepIntentsFit(s: State, a: Action)
    requires IntentsFit(s) && (a.CancelByMember? || a.ChangeRoster? || a.Tick?)
    ensures IntentsFit(Next(s, a))
  {
    hide Requested;
    var u := Next(s, a);
    forall i | i in u.tables.intents
      ensures IntentFits(u, i)
    {
      assert IntentFits(s, i);
      MoreCallsKeepRequested(s, u, i);
    }
  }

  lemma {:induction false} IntentsFitHolds(start: int, actions: seq<Action>)
    ensures IntentsFit(Exec(Initial(start), actions))
  {
    hide Next, Invariant, IntentFits, CanStart;
    if actions != [] {
      var before, a := actions[..|actions| - 1], actions[|actions| - 1];
      IntentsFitHolds(start, before);
      InvariantHolds(start, before);
      var s := Exec(Initial(start), before);
      if a.Continue? {
        if a.call in s.calls {
          StatementKeepsIntentsFit(s, a.call, a.input);
        } else {
          ImpossibleAction(s, a);
        }
      } else if a.CancelByMember? || a.ChangeRoster? || a.Tick? {
        OtherActionsKeepIntentsFit(s, a);
      } else if a.call !in s.calls && CanStart(s.tables, s.now, a) {
        StartKeepsIntentsFit(s, a);
      } else {
        ImpossibleAction(s, a);
      }
    }
  }

  lemma ImpossibleAction(s: State, a: Action)
    requires !a.CancelByMember? && !a.ChangeRoster? && !a.Tick?
    requires if a.Continue? then a.call !in s.calls else a.call in s.calls || !CanStart(s.tables, s.now, a)
    ensures Next(s, a) == s
  {
  }

  /**
   * If no two calls on the same intent are ever in flight together, the joint invariant of whole calls holds on
   * this machine whenever nothing is in flight.
   */
  lemma JointInvariantWithoutOverlap(start: int, actions: seq<Action>)
    requires NeverOverlapping(start, actions) && Exec(Initial(start), actions).calls == map[]
    ensures AtomicRuns.JointInvariant(Exec(Initial(start), actions).tables)
  {
    hide Exec, AtomicRuns.RequestState, AtomicRuns.RequestRow, AtomicRuns.StatusFits, AtomicRuns.HasRequest,
        NeverOverlapping;
    var s := Exec(Initial(start), actions);
    var t := s.tables;
    RunsAreOrderly(start, actions);
    assert OneRequest(t) && (forall k :: k in t.decisions ==> k.0 in t.requests) by {
      OrderlyParts(s);
      DecisionsOfState(s);
    }
    forall r | r in t.requests
      ensures AtomicRuns.RequestRow(t, r) && AtomicRuns.RequestState(t, r)
    {
      QuietRequestsAreConsistent(start, actions, r);
    }
    IntentsFitHolds(start, actions);
    forall i | i in t.intents
      ensures AtomicRuns.StatusFits(t.intents[i])
      ensures t.intents[i].decision.decision.NeedApproval? ==> AtomicRuns.HasRequest(t, i)
    {
      assert IntentFits(s, i);
    }
  }

  lemma DecisionsOfState(s: State)
    requires Invariant(s)
    ensures forall k :: k in s.tables.decisions ==> k.0 in s.tables.requests
  {
    hide CallOk, IntentOk, RequestOk;
  }
}
