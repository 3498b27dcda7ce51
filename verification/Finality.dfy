/**
 * When an executed or failed intent can still change. Interleaved, it can exactly if a call that has already
 * started on it stands at one of the listed places; calls that start later cannot touch it.
 */
module Finality {
  import opened Prelude
  import opened PolicyEngine
  import opened IntentStateMachine
  import opened PolicyEvaluation
  import opened Store
  import opened Steps
  import opened Interleaving
  import opened AuthorisationSafety
  import opened SoloCalls

  // ---- At most one request per intent ----

  ghost predicate OneRequest(t: Tables) {
    forall r, q :: r in t.requests && q in t.requests && t.requests[r].intentId == t.requests[q].intentId ==> r == q
  }

  ghost predicate NoRequestOf(t: Tables, i: Id) {
    forall r :: r in t.requests ==> t.requests[r].intentId != i
  }

  // A creation that is about to insert its request is the only one for its intent, and there is none yet.
  ghost predicate SingleRequest(s: State) {
    && OneRequest(s.tables)
    && (forall p :: p in s.calls && s.calls[p].CreateInserted? ==> NoRequestOf(s.tables, s.calls[p].intentId))
    && (forall p, q :: (p in s.calls && q in s.calls && s.calls[p].CreateInserted? && s.calls[q].CreateInserted?
                       && s.calls[p].intentId == s.calls[q].intentId) ==> p == q)
  }

  predicate InsertsRequest(t: Tables, c: Call, input: Input) {
    c.CreateInserted? && input.FreshRequest? && input.requestId !in t.requests && c.decision.metadata.Approval?
  }

  // What a statement does to the requests.
  lemma EffectOnRequests(t: Tables, c: Call, input: Input)
    ensures var u := Effect(t, c, input);
            && (forall r :: r in t.requests ==>
                  && r in u.requests && u.requests[r].intentId == t.requests[r].intentId
                  && (u.requests[r].status.Pending? ==> t.requests[r].status.Pending?))
            && (forall r :: r in u.requests && r !in t.requests ==>
                  InsertsRequest(t, c, input) && r == input.requestId && u.requests[r].intentId == c.intentId)
  {
    hide Settled, StatusAfter;
  }

  lemma AfterOnCreations(t: Tables, now: int, c: Call, input: Input)
    ensures var next := After(t, now, c, input);
            next.Some? && next.value.CreateInserted? ==> next.value == c && !InsertsRequest(t, c, input)
  {
    hide EligibleApprovers, CountApprovals;
  }

  lemma StatementKeepsSingleRequest(s: State, p: Id, input: Input)
    requires SingleRequest(s) && p in s.calls
    ensures SingleRequest(Next(s, Continue(p, input)))
  {
    hide Effect, After;
    EffectOnRequests(s.tables, s.calls[p], input);
    AfterOnCreations(s.tables, s.now, s.calls[p], input);
  }

  ghost predicate JustStarted(s: State, a: Action, p: Id, c: Call) {
    !a.Continue? && !a.CancelByMember? && !a.ChangeRoster? && !a.Tick? && a.call == p
    && CanStart(s.tables, s.now, a) && Started(s.tables, s.now, a) == Some(c)
  }

  // What an action does that is not a statement of a call in flight.
  lemma OtherActions(s: State, a: Action)
    requires !a.Continue? || a.call !in s.calls
    ensures var u := Next(s, a);
            && u.tables.requests == s.tables.requests
            && (forall p :: p in u.calls ==>
                  (p in s.calls && u.calls[p] == s.calls[p]) || JustStarted(s, a, p, u.calls[p]))
            && (forall i :: i in u.tables.intents && i in s.tables.intents && PastApproval(u.tables.intents[i].status)
                            ==> PastApproval(s.tables.intents[i].status))
  {
    hide EvaluateIntent, StaleRequests, CountsPositive, Started;
  }

  lemma RequestsHaveIntents(s: State)
    requires Invariant(s)
    ensures forall r :: r in s.tables.requests ==> s.tables.requests[r].intentId in s.tables.intents
    ensures forall p :: p in s.calls && s.calls[p].CreateInserted? ==> s.calls[p].intentId in s.tables.intents
  {
    hide IntentOk, AsDecided, Authorised, QuorumOn;
    forall r | r in s.tables.requests
      ensures s.tables.requests[r].intentId in s.tables.intents
    {
      assert RequestOk(s.tables, s.now, r);
    }
    forall p | p in s.calls && s.calls[p].CreateInserted?
      ensures s.calls[p].intentId in s.tables.intents
    {
      assert CallOk(s.tables, s.now, s.calls[p]);
    }
  }

  lemma OtherActionsKeepSingleRequest(s: State, a: Action)
    requires Invariant(s) && SingleRequest(s) && (!a.Continue? || a.call !in s.calls)
    ensures SingleRequest(Next(s, a))
  {
    hide EvaluateIntent, Invariant, Next;
    RequestsHaveIntents(s);
    OtherActions(s, a);
  }

  // ---- Past approval, no request is pending ----

  ghost predicate Closed(t: Tables, i: Id) {
    forall r :: r in t.requests && t.requests[r].intentId == i ==> !t.requests[r].status.Pending?
  }

  ghost predicate CallClosed(t: Tables, c: Call) {
    match c
    case DecideClosed(r, _, _) => r in t.requests && !t.requests[r].status.Pending?
    case ProposeRead(i) => Closed(t, i)
    case ProposeAnswered(i, _) => Closed(t, i)
    case PollRead(i, _) => Closed(t, i)
    case PollAnswered(i, _, _) => Closed(t, i)
    case _ => true
  }

  ghost predicate RequestsClosed(s: State) {
    && (forall i :: i in s.tables.intents && PastApproval(s.tables.intents[i].status) ==> Closed(s.tables, i))
    && (forall p :: p in s.calls ==> CallClosed(s.tables, s.calls[p]))
  }

  lemma AuthorisedIsNotBeingCreated(s: State, p: Id)
    requires Invariant(s) && SingleRequest(s) && p in s.calls && s.calls[p].CreateInserted?
    ensures !Authorised(s.tables, s.calls[p].intentId)
  {
    hide TablesOk;
    assert CallOk(s.tables, s.now, s.calls[p]);
  }

  lemma ClosedStays(s: State, a: Action, i: Id)
    requires Invariant(s) && SingleRequest(s) && Closed(s.tables, i) && Authorised(s.tables, i)
    ensures Closed(Next(s, a).tables, i)
  {
    hide Invariant, Authorised, Effect, After, EvaluateIntent, CanStart;
    if a.Continue? && a.call in s.calls {
      EffectOnRequests(s.tables, s.calls[a.call], a.input);
      if s.calls[a.call].CreateInserted? {
        AuthorisedIsNotBeingCreated(s, a.call);
      }
    }
  }

  // Which statements take an intent past approval.
  lemma StatementPastApproval(t: Tables, c: Call, input: Input, i: Id)
    requires i in t.intents && i in Effect(t, c, input).intents
    requires PastApproval(Effect(t, c, input).intents[i].status) && !PastApproval(t.intents[i].status)
    ensures (c.DecideClosed? && c.closedAs.Fulfilled?) || c.ProposeAnswered? || c.PollAnswered?
    ensures c.intentId == i
  {
    hide Settled;
    assert StatusAfter(PendingApproval, ApprovalRejected) == Cancelled;
    assert StatusAfter(PendingApproval, ApprovalExpired) == Cancelled;
  }

  lemma ClosedByItsRequest(t: Tables, r: Id, i: Id)
    requires OneRequest(t) && r in t.requests && t.requests[r].intentId == i && !t.requests[r].status.Pending?
    ensures Closed(t, i)
  {
  }

  // An intent that a statement takes past approval is authorised and has no pending request.
  lemma ClosedWhenPassing(s: State, p: Id, input: Input, i: Id)
    requires Invariant(s) && SingleRequest(s) && RequestsClosed(s) && p in s.calls && i in s.tables.intents
    requires i in Next(s, Continue(p, input)).tables.intents
    requires PastApproval(Next(s, Continue(p, input)).tables.intents[i].status)
    ensures Closed(s.tables, i) && Authorised(s.tables, i)
  {
    hide Effect, After, TablesOk, Authorised, Closed;
    var c := s.calls[p];
    assert CallClosed(s.tables, c) && CallOk(s.tables, s.now, c);
    if PastApproval(s.tables.intents[i].status) {
      PastApprovalIsAuthorised(s.tables, s.now, i);
    } else {
      StatementPastApproval(s.tables, c, input, i);
      if c.DecideClosed? {
        QuorumAuthorises(s.tables, s.now, c.requestId, i);
        ClosedByItsRequest(s.tables, c.requestId, i);
      }
    }
  }

  // What a statement leaves behind is closed, given that its intent stays so.
  lemma NextCallIsClosed(t: Tables, now: int, c: Call, input: Input)
    requires CallOk(t, now, c) && CallClosed(t, c) && After(t, now, c, input).Some?
    requires c.ProposeRead? || c.PollRead? ==> Closed(Effect(t, c, input), c.intentId)
    ensures CallClosed(Effect(t, c, input), After(t, now, c, input).value)
  {
    hide EligibleApprovers, CountApprovals, Closed, Settled, SameTerms, Authorised, StatusAfter;
  }

  lemma AfterIsClosed(s: State, p: Id, input: Input)
    requires Invariant(s) && SingleRequest(s) && RequestsClosed(s) && p in s.calls
    requires p in Next(s, Continue(p, input)).calls
    ensures CallClosed(Next(s, Continue(p, input)).tables, Next(s, Continue(p, input)).calls[p])
  {
    hide Closed, TablesOk, CallClosed, CallOk, Authorised, Effect, After;
    var c := s.calls[p];
    assert CallClosed(s.tables, c) && CallOk(s.tables, s.now, c);
    if c.ProposeRead? || c.PollRead? {
      AskingIsClosed(s, p);
      ClosedStays(s, Continue(p, input), c.intentId);
    }
    NextCallIsClosed(s.tables, s.now, c, input);
  }

  lemma AskingIsClosed(s: State, p: Id)
    requires Invariant(s) && RequestsClosed(s) && p in s.calls && (s.calls[p].ProposeRead? || s.calls[p].PollRead?)
    ensures Closed(s.tables, s.calls[p].intentId) && Authorised(s.tables, s.calls[p].intentId)
  {
    hide Closed, TablesOk, Authorised;
    assert CallClosed(s.tables, s.calls[p]) && CallOk(s.tables, s.now, s.calls[p]);
  }

  lemma OtherCallStaysClosed(s: State, a: Action, p: Id)
    requires Invariant(s) && SingleRequest(s) && RequestsClosed(s) && p in s.calls
    requires var u := Next(s, a);
             forall r :: r in s.tables.requests ==>
               r in u.tables.requests && (u.tables.requests[r].status.Pending? ==> s.tables.requests[r].status.Pending?)
    ensures CallClosed(Next(s, a).tables, s.calls[p])
  {
    hide Next, TablesOk, Authorised, Closed, QuorumOn;
    var c := s.calls[p];
    assert CallClosed(s.tables, c) && CallOk(s.tables, s.now, c);
    if c.ProposeRead? || c.ProposeAnswered? || c.PollRead? || c.PollAnswered? {
      ClosedStays(s, a, c.intentId);
    }
  }

  lemma StatementKeepsClosed(s: State, p: Id, input: Input)
    requires Invariant(s) && SingleRequest(s) && RequestsClosed(s) && p in s.calls
    ensures RequestsClosed(Next(s, Continue(p, input)))
  {
    hide Effect, After, Invariant, SingleRequest, CallClosed, Closed, Authorised;
    var a, u := Continue(p, input), Next(s, Continue(p, input));
    EffectAddsNoIntent(s.tables, s.calls[p], input);
    EffectOnRequests(s.tables, s.calls[p], input);
    forall i | i in u.tables.intents && PastApproval(u.tables.intents[i].status)
      ensures Closed(u.tables, i)
    {
      ClosedWhenPassing(s, p, input, i);
      ClosedStays(s, a, i);
    }
    forall q | q in u.calls
      ensures CallClosed(u.tables, u.calls[q])
    {
      if q == p {
        AfterIsClosed(s, p, input);
      } else {
        OtherCallStaysClosed(s, a, q);
      }
    }
  }

  lemma OtherActionsKeepClosed(s: State, a: Action)
    requires Invariant(s) && RequestsClosed(s) && (!a.Continue? || a.call !in s.calls)
    ensures RequestsClosed(Next(s, a))
  {
    hide EvaluateIntent, Invariant, Next;
    RequestsHaveIntents(s);
    OtherActions(s, a);
  }

  // ---- The invariant of every run ----

  ghost predicate Orderly(s: State) {
    Invariant(s) && SingleRequest(s) && RequestsClosed(s)
  }

  lemma NextIsOrderly(s: State, a: Action)
    requires Orderly(s)
    ensures Orderly(Next(s, a))
  {
    hide Next, Invariant, SingleRequest, RequestsClosed;
    NextKeepsInvariant(s, a);
    if a.Continue? && a.call in s.calls {
      StatementKeepsSingleRequest(s, a.call, a.input);
      StatementKeepsClosed(s, a.call, a.input);
    } else {
      OtherActionsKeepSingleRequest(s, a);
      OtherActionsKeepClosed(s, a);
    }
  }

  /**
   * In every interleaving an intent has at most one approval request, and none that is pending once the intent
   * is past approval.
   */
  lemma {:induction false} RunsAreOrderly(start: int, actions: seq<Action>)
    ensures Orderly(Exec(Initial(start), actions))
  {
    hide Next, Invariant;
    InitialIsOk(start);
    if actions != [] {
      RunsAreOrderly(start, actions[..|actions| - 1]);
      NextIsOrderly(Exec(Initial(start), actions[..|actions| - 1]), actions[|actions| - 1]);
    }
  }

  // ---- Live calls ----

  predicate Final(status: IntentStatus) {
    status.Executed? || status.Failed?
  }

  // The status an answered poll writes, if it writes one.
  function PollWrites(answer: ChainAnswer, attempt: nat): Option<IntentStatus> {
    match answer
    case ChainExecuted(_) => Some(Executed)
    case ChainFailed(_) => Some(Failed)
    case ChainPending => if attempt >= MAX_ATTEMPTS then Some(Failed) else None
    case ChainError(retryable, _) => if !retryable || attempt >= MAX_ATTEMPTS then Some(Failed) else None
  }

  /**
   * The places from which a call may still write another status than the given final one for intent i. A decision
   * call counts until its member has decided; a proposal or poll counts while its answer is open, then if the
   * answer says something else.
   */
  predicate Live(decisions: Decisions, c: Call, i: Id, status: IntentStatus) {
    match c
    case DecideRead(r, m, _, seen, _) => seen.intentId == i && (r, m) !in decisions
    case DecideEligible(r, m, _, seen) => seen.intentId == i && (r, m) !in decisions
    case DecideFresh(r, m, _, seen) => seen.intentId == i && (r, m) !in decisions
    case DecideInserted(_, _, _, seen) => seen.intentId == i
    case DecideQuorum(_, j) => j == i
    case DecideClosed(_, j, _) => j == i
    case ExpireRead(_, j, _) => j == i
    case ExpireMarked(j, _) => j == i
    case ProposeRead(j) => j == i
    case ProposeAnswered(j, answer) => j == i && (answer.SafeAccepted? || (answer.SafeRejected? && status.Executed?))
    case PollRead(j, _) => j == i
    case PollAnswered(j, answer, attempt) =>
      j == i && PollWrites(answer, attempt).Some? && PollWrites(answer, attempt).value != status
    case CreateRequested(j) => j == i
    case CreateInserted(_, _, _) => false
    case SweepList(_) => false
  }

  ghost predicate SomeLive(s: State, i: Id)
    requires i in s.tables.intents
  {
    exists p: Id :: p in s.calls && Live(s.tables.decisions, s.calls[p], i, s.tables.intents[i].status)
  }

  lemma PollWritesIsSettled(intent: Intent, answer: ChainAnswer, attempt: nat)
    ensures var settled := Settled(intent, answer, attempt);
            settled.Some? == PollWrites(answer, attempt).Some?
            && (settled.Some? ==> settled.value.status == PollWrites(answer, attempt).value)
  {
    assert StatusAfter(Submitted, OnchainSuccess) == Executed;
    assert StatusAfter(Submitted, OnchainFailed) == Failed;
  }

  // ---- Without a live call nothing changes ----

  lemma DeadWrite(t: Tables, c: Call, input: Input, i: Id)
    requires i in t.intents && Final(t.intents[i].status) && !Live(t.decisions, c, i, t.intents[i].status)
    ensures i in Effect(t, c, input).intents && Effect(t, c, input).intents[i].status == t.intents[i].status
  {
    hide Settled, StatusAfter;
    if c.PollAnswered? && c.intentId == i {
      PollWritesIsSettled(t.intents[i], c.chain, c.attempt);
    }
  }

  lemma DeadStaysDead(t: Tables, now: int, c: Call, input: Input, i: Id, status: IntentStatus)
    requires !Live(t.decisions, c, i, status)
    requires Closed(t, i) && (c.CreateInserted? ==> c.intentId != i)
    requires After(t, now, c, input).Some?
    ensures !Live(Effect(t, c, input).decisions, After(t, now, c, input).value, i, status)
  {
    hide EligibleApprovers, CountApprovals, Settled, StatusAfter;
  }

  lemma EffectKeepsDecisions(t: Tables, c: Call, input: Input)
    ensures DecisionsGrow(t.decisions, Effect(t, c, input).decisions)
  {
    hide Settled, StatusAfter;
  }

  lemma DeadStatement(s: State, p: Id, input: Input, i: Id)
    requires Orderly(s) && p in s.calls && i in s.tables.intents && Final(s.tables.intents[i].status)
    requires !SomeLive(s, i)
    ensures var u := Next(s, Continue(p, input));
            && i in u.tables.intents && u.tables.intents[i].status == s.tables.intents[i].status
            && !SomeLive(u, i)
  {
    hide Effect, After, Live, Invariant, SingleRequest, Closed, Authorised;
    var c, u, status := s.calls[p], Next(s, Continue(p, input)), s.tables.intents[i].status;
    assert !Live(s.tables.decisions, c, i, status);
    DeadWrite(s.tables, c, input, i);
    NotBeingCreated(s, p, i);
    EffectKeepsDecisions(s.tables, c, input);
    forall q | q in u.calls
      ensures !Live(u.tables.decisions, u.calls[q], i, status)
    {
      if q == p {
        DeadStaysDead(s.tables, s.now, c, input, i, status);
      } else {
        assert !Live(s.tables.decisions, s.calls[q], i, status);
        MoreDecisionsStayDead(s.tables.decisions, u.tables.decisions, s.calls[q], i, status);
      }
    }
  }

  lemma NotBeingCreated(s: State, p: Id, i: Id)
    requires Orderly(s) && p in s.calls && i in s.tables.intents && PastApproval(s.tables.intents[i].status)
    ensures s.calls[p].CreateInserted? ==> s.calls[p].intentId != i
  {
    hide Authorised, TablesOk;
    PastApprovalIsAuthorised(s.tables, s.now, i);
    if s.calls[p].CreateInserted? {
      AuthorisedIsNotBeingCreated(s, p);
    }
  }

  lemma MoreDecisionsStayDead(before: Decisions, after: Decisions, c: Call, i: Id, status: IntentStatus)
    requires DecisionsGrow(before, after) && !Live(before, c, i, status)
    ensures !Live(after, c, i, status)
  {
  }

  // Calls that start now do not find the intent: it has no pending request and is neither ready nor submitted.
  lemma DeadOtherAction(s: State, a: Action, i: Id)
    requires Orderly(s) && i in s.tables.intents && Final(s.tables.intents[i].status) && !SomeLive(s, i)
    requires !a.Continue? || a.call !in s.calls
    ensures var u := Next(s, a);
            && i in u.tables.intents && u.tables.intents[i].status == s.tables.intents[i].status
            && !SomeLive(u, i)
  {
    hide EvaluateIntent, Invariant, SingleRequest;
    assert Closed(s.tables, i);
  }

  lemma DeadAction(s: State, a: Action, i: Id)
    requires Orderly(s) && i in s.tables.intents && Final(s.tables.intents[i].status) && !SomeLive(s, i)
    ensures var u := Next(s, a);
            && i in u.tables.intents && u.tables.intents[i].status == s.tables.intents[i].status
            && !SomeLive(u, i)
  {
    hide Next, Orderly, SomeLive;
    if a.Continue? && a.call in s.calls {
      DeadStatement(s, a.call, a.input, i);
    } else {
      DeadOtherAction(s, a, i);
    }
  }

  lemma {:induction false} DeadRun(s: State, more: seq<Action>, i: Id)
    requires Orderly(s) && i in s.tables.intents && Final(s.tables.intents[i].status) && !SomeLive(s, i)
    ensures var u := Exec(s, more);
            && Orderly(u) && i in u.tables.intents && u.tables.intents[i].status == s.tables.intents[i].status
            && !SomeLive(u, i)
  {
    hide Next, Orderly, SomeLive;
    if more != [] {
      var front := more[..|more| - 1];
      DeadRun(s, front, i);
      NextIsOrderly(Exec(s, front), more[|more| - 1]);
      DeadAction(Exec(s, front), more[|more| - 1], i);
    }
  }

  // ---- A live call can change the status ----

  // How many statements a live call is away from its write.
  function Ahead(c: Call): nat {
    match c
    case DecideRead(_, _, _, _, _) => 6
    case DecideEligible(_, _, _, _) => 5
    case DecideFresh(_, _, _, _) => 4
    case DecideInserted(_, _, _, _) => 3
    case DecideQuorum(_, _) => 2
    case ExpireRead(_, _, _) => 2
    case ProposeRead(_) => 2
    case PollRead(_, _) => 2
    case _ => 1
  }

  // An answer that contradicts the status.
  function Contradiction(c: Call, status: IntentStatus): Input {
    if c.ProposeRead? then Safe(true, SafeAccepted(""))
    else if c.PollRead? then Chain(if status.Executed? then ChainFailed("") else ChainExecuted(""))
    else NoInput
  }

  // A roster in which the member may decide, whatever roles the request names.
  function Roster(m: Id, org: Id, roleIds: seq<Id>, now: int): Action {
    ChangeRoster(map[m := Member(org, true)],
                 if roleIds == [] then map[] else map[0 := Assignment(m, roleIds[0], None, now, None, Active)])
  }

  lemma RosterMakesEligible(s: State, m: Id, org: Id, roleIds: seq<Id>)
    ensures m in EligibleApprovers(Next(s, Roster(m, org, roleIds, s.now)).tables, s.now, org, roleIds)
  {
    var t := Next(s, Roster(m, org, roleIds, s.now)).tables;
    if roleIds != [] {
      assert 0 in t.assignments && t.assignments[0].roleId in roleIds;
    }
  }

  lemma RosterKeeps(s: State, m: Id, org: Id, roleIds: seq<Id>)
    ensures var u := Next(s, Roster(m, org, roleIds, s.now));
            && u.calls == s.calls && u.now == s.now && u.tables.intents == s.tables.intents
            && u.tables.decisions == s.tables.decisions && u.tables.requests == s.tables.requests
  {
  }

  // The quorum that took the intent past approval is met for every later count.
  lemma CountFindsQuorum(s: State, p: Id, i: Id)
    requires Orderly(s) && p in s.calls && s.calls[p].DecideInserted? && s.calls[p].seen.intentId == i
    requires i in s.tables.intents && PastApproval(s.tables.intents[i].status)
    ensures IsQuorumMet(CountApprovals(s.tables.decisions, s.calls[p].requestId), s.calls[p].seen.requiredCount)
  {
    hide TablesOk, CountApprovals, IntentOk;
    PastApprovalIsAuthorised(s.tables, s.now, i);
    var c := s.calls[p];
    assert CallOk(s.tables, s.now, c);
    assert RequestOk(s.tables, s.now, c.requestId) by {
      RequestsOk(s.tables, s.now, c.requestId);
    }
    if !s.tables.intents[i].decision.decision.Allow? {
      var r: Id :| QuorumOn(s.tables, r, i);
      assert r == c.requestId;
    }
  }

  lemma RequestsOk(t: Tables, now: int, r: Id)
    requires TablesOk(t, now) && r in t.requests
    ensures RequestOk(t, now, r)
  {
  }

  // The last statement of a live call writes another status.
  lemma LiveWrites(t: Tables, c: Call, i: Id, input: Input)
    requires i in t.intents && Final(t.intents[i].status)
    requires Live(t.decisions, c, i, t.intents[i].status) && Ahead(c) == 1
    ensures i in Effect(t, c, input).intents && Effect(t, c, input).intents[i].status != t.intents[i].status
  {
    hide Settled, StatusAfter;
    WrittenStatuses();
    if c.PollAnswered? {
      PollWritesIsSettled(t.intents[i], c.chain, c.attempt);
    }
  }

  lemma WrittenStatuses()
    ensures StatusAfter(PendingApproval, ApprovalCompleted) == ReadyToSign
    ensures StatusAfter(PendingApproval, ApprovalRejected) == Cancelled
    ensures StatusAfter(PendingApproval, ApprovalExpired) == Cancelled
    ensures StatusAfter(ReadyToSign, Proposed) == Submitted
  {
  }

  // Every earlier statement leaves the call live and one statement closer.
  lemma LiveAdvances(t: Tables, now: int, c: Call, i: Id, status: IntentStatus)
    requires Final(status) && Live(t.decisions, c, i, status) && Ahead(c) > 1
    requires c.DecideRead? ==> c.memberId in EligibleApprovers(t, now, c.orgId, c.seen.approverRoleIds)
    requires c.DecideInserted? ==> IsQuorumMet(CountApprovals(t.decisions, c.requestId), c.seen.requiredCount)
    ensures var input := Contradiction(c, status);
            var next := After(t, now, c, input);
            && next.Some? && Live(Effect(t, c, input).decisions, next.value, i, status)
            && Ahead(next.value) < Ahead(c) && !next.value.DecideRead?
  {
    hide EligibleApprovers, CountApprovals, Settled, StatusAfter, IsQuorumMet;
  }

  // One statement of a live call either writes another status or leaves the call live and one statement closer.
  lemma LiveStatement(s: State, p: Id, i: Id)
    requires Orderly(s) && p in s.calls && i in s.tables.intents && Final(s.tables.intents[i].status)
    requires var c := s.calls[p];
             && Live(s.tables.decisions, c, i, s.tables.intents[i].status)
             && (c.DecideRead? ==> c.memberId in EligibleApprovers(s.tables, s.now, c.orgId, c.seen.approverRoleIds))
    ensures var u := Next(s, Continue(p, Contradiction(s.calls[p], s.tables.intents[i].status)));
            && i in u.tables.intents
            && (u.tables.intents[i].status != s.tables.intents[i].status
                || (p in u.calls && Live(u.tables.decisions, u.calls[p], i, s.tables.intents[i].status)
                    && Ahead(u.calls[p]) < Ahead(s.calls[p]) && !u.calls[p].DecideRead?))
  {
    hide EligibleApprovers, CountApprovals, IsQuorumMet, Orderly, Effect, After, Contradiction;
    var c, status := s.calls[p], s.tables.intents[i].status;
    var input := Contradiction(c, status);
    if Ahead(c) == 1 {
      LiveWrites(s.tables, c, i, input);
    } else {
      if c.DecideInserted? {
        CountFindsQuorum(s, p, i);
      }
      LiveAdvances(s.tables, s.now, c, i, status);
      EffectAddsNoIntent(s.tables, c, input);
    }
  }

  lemma {:induction false} LiveCallChanges(s: State, p: Id, i: Id) returns (more: seq<Action>)
    requires Orderly(s) && p in s.calls && i in s.tables.intents && Final(s.tables.intents[i].status)
    requires var c := s.calls[p];
             && Live(s.tables.decisions, c, i, s.tables.intents[i].status)
             && (c.DecideRead? ==> c.memberId in EligibleApprovers(s.tables, s.now, c.orgId, c.seen.approverRoleIds))
    ensures i in Exec(s, more).tables.intents && Exec(s, more).tables.intents[i].status != s.tables.intents[i].status
    decreases Ahead(s.calls[p])
  {
    hide Next, Orderly, Live, EligibleApprovers, Exec;
    var a := Continue(p, Contradiction(s.calls[p], s.tables.intents[i].status));
    LiveStatement(s, p, i);
    var u := Next(s, a);
    ExecFromFront(s, a, []);
    assert [a] + [] == [a];
    ExecNothing(u);
    if u.tables.intents[i].status != s.tables.intents[i].status {
      more := [a];
    } else {
      NextIsOrderly(s, a);
      var rest := LiveCallChanges(u, p, i);
      more := [a] + rest;
      ExecFromFront(s, a, rest);
    }
  }

  lemma ExecNothing(s: State)
    ensures Exec(s, []) == s
  {
  }

  // A decision call that has not checked yet may find its member eligible after all.
  lemma LiveCallCanChange(s: State, p: Id, i: Id) returns (more: seq<Action>)
    requires Orderly(s) && p in s.calls && i in s.tables.intents && Final(s.tables.intents[i].status)
    requires Live(s.tables.decisions, s.calls[p], i, s.tables.intents[i].status)
    ensures i in Exec(s, more).tables.intents && Exec(s, more).tables.intents[i].status != s.tables.intents[i].status
  {
    hide Next, Orderly, Live, EligibleApprovers, Exec;
    var c := s.calls[p];
    if c.DecideRead? {
      var a := Roster(c.memberId, c.orgId, c.seen.approverRoleIds, s.now);
      RosterMakesEligible(s, c.memberId, c.orgId, c.seen.approverRoleIds);
      RosterKeeps(s, c.memberId, c.orgId, c.seen.approverRoleIds);
      NextIsOrderly(s, a);
      var rest := LiveCallChanges(Next(s, a), p, i);
      more := [a] + rest;
      ExecFromFront(s, a, rest);
    } else {
      more := LiveCallChanges(s, p, i);
    }
  }

  ghost predicate Leaves(s: State, more: seq<Action>, i: Id)
    requires i in s.tables.intents
  {
    i in Exec(s, more).tables.intents && Exec(s, more).tables.intents[i].status != s.tables.intents[i].status
  }

  /**
   * In every interleaving, an executed or failed intent can leave its status, by some continuation, exactly if a
   * call in flight stands at a live place on it. Otherwise every continuation keeps it.
   */
  lemma FinalIsLeftIffLiveCall(start: int, actions: seq<Action>, i: Id)
    requires var t := Exec(Initial(start), actions).tables;
             i in t.intents && Final(t.intents[i].status)
    ensures var s := Exec(Initial(start), actions);
            (exists more: seq<Action> :: Leaves(s, more, i)) <==> SomeLive(s, i)
  {
    hide Exec, Orderly, Live;
    var s := Exec(Initial(start), actions);
    RunsAreOrderly(start, actions);
    if SomeLive(s, i) {
      var p: Id :| p in s.calls && Live(s.tables.decisions, s.calls[p], i, s.tables.intents[i].status);
      var more := LiveCallCanChange(s, p, i);
      assert Leaves(s, more, i);
    } else {
      forall more: seq<Action>
        ensures !Leaves(s, more, i)
      {
        DeadRun(s, more, i);
      }
    }
  }

  /** A denied intent is never left, whatever is in flight. */
  lemma DeniedIsNeverLeft(start: int, actions: seq<Action>, more: seq<Action>, i: Id)
    requires var t := Exec(Initial(start), actions).tables;
             i in t.intents && t.intents[i].status.Denied?
    ensures var t := Exec(Initial(start), actions + more).tables;
            i in t.intents && t.intents[i].status.Denied?
  {
    hide Exec, Authorised, TablesOk;
    InvariantHolds(start, actions);
    InvariantHolds(start, actions + more);
    RunsExtend(start, actions, more);
    DeniedByDecision(Exec(Initial(start), actions), i);
    DeniedByDecision(Exec(Initial(start), actions + more), i);
  }

  lemma DeniedByDecision(s: State, i: Id)
    requires Invariant(s) && i in s.tables.intents
    ensures s.tables.intents[i].decision.decision.Deny? <==> s.tables.intents[i].status.Denied?
  {
    hide Authorised, RequestOk;
    assert IntentOk(s.tables, i);
  }
}
