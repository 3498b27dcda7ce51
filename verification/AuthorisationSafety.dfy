/** What every interleaving keeps: no intent gets past approval without authorisation. */
module AuthorisationSafety {
  import opened Prelude
  import opened PolicyEngine
  import opened IntentStateMachine
  import opened PolicyEvaluation
  import opened Store
  import opened Steps
  import opened Interleaving

  // ---- Authorisation and its stability ----

  ghost predicate QuorumOn(t: Tables, r: Id, i: Id) {
    r in t.requests && t.requests[r].intentId == i && CountApprovals(t.decisions, r) >= t.requests[r].requiredCount
  }

  ghost predicate Authorised(t: Tables, i: Id) {
    i in t.intents && (t.intents[i].decision.decision.Allow? || exists r: Id :: QuorumOn(t, r, i))
  }

  predicate SameTerms(a: Request, b: Request) {
    a == b.(status := a.status)
  }

  predicate SameSnapshot(a: Intent, b: Intent) {
    a.decision == b.decision && a.orgId == b.orgId && a.memberId == b.memberId
  }

  // Rows are only added; of a request only the status changes, of an intent never the snapshot.
  ghost predicate Extends(t: Tables, u: Tables) {
    && (forall i :: i in t.intents ==> i in u.intents && SameSnapshot(t.intents[i], u.intents[i]))
    && (forall r :: r in t.requests ==> r in u.requests && SameTerms(t.requests[r], u.requests[r]))
    && DecisionsGrow(t.decisions, u.decisions)
  }

  lemma AuthorisedStays(t: Tables, u: Tables, i: Id)
    requires Authorised(t, i) && Extends(t, u)
    ensures Authorised(u, i)
  {
    if !t.intents[i].decision.decision.Allow? {
      var r: Id :| QuorumOn(t, r, i);
      MoreDecisionsMoreApprovals(t.decisions, u.decisions, r);
      assert SameTerms(t.requests[r], u.requests[r]);
      assert QuorumOn(u, r, i);
    }
  }

  // ---- The invariant ----

  // The stored decision came from the engine: an approval requirement covers every approval rule evaluated.
  ghost predicate CoversRules(d: PolicyDecision) {
    d.decision.NeedApproval? ==>
      && d.metadata.Approval? && d.metadata.approval.approverCount >= 1
      && forall rule :: rule in d.matchedRules && rule.RequireApproval?
                        ==> rule.approverCount <= d.metadata.approval.approverCount
  }

  // A request asks for what the snapshot of its intent requires.
  predicate AsDecided(q: Request, d: PolicyDecision) {
    && d.decision.NeedApproval? && d.metadata.Approval?
    && q.requiredCount == d.metadata.approval.approverCount
    && q.approverRoleIds == (if d.metadata.approval.approverRoleIds.Some?
                             then d.metadata.approval.approverRoleIds.value else [])
  }

  ghost predicate RequestOk(t: Tables, now: int, r: Id)
    requires r in t.requests
  {
    var q := t.requests[r];
    && q.intentId in t.intents
    && AsDecided(q, t.intents[q.intentId].decision)
    && (q.status.Expired? ==> q.expiresAt < now)
  }

  predicate PastApproval(status: IntentStatus) {
    status.ReadyToSign? || status.Submitted? || status.Executed? || status.Failed?
  }

  ghost predicate IntentOk(t: Tables, i: Id)
    requires i in t.intents
  {
    && CoversRules(t.intents[i].decision)
    && (t.intents[i].decision.decision.Deny? <==> t.intents[i].status.Denied?)
    && (PastApproval(t.intents[i].status) ==> Authorised(t, i))
  }

  ghost predicate TablesOk(t: Tables, now: int) {
    && (forall r :: r in t.requests ==> RequestOk(t, now, r))
    && (forall k :: k in t.decisions ==> k.0 in t.requests)
    && (forall i :: i in t.intents ==> IntentOk(t, i))
  }

  ghost predicate Overdue(t: Tables, now: int, r: Id) {
    r in t.requests && t.requests[r].expiresAt < now
  }

  ghost predicate NeedsApproval(t: Tables, i: Id) {
    i in t.intents && t.intents[i].decision.decision.NeedApproval?
  }

  // What a call in flight may rely on.
  ghost predicate CallOk(t: Tables, now: int, c: Call) {
    match c
    case DecideRead(r, m, vote, seen, org) =>
      r in t.requests && SameTerms(seen, t.requests[r])
      && seen.intentId in t.intents && t.intents[seen.intentId].orgId == org
    case DecideEligible(r, m, vote, seen) => r in t.requests && SameTerms(seen, t.requests[r])
    case DecideFresh(r, m, vote, seen) => r in t.requests && SameTerms(seen, t.requests[r])
    case DecideInserted(r, m, vote, seen) =>
      r in t.requests && SameTerms(seen, t.requests[r]) && (r, m) in t.decisions && t.decisions[(r, m)] == vote
    case DecideQuorum(r, i) => QuorumOn(t, r, i)
    case DecideClosed(r, i, closedAs) =>
      if closedAs.Fulfilled? then QuorumOn(t, r, i) else r in t.requests && t.requests[r].intentId == i
    case SweepList(stale) => forall r :: r in stale ==> Overdue(t, now, r)
    case ExpireRead(r, i, rest) =>
      Overdue(t, now, r) && NeedsApproval(t, i) && (forall q :: q in rest ==> Overdue(t, now, q))
    case ExpireMarked(i, rest) => NeedsApproval(t, i) && forall q :: q in rest ==> Overdue(t, now, q)
    case ProposeRead(i) => Authorised(t, i)
    case ProposeAnswered(i, _) => Authorised(t, i)
    case PollRead(i, _) => Authorised(t, i)
    case PollAnswered(i, _, _) => Authorised(t, i)
    case CreateInserted(i, d, _) => i in t.intents && t.intents[i].decision == d && d.decision.NeedApproval?
    case CreateRequested(i) => NeedsApproval(t, i)
  }

  ghost predicate Invariant(s: State) {
    TablesOk(s.tables, s.now) && forall p :: p in s.calls ==> CallOk(s.tables, s.now, s.calls[p])
  }

  lemma CallOkStays(t: Tables, now: int, u: Tables, later: int, c: Call)
    requires CallOk(t, now, c) && Extends(t, u) && now <= later
    ensures CallOk(u, later, c)
  {
    hide CountApprovals, DecisionsGrow, QuorumOn, Authorised, SameTerms, SameSnapshot;
    match c
    case ProposeRead(i) => AuthorisedStays(t, u, i);
    case ProposeAnswered(i, _) => AuthorisedStays(t, u, i);
    case PollRead(i, _) => AuthorisedStays(t, u, i);
    case PollAnswered(i, _, _) => AuthorisedStays(t, u, i);
    case DecideQuorum(r, i) => QuorumStays(t, u, r, i);
    case DecideClosed(r, i, closedAs) =>
      if closedAs.Fulfilled? {
        QuorumStays(t, u, r, i);
      } else {
        RequestStays(t, u, r);
      }
    case DecideRead(r, _, _, seen, _) =>
      TermsStay(t, u, seen, r);
      SnapshotStays(t, u, seen.intentId);
    case DecideEligible(r, _, _, seen) => TermsStay(t, u, seen, r);
    case DecideFresh(r, _, _, seen) => TermsStay(t, u, seen, r);
    case DecideInserted(r, m, vote, seen) =>
      TermsStay(t, u, seen, r);
      InsertedStays(t, u, r, m);
    case CreateInserted(i, _, _) => SnapshotStays(t, u, i);
    case CreateRequested(i) => SnapshotStays(t, u, i);
    case SweepList(stale) => OverdueStay(t, now, u, later);
    case ExpireRead(r, i, rest) => OverdueStay(t, now, u, later); SnapshotStays(t, u, i);
    case ExpireMarked(i, rest) => OverdueStay(t, now, u, later); SnapshotStays(t, u, i);
  }

  lemma TermsStay(t: Tables, u: Tables, seen: Request, r: Id)
    requires Extends(t, u) && r in t.requests && SameTerms(seen, t.requests[r])
    ensures r in u.requests && SameTerms(seen, u.requests[r]) && u.requests[r].intentId == t.requests[r].intentId
  {
    hide DecisionsGrow;
    assert SameTerms(t.requests[r], u.requests[r]);
  }

  lemma RequestStays(t: Tables, u: Tables, r: Id)
    requires Extends(t, u) && r in t.requests
    ensures r in u.requests && u.requests[r].intentId == t.requests[r].intentId
  {
    assert SameTerms(t.requests[r], u.requests[r]);
  }

  lemma SnapshotStays(t: Tables, u: Tables, i: Id)
    requires Extends(t, u) && i in t.intents
    ensures i in u.intents && u.intents[i].decision == t.intents[i].decision && u.intents[i].orgId == t.intents[i].orgId
  {
    hide DecisionsGrow, SameTerms;
  }

  lemma OverdueStay(t: Tables, now: int, u: Tables, later: int)
    requires Extends(t, u) && now <= later
    ensures forall r :: Overdue(t, now, r) ==> Overdue(u, later, r)
  {
    hide DecisionsGrow;
  }

  lemma QuorumStays(t: Tables, u: Tables, r: Id, i: Id)
    requires QuorumOn(t, r, i) && Extends(t, u)
    ensures QuorumOn(u, r, i)
  {
    MoreDecisionsMoreApprovals(t.decisions, u.decisions, r);
    assert SameTerms(t.requests[r], u.requests[r]);
  }

  lemma InsertedStays(t: Tables, u: Tables, r: Id, m: Id)
    requires Extends(t, u) && (r, m) in t.decisions
    ensures (r, m) in u.decisions && u.decisions[(r, m)] == t.decisions[(r, m)]
  {
  }

  // ---- One statement keeps the tables in order ----

  lemma IntentOkStays(t: Tables, u: Tables, i: Id)
    requires i in t.intents && IntentOk(t, i) && Extends(t, u)
    requires var a, b := t.intents[i].status, u.intents[i].status;
             && (a.Denied? <==> b.Denied?)
             && (PastApproval(b) ==> PastApproval(a) || Authorised(t, i))
    ensures IntentOk(u, i)
  {
    hide QuorumOn;
    if Authorised(t, i) {
      AuthorisedStays(t, u, i);
    }
  }

  // The rows are those of t, changed only where TablesOk allows it.
  ghost predicate Rewrites(t: Tables, u: Tables, later: int) {
    && u.intents.Keys == t.intents.Keys && u.requests.Keys == t.requests.Keys
    && (forall k :: k in u.decisions ==> k in t.decisions || k.0 in t.requests)
    && (forall i :: i in t.intents ==>
          && (t.intents[i].status.Denied? <==> u.intents[i].status.Denied?)
          && (PastApproval(u.intents[i].status) ==> PastApproval(t.intents[i].status) || Authorised(t, i)))
    && (forall r :: r in u.requests && u.requests[r].status.Expired? ==> u.requests[r].expiresAt < later)
  }

  lemma RewritesKeepTables(t: Tables, now: int, u: Tables, later: int)
    requires TablesOk(t, now) && Extends(t, u) && Rewrites(t, u, later)
    ensures TablesOk(u, later)
  {
    hide QuorumOn, Authorised, IntentOk, AsDecided;
    forall i | i in u.intents
      ensures IntentOk(u, i)
    {
      IntentOkStays(t, u, i);
    }
    forall r | r in u.requests
      ensures RequestOk(u, later, r)
    {
      assert RequestOk(t, now, r);
      SameTermsAsDecided(t.requests[r], u.requests[r], t.intents[t.requests[r].intentId].decision);
    }
  }

  lemma SameTermsAsDecided(a: Request, b: Request, d: PolicyDecision)
    requires AsDecided(a, d) && SameTerms(a, b)
    ensures AsDecided(b, d)
  {
  }

  lemma RequestWrite(t: Tables, now: int, r: Id, status: RequestStatus)
    requires TablesOk(t, now) && (status.Expired? ==> Overdue(t, now, r))
    ensures var u := PutRequestStatus(t, r, status);
            Extends(t, u) && TablesOk(u, now)
  {
    hide TablesOk, Extends, Rewrites;
    RequestWriteExtends(t, now, r, status);
    RewritesKeepTables(t, now, PutRequestStatus(t, r, status), now);
  }

  lemma RequestWriteExtends(t: Tables, now: int, r: Id, status: RequestStatus)
    requires TablesOk(t, now) && (status.Expired? ==> Overdue(t, now, r))
    ensures var u := PutRequestStatus(t, r, status);
            Extends(t, u) && Rewrites(t, u, now)
  {
    hide QuorumOn, Authorised, TablesOk;
    if r in t.requests {
      assert SameTerms(t.requests[r], t.requests[r].(status := status));
    }
    ExpiredAreOverdue(t, now);
  }

  // Writing one intent's row without touching its snapshot.
  lemma IntentWrite(t: Tables, now: int, i: Id, intent: Intent)
    requires TablesOk(t, now) && i in t.intents
    requires SameSnapshot(t.intents[i], intent) && !t.intents[i].decision.decision.Deny? && !intent.status.Denied?
    requires PastApproval(intent.status) ==> Authorised(t, i)
    ensures var u := PutIntent(t, i, intent);
            Extends(t, u) && TablesOk(u, now)
  {
    hide TablesOk, Extends, Rewrites, Authorised, SameSnapshot;
    IntentWriteExtends(t, now, i, intent);
    RewritesKeepTables(t, now, PutIntent(t, i, intent), now);
  }

  lemma IntentWriteExtends(t: Tables, now: int, i: Id, intent: Intent)
    requires TablesOk(t, now) && i in t.intents
    requires SameSnapshot(t.intents[i], intent) && !t.intents[i].decision.decision.Deny? && !intent.status.Denied?
    requires PastApproval(intent.status) ==> Authorised(t, i)
    ensures var u := PutIntent(t, i, intent);
            Extends(t, u) && Rewrites(t, u, now)
  {
    hide QuorumOn, Authorised, AsDecided, CoversRules;
    assert IntentOk(t, i);
    ExpiredAreOverdue(t, now);
  }

  lemma ExpiredAreOverdue(t: Tables, now: int)
    requires TablesOk(t, now)
    ensures forall q :: q in t.requests && t.requests[q].status.Expired? ==> t.requests[q].expiresAt < now
  {
    hide IntentOk, AsDecided;
    forall q | q in t.requests && t.requests[q].status.Expired?
      ensures t.requests[q].expiresAt < now
    {
      assert RequestOk(t, now, q);
    }
  }

  lemma DecisionWrite(t: Tables, now: int, r: Id, m: Id, vote: Vote)
    requires TablesOk(t, now) && r in t.requests && (r, m) !in t.decisions
    ensures var u := PutDecision(t, r, m, vote);
            Extends(t, u) && TablesOk(u, now)
  {
    hide QuorumOn, Authorised, IntentOk, AsDecided;
    assert forall q :: q in t.requests ==> RequestOk(t, now, q);
    RewritesKeepTables(t, now, PutDecision(t, r, m, vote), now);
  }

  lemma RequestInsert(t: Tables, now: int, r: Id, q: Request)
    requires TablesOk(t, now) && r !in t.requests && q.status.Pending?
    requires RequestOk(t.(requests := t.requests[r := q]), now, r)
    ensures var u := t.(requests := t.requests[r := q]);
            Extends(t, u) && TablesOk(u, now)
  {
    hide QuorumOn, Authorised, AsDecided, IntentOk;
    var u := t.(requests := t.requests[r := q]);
    assert Extends(t, u);
    forall j | j in u.intents
      ensures IntentOk(u, j)
    {
      IntentOkStays(t, u, j);
    }
    forall s | s in u.requests
      ensures RequestOk(u, now, s)
    {
      if s != r {
        assert RequestOk(t, now, s);
      }
    }
  }

  // An authorised or approval-bound intent was not denied.
  lemma NotDenied(t: Tables, now: int, i: Id)
    requires TablesOk(t, now) && (Authorised(t, i) || NeedsApproval(t, i))
    ensures i in t.intents && !t.intents[i].decision.decision.Deny?
  {
    if Authorised(t, i) && !t.intents[i].decision.decision.Allow? {
      var r: Id :| QuorumOn(t, r, i);
      assert RequestOk(t, now, r);
    }
  }

  lemma QuorumAuthorises(t: Tables, now: int, r: Id, i: Id)
    requires TablesOk(t, now) && QuorumOn(t, r, i)
    ensures Authorised(t, i) && NeedsApproval(t, i)
  {
    assert RequestOk(t, now, r);
  }

  lemma EffectKeepsTables(t: Tables, now: int, c: Call, input: Input)
    requires TablesOk(t, now) && CallOk(t, now, c)
    ensures Extends(t, Effect(t, c, input)) && TablesOk(Effect(t, c, input), now)
  {
    hide TablesOk, Extends, Settled, Authorised, QuorumOn;
    match c
    case DecideFresh(r, m, vote, _) =>
      if (r, m) !in t.decisions {
        DecisionWrite(t, now, r, m, vote);
      } else {
        LaterIsOk(t, now, t, now);
      }
    case DecideInserted(r, _, vote, _) =>
      if vote.Reject? {
        RequestWrite(t, now, r, Rejected);
      } else {
        LaterIsOk(t, now, t, now);
      }
    case DecideQuorum(r, _) => RequestWrite(t, now, r, Fulfilled);
    case DecideClosed(r, i, closedAs) => ClosedKeepsTables(t, now, r, i, closedAs);
    case ExpireRead(r, _, _) => RequestWrite(t, now, r, Expired);
    case ExpireMarked(i, _) =>
      NotDenied(t, now, i);
      IntentWrite(t, now, i, t.intents[i].(status := Cancelled));
    case ProposeAnswered(i, answer) => ProposeKeepsTables(t, now, i, answer);
    case PollAnswered(i, answer, attempt) => PollKeepsTables(t, now, i, answer, attempt);
    case CreateInserted(i, d, expiresAt) => RequestingKeepsTables(t, now, i, d, expiresAt, input);
    case CreateRequested(i) =>
      NotDenied(t, now, i);
      IntentWrite(t, now, i, t.intents[i].(status := PendingApproval));
    case _ => LaterIsOk(t, now, t, now);
  }

  lemma ClosedKeepsTables(t: Tables, now: int, r: Id, i: Id, closedAs: RequestStatus)
    requires TablesOk(t, now) && CallOk(t, now, DecideClosed(r, i, closedAs))
    ensures var u := Effect(t, DecideClosed(r, i, closedAs), NoInput);
            Extends(t, u) && TablesOk(u, now)
  {
    hide CountApprovals;
    assert RequestOk(t, now, r);
    assert StatusAfter(PendingApproval, ApprovalCompleted) == ReadyToSign;
    assert StatusAfter(PendingApproval, ApprovalRejected) == Cancelled;
    if closedAs.Fulfilled? {
      QuorumAuthorises(t, now, r, i);
      IntentWrite(t, now, i, t.intents[i].(status := ReadyToSign));
    } else {
      IntentWrite(t, now, i, t.intents[i].(status := Cancelled));
    }
  }

  lemma ProposeKeepsTables(t: Tables, now: int, i: Id, answer: SafeAnswer)
    requires TablesOk(t, now) && Authorised(t, i)
    ensures var u := Effect(t, ProposeAnswered(i, answer), NoInput);
            Extends(t, u) && TablesOk(u, now)
  {
    hide CountApprovals, TablesOk, Extends, Authorised;
    NotDenied(t, now, i);
    LaterIsOk(t, now, t, now);
    if answer.SafeAccepted? {
      assert StatusAfter(ReadyToSign, Proposed) == Submitted;
      IntentWrite(t, now, i, t.intents[i].(status := Submitted, safeTxHash := Some(answer.safeTxHash)));
    } else if answer.SafeRejected? {
      IntentWrite(t, now, i, t.intents[i].(status := Failed, failureReason := Some(answer.reason)));
    }
  }

  lemma SettledKeepsSnapshot(intent: Intent, answer: ChainAnswer, attempt: nat)
    ensures var settled := Settled(intent, answer, attempt);
            settled.Some? ==> SameSnapshot(intent, settled.value)
                              && (settled.value.status.Executed? || settled.value.status.Failed?)
  {
  }

  lemma PollKeepsTables(t: Tables, now: int, i: Id, answer: ChainAnswer, attempt: nat)
    requires TablesOk(t, now) && Authorised(t, i)
    ensures var u := Effect(t, PollAnswered(i, answer, attempt), NoInput);
            Extends(t, u) && TablesOk(u, now)
  {
    hide CountApprovals, Settled, TablesOk, Extends, Authorised, SameSnapshot;
    NotDenied(t, now, i);
    LaterIsOk(t, now, t, now);
    SettledKeepsSnapshot(t.intents[i], answer, attempt);
    if Settled(t.intents[i], answer, attempt).Some? {
      IntentWrite(t, now, i, Settled(t.intents[i], answer, attempt).value);
    }
  }

  lemma RequestingKeepsTables(t: Tables, now: int, i: Id, d: PolicyDecision, expiresAt: int, input: Input)
    requires TablesOk(t, now) && CallOk(t, now, CreateInserted(i, d, expiresAt))
    ensures var u := Effect(t, CreateInserted(i, d, expiresAt), input);
            Extends(t, u) && TablesOk(u, now)
  {
    hide CountApprovals;
    assert IntentOk(t, i);
    var u := Effect(t, CreateInserted(i, d, expiresAt), input);
    if u != t {
      RequestInsert(t, now, input.requestId, u.requests[input.requestId]);
    }
  }

  lemma AfterSweepIsOk(t: Tables, now: int, stale: seq<Id>)
    requires TablesOk(t, now) && CallOk(t, now, SweepList(stale))
    ensures var next := After(t, now, SweepList(stale), NoInput);
            next.Some? ==> CallOk(t, now, next.value)
  {
    if stale != [] && stale[0] in t.requests {
      assert RequestOk(t, now, stale[0]);
    }
  }

  lemma AfterCountIsOk(t: Tables, now: int, r: Id, m: Id, vote: Vote, seen: Request)
    requires CallOk(t, now, DecideInserted(r, m, vote, seen))
    ensures var next := After(t, now, DecideInserted(r, m, vote, seen), NoInput);
            next.Some? ==> CallOk(t, now, next.value)
  {
  }

  // A statement that only reads leaves the tables alone; the two inserts are where they should be.
  lemma EffectOnCall(t: Tables, c: Call, input: Input)
    ensures c.DecideRead? || c.DecideEligible? || c.SweepList? || c.ProposeRead? || c.PollRead?
            ==> Effect(t, c, input) == t
    ensures c.DecideFresh? && (c.requestId, c.memberId) !in t.decisions
            ==> var u := Effect(t, c, input);
                && u.requests == t.requests && (c.requestId, c.memberId) in u.decisions
                && u.decisions[(c.requestId, c.memberId)] == c.vote
  {
    hide Settled;
  }

  // The call's next place is in order on the tables it leaves behind.
  lemma AfterIsOk(t: Tables, now: int, c: Call, input: Input)
    requires TablesOk(t, now) && CallOk(t, now, c)
    ensures var u, next := Effect(t, c, input), After(t, now, c, input);
            next.Some? ==> CallOk(u, now, next.value)
  {
    hide TablesOk, Extends, EligibleApprovers, Authorised, QuorumOn, SameTerms, Overdue, Effect, CountApprovals;
    EffectKeepsTables(t, now, c, input);
    EffectOnCall(t, c, input);
    var u := Effect(t, c, input);
    match c
    case DecideInserted(r, m, vote, seen) =>
      AfterCountIsOk(t, now, r, m, vote, seen);
      if After(t, now, c, input).Some? {
        CallOkStays(t, now, u, now, After(t, now, c, input).value);
      }
    case SweepList(stale) => AfterSweepIsOk(t, now, stale);
    case DecideFresh(r, m, vote, seen) => CallOkStays(t, now, u, now, DecideEligible(r, m, vote, seen));
    case DecideQuorum(r, i) => CallOkStays(t, now, u, now, c);
    case ExpireRead(r, i, rest) => CallOkStays(t, now, u, now, ExpireMarked(i, rest));
    case ExpireMarked(i, rest) => CallOkStays(t, now, u, now, SweepList(rest));
    case CreateInserted(i, d, _) => CallOkStays(t, now, u, now, CreateRequested(i)); CallOkStays(t, now, u, now, c);
    case _ =>
  }

  // ---- Every action keeps the invariant ----

  lemma CancelKeepsTables(t: Tables, now: int, memberIds: set<Id>)
    requires TablesOk(t, now)
    ensures Extends(t, CancelIntents(t, memberIds)) && TablesOk(CancelIntents(t, memberIds), now)
  {
    hide TablesOk, Extends, Rewrites, CancelIntents;
    CancelExtends(t, now, memberIds);
    RewritesKeepTables(t, now, CancelIntents(t, memberIds), now);
  }

  lemma CancelExtends(t: Tables, now: int, memberIds: set<Id>)
    requires TablesOk(t, now)
    ensures Extends(t, CancelIntents(t, memberIds)) && Rewrites(t, CancelIntents(t, memberIds), now)
  {
    hide TablesOk, QuorumOn, Authorised;
    ExpiredAreOverdue(t, now);
    DecisionsInRequests(t, now);
  }

  lemma DecisionsInRequests(t: Tables, now: int)
    requires TablesOk(t, now)
    ensures forall k :: k in t.decisions ==> k.0 in t.requests
  {
    hide IntentOk, RequestOk;
  }

  lemma LaterIsOk(t: Tables, now: int, u: Tables, later: int)
    requires TablesOk(t, now) && now <= later
    requires u.intents == t.intents && u.requests == t.requests && u.decisions == t.decisions
    ensures Extends(t, u) && TablesOk(u, later)
  {
    hide QuorumOn, Authorised, IntentOk, AsDecided;
    assert forall q :: q in t.requests ==> RequestOk(t, now, q);
    RewritesKeepTables(t, now, u, later);
  }

  lemma EngineCoversRules(e: Evaluation)
    requires CountsPositive(e.rules)
    ensures CoversRules(EvaluateIntent(e))
  {
    if EvaluateIntent(e).decision.NeedApproval? {
      ApprovalRequirementCovers(e);
    }
  }

  lemma StartKeepsTables(t: Tables, now: int, a: Action)
    requires TablesOk(t, now) && CanStart(t, now, a)
    ensures var u := StartTables(t, a);
            && Extends(t, u) && TablesOk(u, now)
            && (Started(t, now, a).Some? ==> CallOk(u, now, Started(t, now, a).value))
  {
    hide CountApprovals, EvaluateIntent, TablesOk, Extends;
    if a.StartCreate? {
      EngineCoversRules(a.evaluation);
      InsertIntentKeepsTables(t, now, a.intentId, a.orgId, a.memberId, EvaluateIntent(a.evaluation));
    } else {
      LaterIsOk(t, now, t, now);
      if a.StartPropose? || a.StartPoll? {
        PastApprovalIsAuthorised(t, now, a.intentId);
      }
    }
  }

  lemma PastApprovalIsAuthorised(t: Tables, now: int, i: Id)
    requires TablesOk(t, now) && i in t.intents && PastApproval(t.intents[i].status)
    ensures Authorised(t, i)
  {
    hide Authorised;
    assert IntentOk(t, i);
  }

  lemma InsertIntentKeepsTables(t: Tables, now: int, i: Id, org: Id, m: Id, d: PolicyDecision)
    requires TablesOk(t, now) && i !in t.intents && CoversRules(d)
    ensures var u := PutIntent(t, i, NewIntent(org, m, d));
            Extends(t, u) && TablesOk(u, now)
  {
    hide CountApprovals;
    var u := PutIntent(t, i, NewIntent(org, m, d));
    assert Extends(t, u);
    forall j | j in u.intents
      ensures IntentOk(u, j)
    {
      if j != i {
        IntentOkStays(t, u, j);
      }
    }
    forall s | s in u.requests
      ensures RequestOk(u, now, s)
    {
      assert RequestOk(t, now, s);
    }
  }

  // What an action does to the tables and the clock, and the one call it may put in place.
  lemma NextKeepsTables(s: State, a: Action)
    requires Invariant(s)
    ensures var u := Next(s, a);
            && Extends(s.tables, u.tables) && s.now <= u.now && TablesOk(u.tables, u.now)
            && forall p :: p in u.calls ==>
                 (p in s.calls && u.calls[p] == s.calls[p]) || CallOk(u.tables, u.now, u.calls[p])
  {
    hide TablesOk, Effect, After, CallOk, CanStart, StartTables, Started, CancelIntents, Extends;
    match a
    case Continue(p, input) =>
      if p in s.calls {
        EffectKeepsTables(s.tables, s.now, s.calls[p], input);
        AfterIsOk(s.tables, s.now, s.calls[p], input);
      } else {
        LaterIsOk(s.tables, s.now, s.tables, s.now);
      }
    case CancelByMember(m) => CancelKeepsTables(s.tables, s.now, {m});
    case ChangeRoster(members, assignments) =>
      LaterIsOk(s.tables, s.now, s.tables.(members := members, assignments := assignments), s.now);
    case Tick(to) => LaterIsOk(s.tables, s.now, s.tables, if s.now <= to then to else s.now);
    case _ =>
      if a.call !in s.calls && CanStart(s.tables, s.now, a) {
        StartKeepsTables(s.tables, s.now, a);
      } else {
        LaterIsOk(s.tables, s.now, s.tables, s.now);
      }
  }

  lemma NextKeepsInvariant(s: State, a: Action)
    requires Invariant(s)
    ensures Invariant(Next(s, a)) && Extends(s.tables, Next(s, a).tables) && s.now <= Next(s, a).now
  {
    hide TablesOk, Next, CallOk, Extends;
    NextKeepsTables(s, a);
    var u := Next(s, a);
    forall p | p in u.calls
      ensures CallOk(u.tables, u.now, u.calls[p])
    {
      if p in s.calls && u.calls[p] == s.calls[p] {
        CallOkStays(s.tables, s.now, u.tables, u.now, s.calls[p]);
      }
    }
  }

  lemma InitialIsOk(start: int)
    ensures Invariant(Initial(start))
  {
  }

  lemma {:induction false} InvariantHolds(start: int, actions: seq<Action>)
    ensures Invariant(Exec(Initial(start), actions))
  {
    hide Next, Invariant;
    InitialIsOk(start);
    if actions != [] {
      InvariantHolds(start, actions[..|actions| - 1]);
      NextKeepsInvariant(Exec(Initial(start), actions[..|actions| - 1]), actions[|actions| - 1]);
    }
  }

  // ---- Every vote was checked ----

  ghost predicate EligibleIn(s: State, r: Id, m: Id) {
    && r in s.tables.requests
    && s.tables.requests[r].intentId in s.tables.intents
    && m in EligibleApprovers(s.tables, s.now, s.tables.intents[s.tables.requests[r].intentId].orgId,
                              s.tables.requests[r].approverRoleIds)
  }

  // The action is the eligibility query of a call that casts this vote, and the member is eligible right then.
  ghost predicate Checks(s: State, a: Action, r: Id, m: Id, vote: Vote) {
    a.Continue? && a.call in s.calls && Asks(s.calls[a.call], r, m, vote) && EligibleIn(s, r, m)
  }

  predicate Asks(c: Call, r: Id, m: Id, vote: Vote) {
    c.DecideRead? && c.requestId == r && c.memberId == m && c.vote == vote
  }

  ghost predicate WasChecked(start: int, actions: seq<Action>, r: Id, m: Id, vote: Vote) {
    exists k :: 0 <= k < |actions| && Checks(Exec(Initial(start), actions[..k]), actions[k], r, m, vote)
  }

  lemma WasCheckedStays(start: int, actions: seq<Action>, a: Action, r: Id, m: Id, vote: Vote)
    requires WasChecked(start, actions, r, m, vote)
    ensures WasChecked(start, actions + [a], r, m, vote)
  {
    var k :| 0 <= k < |actions| && Checks(Exec(Initial(start), actions[..k]), actions[k], r, m, vote);
    var more := actions + [a];
    assert more[..k] == actions[..k] && more[k] == actions[k];
  }

  lemma CheckedNow(start: int, actions: seq<Action>, a: Action, r: Id, m: Id, vote: Vote)
    requires Checks(Exec(Initial(start), actions), a, r, m, vote)
    ensures WasChecked(start, actions + [a], r, m, vote)
  {
    var more := actions + [a];
    assert more[..|actions|] == actions && more[|actions|] == a;
  }

  predicate PastCheck(c: Call) {
    c.DecideEligible? || c.DecideFresh? || c.DecideInserted?
  }

  // The member's vote on r is stored, or a call in flight has checked that the member may cast it.
  ghost predicate Voting(s: State, r: Id, m: Id, vote: Vote) {
    || ((r, m) in s.tables.decisions && s.tables.decisions[(r, m)] == vote)
    || exists p :: p in s.calls && Casts(s.calls[p], r, m, vote)
  }

  predicate Casts(c: Call, r: Id, m: Id, vote: Vote) {
    PastCheck(c) && c.requestId == r && c.memberId == m && c.vote == vote
  }

  ghost predicate AllChecked(start: int, actions: seq<Action>, s: State) {
    forall r, m, vote :: Voting(s, r, m, vote) ==> WasChecked(start, actions, r, m, vote)
  }

  lemma StatementDecisions(t: Tables, c: Call, input: Input, r: Id, m: Id)
    requires (r, m) in Effect(t, c, input).decisions
    ensures (r, m) in t.decisions ==> Effect(t, c, input).decisions[(r, m)] == t.decisions[(r, m)]
    ensures (r, m) !in t.decisions ==> Casts(c, r, m, Effect(t, c, input).decisions[(r, m)])
  {
    hide Settled, IsQuorumMet, StatusAfter;
  }

  lemma StatementChecks(t: Tables, now: int, c: Call, input: Input)
    requires After(t, now, c, input).Some? && PastCheck(After(t, now, c, input).value)
    ensures var d := After(t, now, c, input).value;
            && (PastCheck(c) || c.DecideRead?)
            && c.requestId == d.requestId && c.memberId == d.memberId && c.vote == d.vote
            && (c.DecideRead? ==> c.memberId in EligibleApprovers(t, now, c.orgId, c.seen.approverRoleIds))
  {
    hide EligibleApprovers, CountApprovals;
  }

  lemma StatementVotes(s: State, p: Id, input: Input, r: Id, m: Id, vote: Vote)
    requires p in s.calls && CallOk(s.tables, s.now, s.calls[p])
    requires Voting(Next(s, Continue(p, input)), r, m, vote)
    ensures Checks(s, Continue(p, input), r, m, vote) || Voting(s, r, m, vote)
  {
    hide EligibleApprovers, Effect, After, Authorised, QuorumOn;
    var u, c := Next(s, Continue(p, input)), s.calls[p];
    if (r, m) in u.tables.decisions && u.tables.decisions[(r, m)] == vote {
      StatementDecisions(s.tables, c, input, r, m);
    } else {
      var q :| q in u.calls && Casts(u.calls[q], r, m, vote);
      if q == p {
        StatementChecks(s.tables, s.now, c, input);
      }
    }
  }

  // Votes come from votes under way, or from a check made now.
  lemma VotesComeFromChecks(s: State, a: Action, r: Id, m: Id, vote: Vote)
    requires Invariant(s) && Voting(Next(s, a), r, m, vote)
    ensures Checks(s, a, r, m, vote) || Voting(s, r, m, vote)
  {
    hide EligibleApprovers, TablesOk, CanStart, Effect, After, EvaluateIntent, CallOk;
    if a.Continue? && a.call in s.calls {
      StatementVotes(s, a.call, a.input, r, m, vote);
    }
  }

  /**
   * Every vote that is stored or on its way belongs to a call whose own eligibility query found the member
   * eligible at that very moment.
   */
  lemma {:induction false} ApproversWereEligible(start: int, actions: seq<Action>)
    ensures AllChecked(start, actions, Exec(Initial(start), actions))
  {
    hide Next, Checks, Invariant, WasChecked, Voting;
    if actions != [] {
      var before, a := actions[..|actions| - 1], actions[|actions| - 1];
      var s, u := Exec(Initial(start), before), Exec(Initial(start), actions);
      assert actions == before + [a];
      ApproversWereEligible(start, before);
      InvariantHolds(start, before);
      forall r, m, vote | Voting(u, r, m, vote)
        ensures WasChecked(start, actions, r, m, vote)
      {
        VotesComeFromChecks(s, a, r, m, vote);
        if Checks(s, a, r, m, vote) {
          CheckedNow(start, before, a, r, m, vote);
        } else {
          WasCheckedStays(start, before, a, r, m, vote);
        }
      }
    } else {
      NoVotesInitially(start);
    }
  }

  lemma NoVotesInitially(start: int)
    ensures forall r, m, vote :: !Voting(Initial(start), r, m, vote)
  {
  }

  // ---- Every decision snapshot is that of the intent's creation ----

  ghost predicate Creates(s: State, a: Action, i: Id, e: Evaluation) {
    a.StartCreate? && a.intentId == i && a.evaluation == e && a.call !in s.calls && CanStart(s.tables, s.now, a)
  }

  // The run has a creation of the intent from this evaluation.
  ghost predicate CreatedFrom(start: int, actions: seq<Action>, i: Id, e: Evaluation) {
    exists k :: 0 <= k < |actions| && Creates(Exec(Initial(start), actions[..k]), actions[k], i, e)
  }

  lemma CreatedFromStays(start: int, actions: seq<Action>, a: Action, i: Id, e: Evaluation)
    requires CreatedFrom(start, actions, i, e)
    ensures CreatedFrom(start, actions + [a], i, e)
  {
    var k :| 0 <= k < |actions| && Creates(Exec(Initial(start), actions[..k]), actions[k], i, e);
    var more := actions + [a];
    assert more[..k] == actions[..k] && more[k] == actions[k];
  }

  lemma CreatedNow(start: int, actions: seq<Action>, a: Action, i: Id, e: Evaluation)
    requires Creates(Exec(Initial(start), actions), a, i, e)
    ensures CreatedFrom(start, actions + [a], i, e)
  {
    var more := actions + [a];
    assert more[..|actions|] == actions && more[|actions|] == a;
  }

  lemma EffectAddsNoIntent(t: Tables, c: Call, input: Input)
    ensures Effect(t, c, input).intents.Keys == t.intents.Keys
  {
    hide Settled;
  }

  lemma NewIntentsAreCreated(s: State, a: Action, i: Id)
    requires i in Next(s, a).tables.intents && i !in s.tables.intents
    ensures a.StartCreate? && Creates(s, a, i, a.evaluation)
    ensures Next(s, a).tables.intents[i].decision == EvaluateIntent(a.evaluation)
  {
    hide Effect, CanStart, EvaluateIntent;
    if a.Continue? && a.call in s.calls {
      EffectAddsNoIntent(s.tables, s.calls[a.call], a.input);
    }
  }

  /** Every intent was created in the run, and its stored decision is that of the evaluation at its creation. */
  lemma {:induction false} DecisionsComeFromCreation(start: int, actions: seq<Action>, i: Id) returns (e: Evaluation)
    requires i in Exec(Initial(start), actions).tables.intents
    ensures CreatedFrom(start, actions, i, e) && CountsPositive(e.rules)
    ensures Exec(Initial(start), actions).tables.intents[i].decision == EvaluateIntent(e)
  {
    hide Next, Invariant, CreatedFrom, EvaluateIntent, CountsPositive, SameTerms, DecisionsGrow;
    var before, a := actions[..|actions| - 1], actions[|actions| - 1];
    var s := Exec(Initial(start), before);
    assert actions == before + [a];
    if i in s.tables.intents {
      e := DecisionsComeFromCreation(start, before, i);
      CreatedFromStays(start, before, a, i, e);
      InvariantHolds(start, before);
      NextKeepsInvariant(s, a);
    } else {
      NewIntentsAreCreated(s, a, i);
      e := a.evaluation;
      CreatedNow(start, before, a, i, e);
    }
  }

  // ---- The safety theorem ----

  /**
   * Request r authorises intent i, created from evaluation e: at least as many distinct members as it requires
   * approved it, each found eligible by the check of an approving call, and that number covers every approval
   * rule evaluated.
   */
  ghost predicate AuthorisedBy(start: int, actions: seq<Action>, r: Id, i: Id, e: Evaluation) {
    var t := Exec(Initial(start), actions).tables;
    && r in t.requests && t.requests[r].intentId == i
    && 1 <= t.requests[r].requiredCount <= |ApproversOf(t.decisions, r)|
    && (forall rule :: rule in e.rules && rule.RequireApproval?
                       ==> rule.approverCount <= t.requests[r].requiredCount)
    && (forall m :: m in ApproversOf(t.decisions, r) ==> WasChecked(start, actions, r, m, Approve))
  }

  /**
   * In every interleaved run, an intent that is ready to sign, submitted, executed or failed was created from an
   * evaluation that had a quoted price and broke no rule, and which allowed it, or else the intent is authorised by
   * one of its approval requests.
   */
  lemma AuthorisationSafety(start: int, actions: seq<Action>, i: Id)
    requires var t := Exec(Initial(start), actions).tables;
             i in t.intents && PastApproval(t.intents[i].status)
    ensures exists e: Evaluation ::
              && CreatedFrom(start, actions, i, e)
              && Exec(Initial(start), actions).tables.intents[i].decision == EvaluateIntent(e)
              && NothingBroken(e)
              && (EvaluateIntent(e).decision.Allow? || exists r: Id :: AuthorisedBy(start, actions, r, i, e))
  {
    hide Exec, Next, WasChecked, CreatedFrom, EvaluateIntent, CountsPositive, NothingBroken;
    var s := Exec(Initial(start), actions);
    var t := s.tables;
    var e := DecisionsComeFromCreation(start, actions, i);
    InvariantHolds(start, actions);
    assert IntentOk(t, i);
    NotDeniedMeansNothingBroken(e);
    if !t.intents[i].decision.decision.Allow? {
      var r: Id :| QuorumOn(t, r, i);
      QuorumAuthorisesBy(start, actions, r, i, e);
    }
  }

  lemma QuorumAuthorisesBy(start: int, actions: seq<Action>, r: Id, i: Id, e: Evaluation)
    requires var t := Exec(Initial(start), actions).tables;
             && QuorumOn(t, r, i) && i in t.intents && t.intents[i].decision == EvaluateIntent(e)
    requires CountsPositive(e.rules)
    ensures AuthorisedBy(start, actions, r, i, e)
  {
    hide Exec, Next, WasChecked, EvaluateIntent, CountsPositive;
    var s := Exec(Initial(start), actions);
    InvariantHolds(start, actions);
    ApproversWereEligible(start, actions);
    assert RequestOk(s.tables, s.now, r);
    ApprovalRequirementCovers(e);
    forall m | m in ApproversOf(s.tables.decisions, r)
      ensures WasChecked(start, actions, r, m, Approve)
    {
      assert Voting(s, r, m, Approve);
    }
  }

  // Along every run rows are only added, and snapshots and terms are never rewritten.
  lemma {:induction false} RunsExtend(start: int, actions: seq<Action>, more: seq<Action>)
    ensures Extends(Exec(Initial(start), actions).tables, Exec(Initial(start), actions + more).tables)
    decreases |more|
  {
    hide Next, Invariant, Extends;
    if more == [] {
      assert actions + more == actions;
      LaterExtends(Exec(Initial(start), actions).tables);
    } else {
      var front, a := more[..|more| - 1], more[|more| - 1];
      assert (actions + more)[..|actions + more| - 1] == actions + front;
      RunsExtend(start, actions, front);
      InvariantHolds(start, actions + front);
      var s := Exec(Initial(start), actions + front);
      NextKeepsInvariant(s, a);
      ExtendsTwice(Exec(Initial(start), actions).tables, s.tables, Next(s, a).tables);
    }
  }

  /** Authorisation, once given, is kept by every later action. */
  lemma AuthorisationIsStable(start: int, actions: seq<Action>, more: seq<Action>, i: Id)
    requires Authorised(Exec(Initial(start), actions).tables, i)
    ensures Authorised(Exec(Initial(start), actions + more).tables, i)
    ensures Extends(Exec(Initial(start), actions).tables, Exec(Initial(start), actions + more).tables)
  {
    hide Exec, Authorised, Extends;
    RunsExtend(start, actions, more);
    AuthorisedStays(Exec(Initial(start), actions).tables, Exec(Initial(start), actions + more).tables, i);
  }

  lemma LaterExtends(t: Tables)
    ensures Extends(t, t)
  {
  }

  lemma ExtendsTwice(t: Tables, u: Tables, v: Tables)
    requires Extends(t, u) && Extends(u, v)
    ensures Extends(t, v)
  {
  }
}
