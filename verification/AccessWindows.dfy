/** Time-windowed role assignments: the stored statuses, kept by a sweep, against the windows and the clock. */
module AccessWindows {
  import opened Prelude
  import opened PolicyEngine
  import opened IntentStateMachine
  import opened PolicyEvaluation
  import opened Store
  import opened Steps
  import opened AtomicRuns

  // What an assignment that is not revoked should be, from its window alone.
  function StatusByClock(a: Assignment, now: int): AssignmentStatus {
    if now < a.startsAt then Scheduled else if InWindow(a, now) then Active else Ended
  }

  ghost predicate WindowOk(a: Assignment, now: int) {
    && (!a.status.Revoked? && a.endsAt.Some? ==> a.startsAt < a.endsAt.value)
    && (a.status.Active? ==> a.startsAt <= now)
    && (a.status.Ended? ==> a.endsAt.Some? && a.endsAt.value <= now)
  }

  ghost predicate WindowsOk(t: Tables, now: int) {
    forall a :: a in t.assignments ==> WindowOk(t.assignments[a], now)
  }

  // Each member holds a role on a wallet through at most one scheduled or active assignment.
  ghost predicate NoDoubleGrant(t: Tables) {
    forall a, b :: a in t.assignments && b in t.assignments && Live(t.assignments[a]) && Live(t.assignments[b])
                   && SameGrant(t.assignments[a], t.assignments[b].memberId, t.assignments[b].roleId,
                                t.assignments[b].walletId)
                   ==> a == b
  }

  ghost predicate AccessOk(t: Tables, now: int) {
    WindowsOk(t, now) && NoDoubleGrant(t)
  }

  // ---- Every call keeps the invariant ----

  lemma SweepKeepsAccess(t: Tables, promoteAt: int, expireAt: int)
    requires AccessOk(t, promoteAt) && promoteAt <= expireAt
    ensures AccessOk(Sweep(t, promoteAt, expireAt), expireAt)
  {
    hide Cancellable, Holders;
    var u := Sweep(t, promoteAt, expireAt);
    forall a | a in u.assignments
      ensures WindowOk(u.assignments[a], expireAt)
    {
      assert WindowOk(t.assignments[a], promoteAt);
    }
  }

  lemma AssignKeepsAccess(t: Tables, now: int, id: Id, g: Grant)
    requires AccessOk(t, now) && id !in t.assignments
    ensures AccessOk(Assign(t, now, id, g), now)
  {
    if AssignError(t, now, g).None? {
      var u := Assign(t, now, id, g);
      forall a | a in u.assignments
        ensures WindowOk(u.assignments[a], now)
      {
        assert a != id ==> WindowOk(t.assignments[a], now);
      }
    }
  }

  lemma RevokeKeepsAccess(t: Tables, now: int, org: Id, m: Id, id: Id)
    requires AccessOk(t, now)
    ensures AccessOk(Revoke(t, now, org, m, id), now)
  {
    hide Cancellable;
    if RevokeError(t, org, m, id).None? {
      RevokedRows(t, now, org, m, id);
      var u := Revoke(t, now, org, m, id);
      forall a | a in u.assignments
        ensures WindowOk(u.assignments[a], now)
      {
        assert WindowOk(t.assignments[a], now);
      }
    }
  }

  lemma RevokedRows(t: Tables, now: int, org: Id, m: Id, id: Id)
    requires RevokeError(t, org, m, id).None?
    ensures Revoke(t, now, org, m, id).assignments ==
            t.assignments[id := t.assignments[id].(status := Revoked, endsAt := Some(now))]
  {
  }

  lemma LaterKeepsAccess(t: Tables, u: Tables, now: int, later: int)
    requires AccessOk(t, now) && now <= later && u.assignments == t.assignments
    ensures AccessOk(u, later)
  {
    forall a | a in u.assignments
      ensures WindowOk(u.assignments[a], later)
    {
      assert WindowOk(t.assignments[a], now);
    }
  }

  // The calls about intents and members leave the assignments alone.
  lemma OtherCallsLeaveAssignments(t: Tables, now: int, op: Op)
    requires !op.DoAssign? && !op.DoRevoke? && !op.DoSweep?
    ensures Apply(t, now, op).assignments == t.assignments
  {
    hide CreateIntent, RecordDecision, ExpireRequests, Propose, Poll, Enabled;
    match op
    case DoCreate(i, r, org, m, e, expiresAt) => CreateLeavesAssignments(t, i, r, org, m, EvaluateIntent(e), expiresAt);
    case DoDecide(r, m, vote) => DecideLeavesAssignments(t, now, r, m, vote);
    case DoExpireStale => ExpireLeavesAssignments(t, StaleRequests(t, now));
    case DoPropose(i, prepared, answer) => ProposeLeavesAssignments(t, i, prepared, answer);
    case DoPoll(i, answer, attempt) => PollLeavesAssignments(t, i, answer, attempt);
    case _ =>
  }

  lemma CreateLeavesAssignments(t: Tables, i: Id, r: Id, org: Id, m: Id, d: PolicyDecision, expiresAt: int)
    ensures CreateIntent(t, i, r, org, m, d, expiresAt).assignments == t.assignments
  {
  }

  lemma DecideLeavesAssignments(t: Tables, now: int, r: Id, m: Id, vote: Vote)
    ensures RecordDecision(t, now, r, m, vote).assignments == t.assignments
  {
    hide DecisionError, EligibleApprovers, ApproversOf;
  }

  lemma ExpireLeavesAssignments(t: Tables, rs: set<Id>)
    ensures ExpireRequests(t, rs).assignments == t.assignments
  {
  }

  lemma ProposeLeavesAssignments(t: Tables, i: Id, prepared: bool, answer: SafeAnswer)
    ensures Propose(t, i, prepared, answer).assignments == t.assignments
  {
  }

  lemma PollLeavesAssignments(t: Tables, i: Id, answer: ChainAnswer, attempt: nat)
    ensures Poll(t, i, answer, attempt).assignments == t.assignments
  {
    hide Settled;
  }

  lemma NextKeepsAccess(w: World, s: Timed)
    requires AccessOk(w.tables, w.now)
    ensures AccessOk(Next(w, s).tables, Next(w, s).now)
  {
    hide AccessOk, Assign, Revoke, Sweep;
    var start := w.now + s.delay;
    LaterKeepsAccess(w.tables, w.tables, w.now, start);
    match s.op
    case DoAssign(id, g) =>
      if Enabled(w.tables, s.op) {
        AssignKeepsAccess(w.tables, start, id, g);
      }
    case DoRevoke(org, m, id) => RevokeKeepsAccess(w.tables, start, org, m, id);
    case DoSweep(lag) => SweepKeepsAccess(w.tables, start, start + lag);
    case _ =>
      OtherCallsLeaveAssignments(w.tables, start, s.op);
      LaterKeepsAccess(w.tables, Apply(w.tables, start, s.op), start, start);
  }

  /**
   * After every run: at most one live assignment per member, role and wallet; windows are proper; active
   * ones have started and ended ones are over.
   */
  lemma {:induction false} AccessInvariantHolds(start: int, steps: seq<Timed>)
    ensures var w := Run(World(NO_ROWS, start), steps);
            AccessOk(w.tables, w.now)
  {
    hide Next, AccessOk;
    if steps == [] {
      NoRowsOk(start);
    } else {
      AccessInvariantHolds(start, steps[..|steps| - 1]);
      NextKeepsAccess(Run(World(NO_ROWS, start), steps[..|steps| - 1]), steps[|steps| - 1]);
    }
  }

  lemma NoRowsOk(start: int)
    ensures AccessOk(NO_ROWS, start)
  {
  }

  // ---- Sweep and clock ----

  /**
   * A sweep that promotes at one instant and expires at a later one leaves every assignment that is not
   * revoked scheduled exactly when it starts after the first instant, and ended exactly when it has
   * started by then and is over by the second.
   */
  lemma SweepStatuses(t: Tables, promoteAt: int, expireAt: int, a: Id)
    requires WindowsOk(t, promoteAt) && promoteAt <= expireAt && a in t.assignments
    ensures var u := Sweep(t, promoteAt, expireAt);
            && a in u.assignments
            && u.assignments[a] == t.assignments[a].(status := u.assignments[a].status)
            && (t.assignments[a].status.Revoked? <==> u.assignments[a].status.Revoked?)
            && (!t.assignments[a].status.Revoked? ==>
                  u.assignments[a].status ==
                  if promoteAt < t.assignments[a].startsAt then Scheduled
                  else if InWindow(t.assignments[a], expireAt) then Active else Ended)
  {
    hide Cancellable, Holders;
    assert WindowOk(t.assignments[a], promoteAt);
  }

  /** Right after promote-then-expire at one instant, stored statuses are those of the windows. */
  lemma SweepAgreesWithClock(start: int, steps: seq<Timed>, delay: nat, a: Id)
    requires a in Run(World(NO_ROWS, start), steps).tables.assignments
    ensures var before := Run(World(NO_ROWS, start), steps);
            var u := Next(before, Timed(delay, DoSweep(0)));
            && a in u.tables.assignments
            && (!u.tables.assignments[a].status.Revoked? ==>
                  u.tables.assignments[a].status == StatusByClock(u.tables.assignments[a], u.now))
  {
    hide Run, Sweep;
    AccessInvariantHolds(start, steps);
    var before := Run(World(NO_ROWS, start), steps);
    LaterKeepsAccess(before.tables, before.tables, before.now, before.now + delay);
    SweepStatuses(before.tables, before.now + delay, before.now + delay, a);
  }

  // ---- A grant ends on time ----

  // The grant's terms are still those stored, unless the assignment was revoked.
  predicate SameTerms(a: Assignment, b: Assignment) {
    && b.memberId == a.memberId && b.roleId == a.roleId && b.walletId == a.walletId && b.startsAt == a.startsAt
    && (b.status == Revoked || (b.endsAt == a.endsAt && a.status != Revoked))
  }

  lemma StepKeepsTerms(t: Tables, now: int, op: Op, a: Id)
    requires a in t.assignments
    ensures a in Apply(t, now, op).assignments && SameTerms(t.assignments[a], Apply(t, now, op).assignments[a])
  {
    hide Cancellable, Holders, AssignError;
    match op
    case DoRevoke(org, m, id) =>
      if RevokeError(t, org, m, id).None? {
        RevokedRows(t, now, org, m, id);
      }
    case DoAssign(_, _) =>
    case DoSweep(_) =>
    case _ => OtherCallsLeaveAssignments(t, now, op);
  }

  lemma {:induction false} RunKeepsTerms(w: World, steps: seq<Timed>, a: Id)
    requires AccessOk(w.tables, w.now) && a in w.tables.assignments
    ensures var u := Run(w, steps);
            && AccessOk(u.tables, u.now) && w.now <= u.now
            && a in u.tables.assignments && SameTerms(w.tables.assignments[a], u.tables.assignments[a])
  {
    hide Apply, AccessOk;
    if steps != [] {
      var front, s := steps[..|steps| - 1], steps[|steps| - 1];
      RunKeepsTerms(w, front, a);
      var v := Run(w, front);
      NextKeepsAccess(v, s);
      StepKeepsTerms(v.tables, v.now + s.delay, s.op, a);
    }
  }

  /**
   * Whatever happens in between, after a sweep that promotes at or after a grant's start the assignment is active
   * if its end, as asked for, is still ahead or there is none, and over if it is not, unless it was revoked.
   */
  lemma GrantEndsOnTime(start: int, history: seq<Timed>, delay: nat, id: Id, g: Grant, steps: seq<Timed>,
                        pause: nat, lag: nat)
    requires var w := Run(World(NO_ROWS, start), history);
             id !in w.tables.assignments && AssignError(w.tables, w.now + delay, g) == None
    requires var w := Run(World(NO_ROWS, start), history);
             var after := Run(Next(w, Timed(delay, DoAssign(id, g))), steps);
             (if g.startsAt.Some? then g.startsAt.value else w.now + delay) <= after.now + pause
    ensures var w := Run(World(NO_ROWS, start), history);
            var after := Run(Next(w, Timed(delay, DoAssign(id, g))), steps);
            var swept := Next(after, Timed(pause, DoSweep(lag))).tables.assignments;
            && id in swept && swept[id].memberId == g.memberId && swept[id].roleId == g.roleId
            && swept[id].walletId == g.walletId
            && (swept[id].status == Revoked
                || (swept[id].endsAt == g.endsAt
                    && swept[id].status ==
                       if g.endsAt.Some? && g.endsAt.value <= after.now + pause + lag then Ended else Active))
  {
    hide Run, Sweep, AssignError, AccessOk;
    var w := Run(World(NO_ROWS, start), history);
    AccessInvariantHolds(start, history);
    var granted := Next(w, Timed(delay, DoAssign(id, g)));
    NextKeepsAccess(w, Timed(delay, DoAssign(id, g)));
    RunKeepsTerms(granted, steps, id);
    var after := Run(granted, steps);
    LaterKeepsAccess(after.tables, after.tables, after.now, after.now + pause);
    assert WindowsOk(after.tables, after.now + pause) by {
      WindowsOfAccess(after.tables, after.now + pause);
    }
    SweepStatuses(after.tables, after.now + pause, after.now + pause + lag, id);
  }

  lemma WindowsOfAccess(t: Tables, now: int)
    requires AccessOk(t, now)
    ensures WindowsOk(t, now)
  {
  }

  // The query behind every permission check.
  function FindActiveForMember(t: Tables, now: int, memberId: Id): set<Id> {
    if memberId in t.members && t.members[memberId].active
    then set a | a in t.assignments && t.assignments[a].memberId == memberId && t.assignments[a].status.Active?
                 && InWindow(t.assignments[a], now)
    else {}
  }

  /**
   * Between sweeps the query returns, for an active member, exactly the assignments that are not revoked and
   * inside their window, except those still waiting to be promoted.
   */
  lemma QueryIsWindowMinusUnpromoted(start: int, steps: seq<Timed>, delay: nat, memberId: Id, a: Id)
    requires var t := Run(World(NO_ROWS, start), steps).tables;
             a in t.assignments && t.assignments[a].memberId == memberId
    ensures var w := Run(World(NO_ROWS, start), steps);
            var row := w.tables.assignments[a];
            a in FindActiveForMember(w.tables, w.now + delay, memberId) <==>
              && memberId in w.tables.members && w.tables.members[memberId].active
              && !row.status.Revoked? && StatusByClock(row, w.now + delay) == Active
              && !row.status.Scheduled?
    ensures var w := Run(World(NO_ROWS, start), steps);
            var row, now := w.tables.assignments[a], w.now + delay;
            a in FindActiveForMember(w.tables, now, memberId) <==>
              && memberId in w.tables.members && w.tables.members[memberId].active
              && row.status == Active && row.startsAt <= now && (row.endsAt == None || now < row.endsAt.value)
  {
    hide Run;
    AccessInvariantHolds(start, steps);
    var w := Run(World(NO_ROWS, start), steps);
    assert WindowOk(w.tables.assignments[a], w.now);
  }

  // ---- Final statuses and cancellation ----

  /** Ended and revoked assignments are never changed again. */
  lemma FinalAssignmentsStay(t: Tables, now: int, op: Op, a: Id)
    requires a in t.assignments && (t.assignments[a].status.Ended? || t.assignments[a].status.Revoked?)
    ensures a in Apply(t, now, op).assignments && Apply(t, now, op).assignments[a] == t.assignments[a]
  {
    hide Cancellable, Holders, AssignError;
    match op
    case DoRevoke(org, m, id) =>
      if RevokeError(t, org, m, id).None? {
        RevokedRows(t, now, org, m, id);
      }
    case DoAssign(_, _) =>
    case DoSweep(_) =>
    case _ => OtherCallsLeaveAssignments(t, now, op);
  }

  ghost predicate NothingOpen(t: Tables, memberId: Id) {
    forall i :: i in t.intents && t.intents[i].memberId == memberId ==>
      t.intents[i].status !in {PolicyEvaluated, PendingApproval, ReadyToSign}
  }

  /**
   * Right after a revocation or a sweep, no member whose assignment was taken away has an intent left to
   * sign or to approve, and the intents of all other members are untouched.
   */
  lemma LostAccessCancelsIntents(t: Tables, now: int, op: Op, a: Id)
    requires a in t.assignments && (op.DoRevoke? || op.DoSweep?)
    requires var status := Apply(t, now, op).assignments[a].status;
             Live(t.assignments[a]) && (status.Ended? || status.Revoked?)
    ensures NothingOpen(Apply(t, now, op), t.assignments[a].memberId)
  {
    if op.DoSweep? {
      var promoted := Promote(t, now);
      assert a in Due(promoted, now + op.lag);
      assert t.assignments[a].memberId in Holders(promoted, Due(promoted, now + op.lag));
    }
  }

  /** Members who lose no assignment keep their intents as they are. */
  lemma OthersKeepIntents(t: Tables, now: int, op: Op, i: Id)
    requires i in t.intents && (op.DoRevoke? || op.DoSweep?)
    requires forall a :: a in t.assignments && t.assignments[a].memberId == t.intents[i].memberId
                         ==> a in Apply(t, now, op).assignments
                             && (Live(t.assignments[a]) ==> Live(Apply(t, now, op).assignments[a]))
    ensures i in Apply(t, now, op).intents && Apply(t, now, op).intents[i] == t.intents[i]
  {
    if op.DoSweep? {
      var promoted := Promote(t, now);
      var due := Due(promoted, now + op.lag);
      forall a | a in due && a in promoted.assignments
        ensures promoted.assignments[a].memberId != t.intents[i].memberId
      {
        assert a in t.assignments && Live(t.assignments[a]);
      }
    } else if RevokeError(t, op.orgId, op.memberId, op.assignmentId).None? {
      RevokedRows(t, now, op.orgId, op.memberId, op.assignmentId);
    }
  }
}
