/** The bound on status changes is attained. */
module StatusChanges {
  import opened Prelude
  import opened PolicyEngine
  import opened IntentStateMachine
  import opened PolicyEvaluation
  import opened Store
  import opened Steps
  import opened AtomicRuns
  import Races

  ghost function Changed(w: World, s: Timed, i: Id): nat {
    var before, after := w.tables.intents, Next(w, s).tables.intents;
    if i in before && i in after && before[i].status != after[i].status then 1 else 0
  }

  lemma RunOneMore(w: World, steps: seq<Timed>, s: Timed, i: Id)
    ensures Run(w, steps + [s]) == Next(Run(w, steps), s)
    ensures Changes(w, steps + [s], i) == Changes(w, steps, i) + Changed(Run(w, steps), s, i)
  {
    hide Next;
    assert (steps + [s])[..|steps|] == steps;
  }

  lemma NoSteps(w: World, i: Id)
    ensures Run(w, []) == w && Changes(w, [], i) == 0
  {
  }

  lemma FourSteps(w: World, a: Timed, b: Timed, c: Timed, d: Timed, i: Id)
    ensures var w1 := Next(w, a);
            var w2 := Next(w1, b);
            var w3 := Next(w2, c);
            && Run(w, [a, b, c, d]) == Next(w3, d)
            && Changes(w, [a, b, c, d], i) ==
               Changed(w, a, i) + Changed(w1, b, i) + Changed(w2, c, i) + Changed(w3, d, i)
  {
    hide Next, Run, Changes, Changed;
    NoSteps(w, i);
    RunOneMore(w, [], a, i);
    RunOneMore(w, [a], b, i);
    RunOneMore(w, [a, b], c, i);
    RunOneMore(w, [a, b, c], d, i);
    assert [] + [a] == [a] && [a] + [b] == [a, b] && [a, b] + [c] == [a, b, c] && [a, b, c] + [d] == [a, b, c, d];
  }

  ghost predicate StatusIs(w: World, i: Id, status: IntentStatus) {
    i in w.tables.intents && w.tables.intents[i].status == status
  }

  lemma FourDifferent(w: World, a: Timed, b: Timed, c: Timed, d: Timed, i: Id)
    requires StatusIs(w, i, PendingApproval) && StatusIs(Next(w, a), i, Cancelled)
    requires StatusIs(Next(Next(w, a), b), i, ReadyToSign)
    requires StatusIs(Next(Next(Next(w, a), b), c), i, Submitted)
    requires StatusIs(Next(Next(Next(Next(w, a), b), c), d), i, Executed)
    ensures Changes(w, [a, b, c, d], i) == 4
  {
    hide Next, Run, Changes;
    FourSteps(w, a, b, c, d, i);
  }

  // Members 2 and 10 of organisation 1; member 2 holds a role and has an intent waiting for one approval.
  function Setup(d: PolicyDecision): Tables {
    Tables(map[4 := Intent(1, 2, PendingApproval, d, None, None, None)],
           map[5 := Request(4, 1, [], 100, Pending)],
           map[],
           map[2 := Member(1, true), 10 := Member(1, true)],
           map[7 := Assignment(2, 3, None, 0, None, Active)])
  }

  // The rows of Setup before the intent is created.
  function Staffed(): Tables {
    NO_ROWS.(members := map[2 := Member(1, true), 10 := Member(1, true)],
             assignments := map[7 := Assignment(2, 3, None, 0, None, Active)])
  }

  predicate AsksOne(d: PolicyDecision) {
    d.decision.NeedApproval? && d.metadata == Approval(ApprovalRequirement(1, None))
  }

  lemma StaffSteps(a: Op, b: Op, c: Op)
    requires a == DoSetMember(2, Member(1, true)) && b == DoSetMember(10, Member(1, true))
    requires c == DoAssign(7, Grant(1, 2, 3, None, None, None, true, true))
    ensures Apply(Apply(Apply(NO_ROWS, 0, a), 0, b), 0, c) == Staffed()
  {
  }

  lemma CreateStep(e: Evaluation)
    requires CountsPositive(e.rules) && AsksOne(EvaluateIntent(e))
    ensures Apply(Staffed(), 0, DoCreate(4, 5, 1, 2, e, 100)) == Setup(EvaluateIntent(e))
  {
    hide EvaluateIntent;
  }

  lemma SetupIsReachable(e: Evaluation) returns (history: seq<Timed>)
    requires CountsPositive(e.rules) && AsksOne(EvaluateIntent(e))
    ensures Run(World(NO_ROWS, 0), history) == World(Setup(EvaluateIntent(e)), 0)
  {
    hide Run, Apply, EvaluateIntent, Setup, Staffed, Changes;
    var a, b := DoSetMember(2, Member(1, true)), DoSetMember(10, Member(1, true));
    var c, d := DoAssign(7, Grant(1, 2, 3, None, None, None, true, true)), DoCreate(4, 5, 1, 2, e, 100);
    StaffSteps(a, b, c);
    CreateStep(e);
    RunInOrder(World(NO_ROWS, 0), a, b, c, d);
    history := [Timed(0, a), Timed(0, b), Timed(0, c), Timed(0, d)];
  }

  lemma RunInOrder(w: World, a: Op, b: Op, c: Op, d: Op)
    requires !a.DoSweep? && !b.DoSweep? && !c.DoSweep? && !d.DoSweep?
    ensures Run(w, [Timed(0, a), Timed(0, b), Timed(0, c), Timed(0, d)])
            == World(Apply(Apply(Apply(Apply(w.tables, w.now, a), w.now, b), w.now, c), w.now, d), w.now)
  {
    hide Run, Changes, Apply;
    FourSteps(w, Timed(0, a), Timed(0, b), Timed(0, c), Timed(0, d), 0);
  }

  lemma RevokeStep(d: PolicyDecision, op: Op)
    requires op == DoRevoke(1, 2, 7)
    ensures var t := Apply(Setup(d), 0, op);
            && 4 in t.intents && t.intents[4].status == Cancelled && t.intents[4].orgId == 1
            && 5 in t.requests && t.requests[5] == Request(4, 1, [], 100, Pending) && t.decisions == map[]
            && 10 in t.members && t.members[10] == Member(1, true)
  {
  }

  lemma ApprovalStep(t: Tables, op: Op)
    requires op == DoDecide(5, 10, Approve) && 5 in t.requests && t.requests[5] == Request(4, 1, [], 100, Pending)
    requires 4 in t.intents && t.intents[4].orgId == 1 && t.decisions == map[]
    requires 10 in t.members && t.members[10] == Member(1, true)
    ensures var u := Apply(t, 0, op);
            4 in u.intents && u.intents[4].status == ReadyToSign
  {
    hide ApproversOf;
    assert ApproversOf(t.decisions, 5) == {} by {
      NobodyApproved(5);
    }
    OneMoreApproval(t.decisions, 5, 10);
    assert StatusAfter(PendingApproval, ApprovalCompleted) == ReadyToSign;
  }

  lemma NobodyApproved(r: Id)
    ensures ApproversOf(map[], r) == {}
  {
  }

  // The revocation and the late approval.
  lemma CancelledAndRevived(d: PolicyDecision, a: Timed, b: Timed)
    requires a == Timed(0, DoRevoke(1, 2, 7)) && b == Timed(0, DoDecide(5, 10, Approve))
    ensures StatusIs(Next(World(Setup(d), 0), a), 4, Cancelled)
    ensures StatusIs(Next(Next(World(Setup(d), 0), a), b), 4, ReadyToSign)
  {
    hide Apply, Setup;
    RevokeStep(d, a.op);
    ApprovalStep(Apply(Setup(d), 0, a.op), b.op);
  }

  // The proposal and the poll.
  lemma ProposedAndExecuted(w: World, c: Timed, d: Timed)
    requires StatusIs(w, 4, ReadyToSign)
    requires c == Timed(0, DoPropose(4, true, SafeAccepted(""))) && d == Timed(0, DoPoll(4, ChainExecuted(""), 1))
    ensures StatusIs(Next(w, c), 4, Submitted) && StatusIs(Next(Next(w, c), d), 4, Executed)
  {
    assert StatusAfter(ReadyToSign, Proposed) == Submitted;
    assert StatusAfter(Submitted, OnchainSuccess) == Executed;
  }

  /** Some intent's status does change four times: cancelled, revived by a late quorum, submitted, executed. */
  lemma FourChangesHappen() returns (history: seq<Timed>, steps: seq<Timed>, i: Id)
    ensures i in Run(World(NO_ROWS, 0), history).tables.intents
    ensures Changes(Run(World(NO_ROWS, 0), history), steps, i) == 4
  {
    Races.OneDollarDecisions();
    history, steps := FourChangesOf(Races.OneDollar([RequireApproval(1, None)]));
    i := 4;
  }

  lemma FourChangesOf(e: Evaluation) returns (history: seq<Timed>, steps: seq<Timed>)
    requires CountsPositive(e.rules) && AsksOne(EvaluateIntent(e))
    ensures 4 in Run(World(NO_ROWS, 0), history).tables.intents
    ensures Changes(Run(World(NO_ROWS, 0), history), steps, 4) == 4
  {
    hide Run, Next, EvaluateIntent, Changes;
    history := SetupIsReachable(e);
    var w := World(Setup(EvaluateIntent(e)), 0);
    var a, b := Timed(0, DoRevoke(1, 2, 7)), Timed(0, DoDecide(5, 10, Approve));
    var c, d := Timed(0, DoPropose(4, true, SafeAccepted(""))), Timed(0, DoPoll(4, ChainExecuted(""), 1));
    CancelledAndRevived(EvaluateIntent(e), a, b);
    ProposedAndExecuted(Next(Next(w, a), b), c, d);
    FourDifferent(w, a, b, c, d, 4);
    steps := [a, b, c, d];
  }
}
