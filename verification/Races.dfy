/**
 * What interleaving does break: runs in which calls overwrite each other, and the exact condition under
 * which a status that no call should leave can still be overwritten.
 */
module Races {
  import opened Prelude
  import opened PolicyEngine
  import opened IntentStateMachine
  import opened PolicyEvaluation
  import opened Store
  import opened Steps
  import opened Interleaving
  import opened AuthorisationSafety
  import opened SoloCalls

  lemma {:induction false} ExecConcat(s: State, xs: seq<Action>, ys: seq<Action>)
    ensures Exec(s, xs + ys) == Exec(Exec(s, xs), ys)
  {
    hide Next;
    if ys == [] {
      assert xs + ys == xs;
    } else {
      assert (xs + ys)[..|xs + ys| - 1] == xs + ys[..|ys| - 1];
      ExecConcat(s, xs, ys[..|ys| - 1]);
    }
  }

  // ---- When can a status be overwritten? ----

  // The intent status that the call's next statement writes.
  function PendingWrite(t: Tables, c: Call): Option<(Id, IntentStatus)> {
    match c
    case DecideClosed(_, i, closedAs) => Some((i, if closedAs.Fulfilled? then ReadyToSign else Cancelled))
    case ExpireMarked(i, _) => Some((i, Cancelled))
    case ProposeAnswered(i, answer) =>
      if answer.SafeAccepted? then Some((i, Submitted)) else if answer.SafeRejected? then Some((i, Failed)) else None
    case PollAnswered(i, answer, attempt) =>
      if i in t.intents && Settled(t.intents[i], answer, attempt).Some?
      then Some((i, Settled(t.intents[i], answer, attempt).value.status)) else None
    case CreateRequested(i) => Some((i, PendingApproval))
    case _ => None
  }

  ghost predicate WritesAsPending(t: Tables, c: Call, input: Input, i: Id)
    requires i in t.intents
  {
    var u := Effect(t, c, input);
    && i in u.intents
    && u.intents[i].status == match PendingWrite(t, c)
                              case Some((j, status)) => if j == i then status else t.intents[i].status
                              case None => t.intents[i].status
  }

  lemma ProposalOnStatus(t: Tables, j: Id, answer: SafeAnswer, input: Input, i: Id)
    requires i in t.intents
    ensures WritesAsPending(t, ProposeAnswered(j, answer), input, i)
  {
    assert StatusAfter(ReadyToSign, Proposed) == Submitted;
  }

  lemma PollOnStatus(t: Tables, j: Id, answer: ChainAnswer, attempt: nat, input: Input, i: Id)
    requires i in t.intents
    ensures WritesAsPending(t, PollAnswered(j, answer, attempt), input, i)
  {
    hide Settled;
  }

  lemma EffectOnStatus(t: Tables, c: Call, input: Input, i: Id)
    requires i in t.intents
    ensures WritesAsPending(t, c, input, i)
  {
    if c.ProposeAnswered? {
      ProposalOnStatus(t, c.intentId, c.safe, input, i);
    } else if c.PollAnswered? {
      PollOnStatus(t, c.intentId, c.chain, c.attempt, input, i);
    } else {
      hide Settled;
      assert StatusAfter(PendingApproval, ApprovalCompleted) == ReadyToSign;
      assert StatusAfter(PendingApproval, ApprovalRejected) == Cancelled;
      assert StatusAfter(PendingApproval, ApprovalExpired) == Cancelled;
    }
  }

  ghost predicate Overwriter(s: State, p: Id, i: Id)
    requires i in s.tables.intents
  {
    p in s.calls && match PendingWrite(s.tables, s.calls[p])
                    case Some((j, status)) => j == i && status != s.tables.intents[i].status
                    case None => false
  }

  ghost predicate Rewritten(s: State, a: Action, i: Id)
    requires i in s.tables.intents
  {
    i in Next(s, a).tables.intents && Next(s, a).tables.intents[i].status != s.tables.intents[i].status
  }

  /**
   * A status that cancellation leaves alone (denied, submitted, executed, failed, cancelled) is changed by
   * some next action exactly when a call in flight has a different status write for that intent pending.
   */
  lemma OverwrittenIffWritePending(s: State, i: Id)
    requires i in s.tables.intents && !Cancellable(s.tables.intents[i].status)
    ensures (exists a :: Rewritten(s, a, i)) <==> (exists p: Id :: Overwriter(s, p, i))
  {
    forall a | Rewritten(s, a, i)
      ensures exists p: Id :: Overwriter(s, p, i)
    {
      if a.Continue? && a.call in s.calls {
        EffectOnStatus(s.tables, s.calls[a.call], a.input, i);
        assert Overwriter(s, a.call, i);
      } else {
        OnlyStatementsRewrite(s, a, i);
      }
    }
    forall p: Id | Overwriter(s, p, i)
      ensures exists a :: Rewritten(s, a, i)
    {
      EffectOnStatus(s.tables, s.calls[p], NoInput, i);
      assert Rewritten(s, Continue(p, NoInput), i);
    }
  }

  lemma OnlyStatementsRewrite(s: State, a: Action, i: Id)
    requires i in s.tables.intents && !Cancellable(s.tables.intents[i].status)
    requires !a.Continue? || a.call !in s.calls
    ensures !Rewritten(s, a, i)
  {
    hide EvaluateIntent;
  }

  // ---- A rejection and a quorum overwrite each other ----

  lemma Phase(s: State, p: Id, inputs: seq<Input>, t: Tables, c: Option<Call>)
    requires p in s.calls && Solo(s.tables, s.now, Some(s.calls[p]), inputs) == (t, c)
    ensures Exec(s, Continues(p, inputs)) == State(t, s.now, SetCall(s.calls, p, c))
  {
    ContinuingAlone(s, p, inputs);
  }

  lemma StartIs(s: State, a: Action)
    requires a.StartDecide? || a.StartPropose?
    requires a.call !in s.calls && CanStart(s.tables, s.now, a)
    ensures Exec(s, [a]) == State(s.tables, s.now, s.calls[a.call := Started(s.tables, s.now, a).value])
  {
    assert [a][..0] == [];
  }

  // The approver's call runs alone up to its count of a quorum.
  lemma ApproverCounts(s: State, p: Id, r: Id, yes: Id) returns (actions: seq<Action>)
    requires p !in s.calls && EligibleIn(s, r, yes)
    requires s.tables.requests[r].status.Pending? && s.tables.requests[r].requiredCount == 1
    requires (r, yes) !in s.tables.decisions
    ensures Exec(s, actions) == State(PutDecision(s.tables, r, yes, Approve), s.now,
                                      s.calls[p := DecideQuorum(r, s.tables.requests[r].intentId)])
  {
    hide Solo, Exec, EligibleApprovers, ApproversOf;
    var q0 := s.tables.requests[r];
    var org := s.tables.intents[q0.intentId].orgId;
    var four := [NoInput, NoInput, NoInput, NoInput];
    var a := StartDecide(p, r, yes, Approve);
    StartIs(s, a);
    var s1 := Exec(s, [a]);
    var t1 := PutDecision(s.tables, r, yes, Approve);
    OneMoreApproval(s.tables.decisions, r, yes);
    VoterReads(s.tables, s.now, r, yes, Approve, q0, org, [NoInput]);
    SoloStep(t1, s.now, DecideInserted(r, yes, Approve, q0), NoInput, []);
    assert [NoInput] == [NoInput] + [] && four == [NoInput, NoInput, NoInput] + [NoInput];
    SoloStops(t1, s.now, Some(DecideQuorum(r, q0.intentId)));
    Phase(s1, p, four, t1, Some(DecideQuorum(r, q0.intentId)));
    actions := [a] + Continues(p, four);
    ExecConcat(s, [a], Continues(p, four));
  }

  // The rejecter's call runs alone up to its insert.
  lemma RejecterInserts(s: State, q: Id, r: Id, no: Id) returns (actions: seq<Action>)
    requires q !in s.calls && EligibleIn(s, r, no)
    requires s.tables.requests[r].status.Pending? && (r, no) !in s.tables.decisions
    ensures Exec(s, actions) == State(PutDecision(s.tables, r, no, Reject), s.now,
                                      s.calls[q := DecideInserted(r, no, Reject, s.tables.requests[r])])
  {
    hide Solo, Exec, EligibleApprovers, ApproversOf;
    var q0 := s.tables.requests[r];
    var org := s.tables.intents[q0.intentId].orgId;
    var three := [NoInput, NoInput, NoInput];
    var b := StartDecide(q, r, no, Reject);
    StartIs(s, b);
    var s1 := Exec(s, [b]);
    var t1 := PutDecision(s.tables, r, no, Reject);
    VoterReads(s.tables, s.now, r, no, Reject, q0, org, []);
    SoloStops(t1, s.now, Some(DecideInserted(r, no, Reject, q0)));
    assert three == three + [];
    Phase(s1, q, three, t1, Some(DecideInserted(r, no, Reject, q0)));
    actions := [b] + Continues(q, three);
    ExecConcat(s, [b], Continues(q, three));
  }

  // Both voters have inserted their decisions; the approver has counted a quorum.
  lemma BothVoted(s: State, p: Id, q: Id, r: Id, yes: Id, no: Id) returns (actions: seq<Action>)
    requires p != q && p !in s.calls && q !in s.calls && yes != no
    requires EligibleIn(s, r, yes) && EligibleIn(s, r, no)
    requires s.tables.requests[r].status.Pending? && s.tables.requests[r].requiredCount == 1
    requires forall m :: (r, m) !in s.tables.decisions
    ensures var q0 := s.tables.requests[r];
            Exec(s, actions) == State(PutDecision(PutDecision(s.tables, r, yes, Approve), r, no, Reject), s.now,
                                      s.calls[p := DecideQuorum(r, q0.intentId)]
                                             [q := DecideInserted(r, no, Reject, q0)])
  {
    hide Exec, EligibleApprovers;
    var approve := ApproverCounts(s, p, r, yes);
    var s1, q0 := Exec(s, approve), s.tables.requests[r];
    SameEligible(s.tables, s1.tables, s.now, s.tables.intents[q0.intentId].orgId, q0.approverRoleIds);
    var reject := RejecterInserts(s1, q, r, no);
    actions := approve + reject;
    ExecConcat(s, approve, reject);
  }

  lemma SoloStops(t: Tables, now: int, c: Option<Call>)
    ensures Solo(t, now, c, []) == (t, c)
  {
  }

  lemma SameEligible(t: Tables, u: Tables, now: int, org: Id, roleIds: seq<Id>)
    requires u.members == t.members && u.assignments == t.assignments
    ensures EligibleApprovers(u, now, org, roleIds) == EligibleApprovers(t, now, org, roleIds)
  {
  }

  // The first three statements of an eligible member's first vote end with its insert.
  lemma VoterReads(t: Tables, now: int, r: Id, m: Id, vote: Vote, seen: Request, org: Id, rest: seq<Input>)
    requires m in EligibleApprovers(t, now, org, seen.approverRoleIds) && (r, m) !in t.decisions
    ensures Solo(t, now, Some(DecideRead(r, m, vote, seen, org)), [NoInput, NoInput, NoInput] + rest) ==
            Solo(PutDecision(t, r, m, vote), now, Some(DecideInserted(r, m, vote, seen)), rest)
  {
    hide Solo, EligibleApprovers;
    assert [NoInput, NoInput, NoInput] + rest == [NoInput] + ([NoInput] + ([NoInput] + rest));
    SoloStep(t, now, DecideRead(r, m, vote, seen, org), NoInput, [NoInput] + ([NoInput] + rest));
    SoloStep(t, now, DecideEligible(r, m, vote, seen), NoInput, [NoInput] + rest);
    SoloStep(t, now, DecideFresh(r, m, vote, seen), NoInput, rest);
  }

  /**
   * From any state in which two members may decide on a request that needs one approval, an approval and
   * a rejection can interleave so that the request ends rejected while its intent is ready to sign.
   */
  lemma RejectedYetReady(s: State, p: Id, q: Id, r: Id, yes: Id, no: Id) returns (actions: seq<Action>)
    requires p != q && p !in s.calls && q !in s.calls && yes != no
    requires EligibleIn(s, r, yes) && EligibleIn(s, r, no)
    requires s.tables.requests[r].status.Pending? && s.tables.requests[r].requiredCount == 1
    requires forall m :: (r, m) !in s.tables.decisions
    ensures var u := Exec(s, actions);
            && r in u.tables.requests && u.tables.requests[r] == s.tables.requests[r].(status := Rejected)
            && s.tables.requests[r].intentId in u.tables.intents
            && u.tables.intents[s.tables.requests[r].intentId].status.ReadyToSign?
            && u.calls == s.calls
  {
    hide Solo, Exec;
    var q0 := s.tables.requests[r];
    var i := q0.intentId;
    var voted := BothVoted(s, p, q, r, yes, no);
    var s0 := Exec(s, voted);
    var t0 := s0.tables;
    var one, two := [NoInput], [NoInput, NoInput];

    var t1 := PutRequestStatus(t0, r, Fulfilled);
    assert one == [NoInput] + [];
    SoloStep(t0, s.now, DecideQuorum(r, i), NoInput, []);
    SoloStops(t1, s.now, Some(DecideClosed(r, i, Fulfilled)));
    Phase(s0, p, one, t1, Some(DecideClosed(r, i, Fulfilled)));
    var s1 := Exec(s0, Continues(p, one));

    var t2 := PutIntentStatus(PutRequestStatus(t1, r, Rejected), i, Cancelled);
    SoloTwo(t1, s.now, DecideInserted(r, no, Reject, q0), NoInput, NoInput);
    assert StatusAfter(PendingApproval, ApprovalRejected) == Cancelled;
    Phase(s1, q, two, t2, None);
    var s2 := Exec(s1, Continues(q, two));

    var t3 := PutIntentStatus(t2, i, ReadyToSign);
    assert StatusAfter(PendingApproval, ApprovalCompleted) == ReadyToSign;
    SoloStep(t2, s.now, DecideClosed(r, i, Fulfilled), NoInput, []);
    SoloEnds(t3, s.now, []);
    Phase(s2, p, one, t3, None);
    var s3 := Exec(s2, Continues(p, one));
    assert s3.calls == s.calls;

    actions := voted + Continues(p, one) + Continues(q, two) + Continues(p, one);
    ExecConcat(s, voted, Continues(p, one));
    ExecConcat(s, voted + Continues(p, one), Continues(q, two));
    ExecConcat(s, voted + Continues(p, one) + Continues(q, two), Continues(p, one));
  }

  // ---- A second proposal overwrites a later status ----

  /**
   * From any state with an intent ready to sign, two proposals and a poll can interleave so that the
   * intent is executed and then submitted again.
   */
  lemma ExecutedThenSubmittedAgain(s: State, p: Id, q: Id, i: Id)
    returns (actions: seq<Action>, more: seq<Action>)
    requires p != q && p !in s.calls && q !in s.calls
    requires i in s.tables.intents && s.tables.intents[i].status.ReadyToSign?
    ensures i in Exec(s, actions).tables.intents && Exec(s, actions).tables.intents[i].status.Executed?
    ensures i in Exec(s, actions + more).tables.intents && Exec(s, actions + more).tables.intents[i].status.Submitted?
  {
    hide Solo, Exec, Settled;
    var a := StartPropose(q, i);
    StartIs(s, a);
    var s1 := Exec(s, [a]);

    var propose := [StartPropose(p, i)] + Continues(p, [Safe(true, SafeAccepted("first")), NoInput]);
    ProposeAloneIsAtomic(s1, p, i, true, SafeAccepted("first"));
    var s2 := Exec(s1, propose);
    assert StatusAfter(ReadyToSign, Proposed) == Submitted;

    var poll := [StartPoll(p, i, 1)] + Continues(p, [Chain(ChainExecuted("0x1")), NoInput]);
    PollAloneIsAtomic(s2, p, i, ChainExecuted("0x1"), 1);
    ExecutedByPoll(s2.tables.intents[i], "0x1");
    var s3 := Exec(s2, poll);

    var inputs := [Safe(true, SafeAccepted("second")), NoInput];
    more := Continues(q, inputs);
    SoloTwo(s3.tables, s3.now, ProposeRead(i), inputs[0], inputs[1]);
    ContinuingAlone(s3, q, inputs);

    actions := [a] + propose + poll;
    ExecConcat(s, [a], propose);
    ExecConcat(s, [a] + propose, poll);
    ExecConcat(s, actions, more);
  }

  lemma ExecutedByPoll(intent: Intent, hash: string)
    ensures Settled(intent, ChainExecuted(hash), 1) == Some(intent.(status := Executed, txHash := Some(hash)))
  {
  }

  // ---- The races start from empty tables ----

  const QUOTE: Price := Quoted(1.0)

  // An evaluation of one dollar by member 2 of organisation 1 under the given rules.
  function OneDollar(rules: seq<PolicyRule>): Evaluation {
    Evaluation(EvaluationContext(1, 2, 3, "0xabc", None, 0.0, 0, None), rules, QUOTE, Some(1.0))
  }

  lemma OneApprovalNeeded(ctx: EvaluationContext)
    requires ctx.amountUsd == Some(1.0)
    ensures var d := Evaluate(ctx, [RequireApproval(1, None)]);
            d.decision.NeedApproval? && d.metadata == Approval(ApprovalRequirement(1, None))
  {
    hide Merge;
    var rule := RequireApproval(1, None);
    var result := RequireApprovalHandler(ctx, 1, None);
    assert Results(ctx, [rule]) == [result];
    MergeOfOneApproval(result, rule, ApprovalRequirement(1, None));
  }

  lemma MergeOfOneApproval(result: RuleResult, rule: PolicyRule, approval: ApprovalRequirement)
    requires result.decision.NeedApproval? && result.metadata == Approval(approval)
    ensures var d := Merge([result], [rule]);
            d.decision.NeedApproval? && d.metadata == Approval(approval)
  {
    hide Strictest;
    assert [result][..1] == [result] && [result][..0] == [];
    assert Approvals([result]) == [approval] && [approval] == [] + [approval];
    StrictestOfOneMore([], approval);
    assert Strictest([]) == None by {
      StrictestOfNone();
    }
  }

  lemma StrictestOfNone()
    ensures Strictest([]) == None
  {
  }

  lemma OneDollarDecisions()
    ensures EvaluateIntent(OneDollar([])).decision.Allow?
    ensures var d := EvaluateIntent(OneDollar([RequireApproval(1, None)]));
            d.decision.NeedApproval? && d.metadata == Approval(ApprovalRequirement(1, None))
  {
    OneApprovalNeeded(OneDollar([RequireApproval(1, None)]).ctx.(amountUsd := Some(1.0)));
  }

  /** A run from empty tables ends with a rejected request whose intent is ready to sign. */
  lemma RejectedYetReadyIsReachable() returns (actions: seq<Action>)
    ensures var t := Exec(Initial(0), actions).tables;
            && 5 in t.requests && t.requests[5].intentId == 4 && t.requests[5].status.Rejected?
            && 4 in t.intents && t.intents[4].status.ReadyToSign?
  {
    hide Exec, EvaluateIntent;
    OneDollarDecisions();
    var e := OneDollar([RequireApproval(1, None)]);
    var members := map[10 := Member(1, true), 11 := Member(1, true)];
    var hire := ChangeRoster(members, map[]);
    var create := [StartCreate(0, 4, 1, 2, e, 100)] + Continues(0, [FreshRequest(5), NoInput]);
    var s0 := Next(Initial(0), hire);
    OneAction(Initial(0), hire);
    CreateAloneIsAtomic(s0, 0, 4, 5, 1, 2, e, 100);
    var s1 := Exec(s0, create);
    assert s1.tables.requests[5] == Request(4, 1, [], 100, Pending);
    assert EligibleIn(s1, 5, 10) && EligibleIn(s1, 5, 11);
    var race := RejectedYetReady(s1, 0, 1, 5, 10, 11);
    actions := [hire] + create + race;
    ExecConcat(Initial(0), [hire], create);
    ExecConcat(Initial(0), [hire] + create, race);
  }

  lemma OneAction(s: State, a: Action)
    ensures Exec(s, [a]) == Next(s, a)
  {
    assert [a][..0] == [];
  }

  /** A run from empty tables executes an intent and then marks it submitted again. */
  lemma ExecutedThenSubmittedIsReachable() returns (actions: seq<Action>, more: seq<Action>)
    ensures var t := Exec(Initial(0), actions).tables;
            4 in t.intents && t.intents[4].status.Executed?
    ensures var t := Exec(Initial(0), actions + more).tables;
            4 in t.intents && t.intents[4].status.Submitted?
  {
    hide Exec, EvaluateIntent;
    OneDollarDecisions();
    var create := StartCreate(0, 4, 1, 2, OneDollar([]), 100);
    var s := Next(Initial(0), create);
    OneAction(Initial(0), create);
    var race, again := ExecutedThenSubmittedAgain(s, 0, 1, 4);
    actions, more := [create] + race, again;
    ExecConcat(Initial(0), [create], race);
    ExecConcat(Initial(0), [create], race + again);
    assert actions + more == [create] + (race + again);
  }
}
