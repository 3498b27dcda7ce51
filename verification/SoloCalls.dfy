/**
 * The two granularities describe the same code: a call whose statements run without interference does
 * to the tables exactly what the one-step form of the service method does.
 */
module SoloCalls {
  import opened Prelude
  import opened PolicyEngine
  import opened IntentStateMachine
  import opened PolicyEvaluation
  import opened Store
  import opened Steps
  import opened Interleaving

  // The tables and the call after the call's next statements, with nothing in between.
  function Solo(t: Tables, now: int, c: Option<Call>, inputs: seq<Input>): (Tables, Option<Call>)
    decreases |inputs|
  {
    if c.None? || inputs == [] then (t, c)
    else Solo(Effect(t, c.value, inputs[0]), now, After(t, now, c.value, inputs[0]), inputs[1..])
  }

  lemma SoloStep(t: Tables, now: int, c: Call, input: Input, rest: seq<Input>)
    ensures Solo(t, now, Some(c), [input] + rest) == Solo(Effect(t, c, input), now, After(t, now, c, input), rest)
  {
    assert ([input] + rest)[1..] == rest;
  }

  lemma SoloEnds(t: Tables, now: int, rest: seq<Input>)
    ensures Solo(t, now, None, rest) == (t, None)
  {
  }

  function Continues(p: Id, inputs: seq<Input>): seq<Action> {
    seq(|inputs|, i requires 0 <= i < |inputs| => Continue(p, inputs[i]))
  }

  lemma {:induction false} ExecFromFront(s: State, a: Action, actions: seq<Action>)
    ensures Exec(s, [a] + actions) == Exec(Next(s, a), actions)
  {
    hide Next;
    if actions == [] {
      assert ([a] + actions)[..0] == [];
      assert Exec(s, []) == s;
    } else {
      var front := actions[..|actions| - 1];
      assert ([a] + actions)[..|actions|] == [a] + front;
      ExecFromFront(s, a, front);
    }
  }

  /** Running only call p in the interleaved machine is the solo run of p; the other calls stay put. */
  lemma {:induction false} ContinuingAlone(s: State, p: Id, inputs: seq<Input>)
    requires p in s.calls
    ensures var (t, c) := Solo(s.tables, s.now, Some(s.calls[p]), inputs);
            Exec(s, Continues(p, inputs)) == State(t, s.now, SetCall(s.calls, p, c))
    decreases |inputs|
  {
    hide Effect, After;
    if inputs == [] {
      assert SetCall(s.calls, p, Some(s.calls[p])) == s.calls;
    } else {
      assert Continues(p, inputs) == [Continue(p, inputs[0])] + Continues(p, inputs[1..]);
      ExecFromFront(s, Continue(p, inputs[0]), Continues(p, inputs[1..]));
      var u := Next(s, Continue(p, inputs[0]));
      if p in u.calls {
        ContinuingAlone(u, p, inputs[1..]);
        var (t, c) := Solo(u.tables, u.now, Some(u.calls[p]), inputs[1..]);
        assert SetCall(u.calls, p, c) == SetCall(s.calls, p, c);
      } else {
        NothingToContinue(u, p, inputs[1..]);
      }
    }
  }

  lemma {:induction false} NothingToContinue(s: State, p: Id, inputs: seq<Input>)
    requires p !in s.calls
    ensures Exec(s, Continues(p, inputs)) == s
  {
    if inputs != [] {
      assert Continues(p, inputs)[..|inputs| - 1] == Continues(p, inputs[..|inputs| - 1]);
      NothingToContinue(s, p, inputs[..|inputs| - 1]);
    }
  }

  const SIX: seq<Input> := [NoInput, NoInput, NoInput, NoInput, NoInput, NoInput]

  // recordDecision after its first read, statement by statement.
  lemma DecideSolo(t: Tables, now: int, r: Id, m: Id, vote: Vote)
    requires r in t.requests && t.requests[r].status.Pending? && t.requests[r].intentId in t.intents
    ensures Solo(t, now, Started(t, now, StartDecide(0, r, m, vote)), SIX) == (RecordDecision(t, now, r, m, vote), None)
  {
    hide EligibleApprovers, ApproversOf, Solo;
    var seen := t.requests[r];
    var c := DecideRead(r, m, vote, seen, t.intents[seen.intentId].orgId);
    var rest5, rest4, rest3 := SIX[1..], SIX[2..], SIX[3..];
    assert SIX == [NoInput] + rest5 && rest5 == [NoInput] + rest4 && rest4 == [NoInput] + rest3;
    SoloStep(t, now, c, NoInput, rest5);
    SoloStep(t, now, DecideEligible(r, m, vote, seen), NoInput, rest4);
    SoloStep(t, now, DecideFresh(r, m, vote, seen), NoInput, rest3);
    SoloEnds(t, now, rest5);
    SoloEnds(t, now, rest4);
    DecideTailSolo(PutDecision(t, r, m, vote), now, r, m, vote, seen);
  }

  lemma DecideTailSolo(voted: Tables, now: int, r: Id, m: Id, vote: Vote, seen: Request)
    requires r in voted.requests && voted.requests[r] == seen
    ensures Solo(voted, now, Some(DecideInserted(r, m, vote, seen)), SIX[3..]) ==
            (if vote.Reject? then Settle(voted, r, Rejected, StatusAfter(PendingApproval, ApprovalRejected))
             else if IsQuorumMet(CountApprovals(voted.decisions, r), seen.requiredCount)
             then Settle(voted, r, Fulfilled, StatusAfter(PendingApproval, ApprovalCompleted))
             else voted, None)
  {
    hide EligibleApprovers, ApproversOf, Solo;
    var rest2, rest1, rest0 := SIX[4..], SIX[5..], SIX[6..];
    assert SIX[3..] == [NoInput] + rest2 && rest2 == [NoInput] + rest1 && rest1 == [NoInput] + rest0;
    SoloStep(voted, now, DecideInserted(r, m, vote, seen), NoInput, rest2);
    SoloEnds(voted, now, rest2);
    var rejected := PutRequestStatus(voted, r, Rejected);
    SoloStep(rejected, now, DecideClosed(r, seen.intentId, Rejected), NoInput, rest1);
    SoloEnds(Effect(rejected, DecideClosed(r, seen.intentId, Rejected), NoInput), now, rest1);
    SoloStep(voted, now, DecideQuorum(r, seen.intentId), NoInput, rest1);
    var fulfilled := PutRequestStatus(voted, r, Fulfilled);
    SoloStep(fulfilled, now, DecideClosed(r, seen.intentId, Fulfilled), NoInput, rest0);
    SoloEnds(Effect(fulfilled, DecideClosed(r, seen.intentId, Fulfilled), NoInput), now, rest0);
  }

  /** recordDecision alone is its one-step form. */
  lemma DecideAloneIsAtomic(s: State, p: Id, r: Id, m: Id, vote: Vote)
    requires p !in s.calls && (r in s.tables.requests ==> s.tables.requests[r].intentId in s.tables.intents)
    ensures Exec(s, [StartDecide(p, r, m, vote)] + Continues(p, SIX)) ==
            s.(tables := RecordDecision(s.tables, s.now, r, m, vote))
  {
    hide Solo, EligibleApprovers, ApproversOf, Exec;
    var a := StartDecide(p, r, m, vote);
    ExecFromFront(s, a, Continues(p, SIX));
    var u := Next(s, a);
    if CanStart(s.tables, s.now, a) {
      DecideSolo(s.tables, s.now, r, m, vote);
      ContinuingAlone(u, p, SIX);
      assert s.calls[p := u.calls[p]] - {p} == s.calls;
    } else {
      NothingToContinue(u, p, SIX);
    }
  }

  /** propose alone is its one-step form. */
  lemma ProposeAloneIsAtomic(s: State, p: Id, i: Id, prepared: bool, answer: SafeAnswer)
    requires p !in s.calls
    ensures Exec(s, [StartPropose(p, i)] + Continues(p, [Safe(prepared, answer), NoInput])) ==
            s.(tables := Propose(s.tables, i, prepared, answer))
  {
    hide Exec, Solo;
    var a, inputs := StartPropose(p, i), [Safe(prepared, answer), NoInput];
    ExecFromFront(s, a, Continues(p, inputs));
    var u := Next(s, a);
    if CanStart(s.tables, s.now, a) {
      ContinuingAlone(u, p, inputs);
      SoloTwo(s.tables, s.now, ProposeRead(i), inputs[0], inputs[1]);
      assert s.calls[p := u.calls[p]] - {p} == s.calls;
    } else {
      NothingToContinue(u, p, inputs);
    }
  }

  // Calls with two statements after their first.
  lemma SoloTwo(t: Tables, now: int, c: Call, first: Input, second: Input)
    ensures var u, next := Effect(t, c, first), After(t, now, c, first);
            Solo(t, now, Some(c), [first, second]) ==
            if next.None? then (u, None)
            else (Effect(u, next.value, second), After(u, now, next.value, second))
  {
    hide Effect, After;
    var u, next := Effect(t, c, first), After(t, now, c, first);
    assert [first, second] == [first] + [second] && [second] == [second] + [];
    SoloStep(t, now, c, first, [second]);
    if next.Some? {
      SoloStep(u, now, next.value, second, []);
    }
  }

  /** A poll alone is its one-step form. */
  lemma PollAloneIsAtomic(s: State, p: Id, i: Id, answer: ChainAnswer, attempt: nat)
    requires p !in s.calls
    ensures Exec(s, [StartPoll(p, i, attempt)] + Continues(p, [Chain(answer), NoInput])) ==
            s.(tables := Poll(s.tables, i, answer, attempt))
  {
    hide Exec, Settled, Solo;
    var a, inputs := StartPoll(p, i, attempt), [Chain(answer), NoInput];
    SoloTwo(s.tables, s.now, PollRead(i, attempt), inputs[0], inputs[1]);
    ExecFromFront(s, a, Continues(p, inputs));
    var u := Next(s, a);
    if CanStart(s.tables, s.now, a) {
      ContinuingAlone(u, p, inputs);
      assert s.calls[p := u.calls[p]] - {p} == s.calls;
    } else {
      NothingToContinue(u, p, inputs);
    }
  }

  /** Creating an intent alone is its one-step form. */
  lemma CreateAloneIsAtomic(s: State, p: Id, i: Id, r: Id, org: Id, m: Id, e: Evaluation, expiresAt: int)
    requires p !in s.calls && i !in s.tables.intents && r !in s.tables.requests && CountsPositive(e.rules)
    ensures Exec(s, [StartCreate(p, i, org, m, e, expiresAt)] + Continues(p, [FreshRequest(r), NoInput])) ==
            s.(tables := CreateIntent(s.tables, i, r, org, m, EvaluateIntent(e), expiresAt))
  {
    hide Exec, EvaluateIntent, Solo, CreateForIntent, CountsPositive;
    var a, inputs := StartCreate(p, i, org, m, e, expiresAt), [FreshRequest(r), NoInput];
    ExecFromFront(s, a, Continues(p, inputs));
    var u := Next(s, a);
    if EvaluateIntent(e).decision.NeedApproval? {
      EngineNamesRequirement(e);
      RequestSolo(u.tables, s.now, i, r, EvaluateIntent(e), expiresAt);
      ContinuingAlone(u, p, inputs);
      assert s.calls[p := u.calls[p]] - {p} == s.calls;
    } else {
      NothingRequested(u.tables, i, r, EvaluateIntent(e), expiresAt);
      assert s.calls - {p} == s.calls;
      NothingToContinue(u, p, inputs);
    }
  }

  lemma RequestSolo(t: Tables, now: int, i: Id, r: Id, d: PolicyDecision, expiresAt: int)
    requires d.decision.NeedApproval? && d.metadata.Approval? && r !in t.requests
    ensures Solo(t, now, Some(CreateInserted(i, d, expiresAt)), [FreshRequest(r), NoInput]) ==
            (CreateForIntent(t, i, r, d, expiresAt), None)
  {
    hide Solo;
    SoloTwo(t, now, CreateInserted(i, d, expiresAt), FreshRequest(r), NoInput);
  }

  lemma NothingRequested(t: Tables, i: Id, r: Id, d: PolicyDecision, expiresAt: int)
    requires !d.decision.NeedApproval?
    ensures CreateForIntent(t, i, r, d, expiresAt) == t
  {
  }

  lemma EngineNamesRequirement(e: Evaluation)
    requires CountsPositive(e.rules)
    ensures EvaluateIntent(e).decision.NeedApproval? ==> EvaluateIntent(e).metadata.Approval?
  {
    if EvaluateIntent(e).decision.NeedApproval? {
      ApprovalRequirementCovers(e);
    }
  }

  // ---- The sweep over stale requests ----

  ghost predicate AllPending(t: Tables, stale: seq<Id>) {
    && (forall r :: r in stale ==>
          r in t.requests && t.requests[r].status.Pending? && t.requests[r].intentId in t.intents)
    && (forall i, j :: 0 <= i < j < |stale| ==> stale[i] != stale[j])
  }

  function Ids(stale: seq<Id>): set<Id> {
    set r | r in stale
  }

  // Expiring one request and then a set of others is expiring all of them at once.
  lemma ExpireOneMore(t: Tables, r: Id, others: set<Id>)
    requires r in t.requests && t.requests[r].status.Pending? && t.requests[r].intentId in t.intents && r !in others
    ensures ExpireRequests(ExpireRequest(t, r), others) == ExpireRequests(t, {r} + others)
  {
    var u := ExpireRequest(t, r);
    assert u.requests == t.requests[r := t.requests[r].(status := Expired)];
    forall i | i in t.intents
      ensures i in IntentsOf(t, {r} + others) <==> i == t.requests[r].intentId || i in IntentsOf(u, others)
    {
      if i in IntentsOf(t, {r} + others) && i != t.requests[r].intentId {
        var q :| q in {r} + others && q in t.requests && t.requests[q].intentId == i;
        assert q in others && q in u.requests;
      }
    }
    assert ExpireRequests(u, others).requests == ExpireRequests(t, {r} + others).requests;
    assert ExpireRequests(u, others).intents == ExpireRequests(t, {r} + others).intents;
  }

  lemma ExpireNone(t: Tables)
    ensures ExpireRequests(t, {}) == t
  {
    assert ExpireRequests(t, {}).requests == t.requests;
    assert ExpireRequests(t, {}).intents == t.intents;
  }

  function NoInputs(n: nat): seq<Input> {
    seq(n, i => NoInput)
  }

  lemma {:induction false} SweepSolo(t: Tables, now: int, stale: seq<Id>)
    requires AllPending(t, stale)
    ensures Solo(t, now, Some(SweepList(stale)), NoInputs(3 * |stale| + 1)) == (ExpireRequests(t, Ids(stale)), None)
    decreases |stale|
  {
    hide Solo;
    var n := 3 * |stale| + 1;
    if stale == [] {
      assert NoInputs(n) == [NoInput] + NoInputs(n - 1);
      SoloStep(t, now, SweepList(stale), NoInput, NoInputs(n - 1));
      SoloEnds(t, now, NoInputs(n - 1));
      assert Ids(stale) == {};
      ExpireNone(t);
    } else {
      var r, rest := stale[0], stale[1..];
      var i, u := t.requests[r].intentId, ExpireRequest(t, r);
      ExpireHeadSolo(t, now, r, rest, NoInputs(n - 3));
      assert [NoInput, NoInput, NoInput] + NoInputs(n - 3) == NoInputs(n);
      SweepSolo(u, now, rest);
      ExpireOneMore(t, r, Ids(rest));
      assert Ids(stale) == {r} + Ids(rest);
      assert stale == [r] + rest;
    }
  }

  lemma ExpireHeadSolo(t: Tables, now: int, r: Id, rest: seq<Id>, inputs: seq<Input>)
    requires r in t.requests && t.requests[r].status.Pending? && t.requests[r].intentId in t.intents
    ensures Solo(t, now, Some(SweepList([r] + rest)), [NoInput, NoInput, NoInput] + inputs) ==
            Solo(ExpireRequest(t, r), now, Some(SweepList(rest)), inputs)
  {
    hide Solo;
    var i := t.requests[r].intentId;
    assert [NoInput, NoInput, NoInput] + inputs == [NoInput] + ([NoInput] + ([NoInput] + inputs));
    SoloStep(t, now, SweepList([r] + rest), NoInput, [NoInput] + ([NoInput] + inputs));
    assert ([r] + rest)[1..] == rest;
    SoloStep(t, now, ExpireRead(r, i, rest), NoInput, [NoInput] + inputs);
    SoloStep(PutRequestStatus(t, r, Expired), now, ExpireMarked(i, rest), NoInput, inputs);
  }

  /** The sweep alone is its one-step form. */
  lemma SweepAloneIsAtomic(s: State, p: Id, stale: seq<Id>)
    requires p !in s.calls && CanStart(s.tables, s.now, StartSweep(p, stale))
    requires forall r :: r in s.tables.requests ==> s.tables.requests[r].intentId in s.tables.intents
    ensures Exec(s, [StartSweep(p, stale)] + Continues(p, NoInputs(3 * |stale| + 1))) ==
            s.(tables := ExpireRequests(s.tables, StaleRequests(s.tables, s.now)))
  {
    hide Exec, Solo;
    var a, inputs := StartSweep(p, stale), NoInputs(3 * |stale| + 1);
    ExecFromFront(s, a, Continues(p, inputs));
    var u := Next(s, a);
    ContinuingAlone(u, p, inputs);
    SweepSolo(s.tables, s.now, stale);
    assert Ids(stale) == StaleRequests(s.tables, s.now);
    assert s.calls[p := u.calls[p]] - {p} == s.calls;
  }
}
