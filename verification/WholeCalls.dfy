/**
 * Runs of the interleaved machine in which every call runs to its end before the next one starts are exactly the
 * runs of whole service calls.
 */
module WholeCalls {
  import opened Prelude
  import opened PolicyEngine
  import opened IntentStateMachine
  import opened PolicyEvaluation
  import opened Store
  import opened Steps
  import opened Interleaving
  import opened SoloCalls
  import AtomicRuns
  import Races
  import Services

  // What a run of statements is free to choose: the call's identifier, and the order in which a sweep goes on.
  datatype Choice = Choice(call: Id, order: seq<Id>)

  ghost predicate Enumerates(order: seq<Id>, ids: set<Id>) {
    (forall x :: x in order <==> x in ids) && forall i, j :: 0 <= i < j < |order| ==> order[i] != order[j]
  }

  // The order goes through all rows the sweep finds.
  ghost predicate Suits(t: Tables, now: int, op: AtomicRuns.Op, k: Choice) {
    match op
    case DoExpireStale => Enumerates(k.order, StaleRequests(t, now))
    case DoSweep(lag) => Enumerates(k.order, Due(Promote(t, now), now + lag))
    case _ => true
  }

  // The actions of ending assignments one by one, each followed by the cancellation of its holder's intents.
  function Endings(t: Tables, order: seq<Id>): seq<Action>
    requires forall a :: a in order ==> a in t.assignments
  {
    if order == [] then []
    else
      var front, a := order[..|order| - 1], order[|order| - 1];
      var u := EndAssignments(t, Ids(front));
      Endings(t, front) + [ChangeRoster(u.members, u.assignments[a := u.assignments[a].(status := Ended)]),
                           CancelByMember(u.assignments[a].memberId)]
  }

  // The actions of one call, from its start to its end.
  ghost function Body(t: Tables, now: int, op: AtomicRuns.Op, k: Choice): seq<Action>
    requires Suits(t, now, op, k)
  {
    if !AtomicRuns.Enabled(t, op) then []
    else
      match op
      case DoCreate(i, r, org, m, e, expiresAt) =>
        [StartCreate(k.call, i, org, m, e, expiresAt)] + Continues(k.call, [FreshRequest(r), NoInput])
      case DoDecide(r, m, vote) => [StartDecide(k.call, r, m, vote)] + Continues(k.call, SIX)
      case DoExpireStale => [StartSweep(k.call, k.order)] + Continues(k.call, NoInputs(3 * |k.order| + 1))
      case DoPropose(i, prepared, answer) =>
        [StartPropose(k.call, i)] + Continues(k.call, [Safe(prepared, answer), NoInput])
      case DoPoll(i, answer, attempt) => [StartPoll(k.call, i, attempt)] + Continues(k.call, [Chain(answer), NoInput])
      case DoAssign(a, g) => [ChangeRoster(t.members, Assign(t, now, a, g).assignments)]
      case DoRevoke(org, m, a) =>
        if RevokeError(t, org, m, a).Some? then []
        else [ChangeRoster(t.members, Revoke(t, now, org, m, a).assignments), CancelByMember(m)]
      case DoSweep(lag) =>
        [ChangeRoster(t.members, Promote(t, now).assignments), Tick(now + lag)] + Endings(Promote(t, now), k.order)
      case DoSetMember(m, member) => [ChangeRoster(t.members[m := member], t.assignments)]
  }

  // ---- One call ----

  lemma TwoActions(s: State, a: Action, b: Action)
    ensures Exec(s, [a]) == Next(s, a) && Exec(s, [a, b]) == Next(Next(s, a), b)
  {
    assert [a][..0] == [] && [a, b][..1] == [a];
  }

  lemma {:induction false} EndingsEnd(t: Tables, now: int, order: seq<Id>)
    requires forall a :: a in order ==> a in t.assignments
    ensures Exec(State(t, now, map[]), Endings(t, order)) == State(EndAssignments(t, Ids(order)), now, map[])
  {
    hide EndAssignments, Exec;
    if order == [] {
      Services.NoneEnded(t);
      assert Ids(order) == {};
      assert Exec(State(t, now, map[]), []) == State(t, now, map[]) by {
        NothingDone(State(t, now, map[]));
      }
    } else {
      var front, a := order[..|order| - 1], order[|order| - 1];
      EndingsEnd(t, now, front);
      var u := EndAssignments(t, Ids(front));
      EndedKeepRows(t, Ids(front));
      var one := ChangeRoster(u.members, u.assignments[a := u.assignments[a].(status := Ended)]);
      var two := CancelByMember(u.assignments[a].memberId);
      Races.ExecConcat(State(t, now, map[]), Endings(t, front), [one, two]);
      TwoActions(State(u, now, map[]), one, two);
      Services.OneMoreEnded(t, Ids(front), a);
      assert Ids(order) == Ids(front) + {a};
    }
  }

  lemma EndedKeepRows(t: Tables, due: set<Id>)
    ensures EndAssignments(t, due).assignments.Keys == t.assignments.Keys
  {
  }

  lemma NothingDone(s: State)
    ensures Exec(s, []) == s
  {
  }

  lemma SweepBody(t: Tables, now: int, lag: nat, k: Choice)
    requires Suits(t, now, AtomicRuns.DoSweep(lag), k)
    ensures Exec(State(t, now, map[]), Body(t, now, AtomicRuns.DoSweep(lag), k))
            == State(Sweep(t, now, now + lag), now + lag, map[])
  {
    hide Exec, EndAssignments, Promote, Due;
    var promoted := Promote(t, now);
    var one, two := ChangeRoster(t.members, promoted.assignments), Tick(now + lag);
    assert forall a :: a in k.order ==> a in promoted.assignments by {
      DueAreRows(promoted, now + lag);
    }
    TwoActions(State(t, now, map[]), one, two);
    PromotedRows(t, now);
    Races.ExecConcat(State(t, now, map[]), [one, two], Endings(promoted, k.order));
    EndingsEnd(promoted, now + lag, k.order);
    assert Ids(k.order) == Due(promoted, now + lag);
  }

  lemma DueAreRows(t: Tables, now: int)
    ensures forall a :: a in Due(t, now) ==> a in t.assignments
  {
  }

  lemma PromotedRows(t: Tables, now: int)
    ensures Promote(t, now) == t.(members := t.members, assignments := Promote(t, now).assignments)
  {
  }

  lemma RosterBody(t: Tables, now: int, op: AtomicRuns.Op, k: Choice)
    requires op.DoAssign? || op.DoSetMember? || op.DoRevoke?
    ensures Exec(State(t, now, map[]), Body(t, now, op, k)) == State(AtomicRuns.Apply(t, now, op), now, map[])
  {
    hide Exec, AssignError, Cancellable;
    NothingDone(State(t, now, map[]));
    if AtomicRuns.Enabled(t, op) {
      match op
      case DoAssign(a, g) =>
        TwoActions(State(t, now, map[]), ChangeRoster(t.members, Assign(t, now, a, g).assignments), Tick(now));
      case DoSetMember(m, member) =>
        TwoActions(State(t, now, map[]), ChangeRoster(t.members[m := member], t.assignments), Tick(now));
      case DoRevoke(org, m, a) =>
        TwoActions(State(t, now, map[]), ChangeRoster(t.members, Revoke(t, now, org, m, a).assignments),
                   CancelByMember(m));
    }
  }

  lemma CallBody(t: Tables, now: int, op: AtomicRuns.Op, k: Choice)
    requires op.DoCreate? || op.DoDecide? || op.DoExpireStale? || op.DoPropose? || op.DoPoll?
    requires Suits(t, now, op, k) && forall r :: r in t.requests ==> t.requests[r].intentId in t.intents
    ensures Exec(State(t, now, map[]), Body(t, now, op, k)) == State(AtomicRuns.Apply(t, now, op), now, map[])
  {
    hide Exec, CreateIntent, RecordDecision, ExpireRequests, Propose, Poll, EvaluateIntent, StaleRequests, Continues;
    var s := State(t, now, map[]);
    NothingDone(s);
    match op
    case DoCreate(i, r, org, m, e, expiresAt) =>
      if AtomicRuns.Enabled(t, op) {
        CreateAloneIsAtomic(s, k.call, i, r, org, m, e, expiresAt);
      }
    case DoDecide(r, m, vote) => DecideAloneIsAtomic(s, k.call, r, m, vote);
    case DoExpireStale => SweepAloneIsAtomic(s, k.call, k.order);
    case DoPropose(i, prepared, answer) => ProposeAloneIsAtomic(s, k.call, i, prepared, answer);
    case DoPoll(i, answer, attempt) => PollAloneIsAtomic(s, k.call, i, answer, attempt);
  }

  // ---- Runs ----

  // A step: time passes, then one call runs.
  ghost function Block(w: AtomicRuns.World, step: AtomicRuns.Timed, k: Choice): seq<Action>
    requires Suits(w.tables, w.now + step.delay, step.op, k)
  {
    [Tick(w.now + step.delay)] + Body(w.tables, w.now + step.delay, step.op, k)
  }

  lemma BlockIsStep(w: AtomicRuns.World, step: AtomicRuns.Timed, k: Choice)
    requires Suits(w.tables, w.now + step.delay, step.op, k) && AtomicRuns.JointInvariant(w.tables)
    ensures var after := AtomicRuns.Next(w, step);
            Exec(State(w.tables, w.now, map[]), Block(w, step, k)) == State(after.tables, after.now, map[])
  {
    hide Exec, Body, AtomicRuns.Apply, AtomicRuns.JointInvariant, Suits;
    var start := w.now + step.delay;
    ExecFromFront(State(w.tables, w.now, map[]), Tick(start), Body(w.tables, start, step.op, k));
    if step.op.DoSweep? {
      SweepBody(w.tables, start, step.op.lag, k);
      SweepApplies(w.tables, start, step.op.lag);
    } else if step.op.DoAssign? || step.op.DoSetMember? || step.op.DoRevoke? {
      RosterBody(w.tables, start, step.op, k);
    } else {
      RowsOfInvariant(w.tables);
      CallBody(w.tables, start, step.op, k);
    }
  }

  lemma SweepApplies(t: Tables, now: int, lag: nat)
    ensures AtomicRuns.Apply(t, now, AtomicRuns.DoSweep(lag)) == Sweep(t, now, now + lag)
  {
    hide Sweep;
  }

  lemma RowsOfInvariant(t: Tables)
    requires AtomicRuns.JointInvariant(t)
    ensures forall r :: r in t.requests ==> t.requests[r].intentId in t.intents
  {
    hide AtomicRuns.RequestState, AtomicRuns.OneRequestPerIntent, AtomicRuns.IntentsOk, AtomicRuns.ApprovalsRequested;
  }

  ghost predicate AllSuit(start: int, steps: seq<AtomicRuns.Timed>, choices: seq<Choice>) {
    && |choices| == |steps|
    && (steps == []
        || (var front, last := steps[..|steps| - 1], steps[|steps| - 1];
            var w := AtomicRuns.Run(AtomicRuns.World(NO_ROWS, start), front);
            && AllSuit(start, front, choices[..|steps| - 1])
            && Suits(w.tables, w.now + last.delay, last.op, choices[|steps| - 1])))
  }

  // One call after the other, each from its start to its end.
  ghost function Serial(start: int, steps: seq<AtomicRuns.Timed>, choices: seq<Choice>): seq<Action>
    requires AllSuit(start, steps, choices)
  {
    if steps == [] then []
    else
      var front := steps[..|steps| - 1];
      Serial(start, front, choices[..|steps| - 1])
      + Block(AtomicRuns.Run(AtomicRuns.World(NO_ROWS, start), front), steps[|steps| - 1], choices[|steps| - 1])
  }

  /**
   * A run of statements made of whole calls, whatever identifiers the calls get and in whatever order sweeps go
   * on, ends with the tables and the clock of the run of those calls, and nothing in flight.
   */
  lemma {:induction false} SerialRunsAreAtomic(start: int, steps: seq<AtomicRuns.Timed>, choices: seq<Choice>)
    requires AllSuit(start, steps, choices)
    ensures var w := AtomicRuns.Run(AtomicRuns.World(NO_ROWS, start), steps);
            Exec(Initial(start), Serial(start, steps, choices)) == State(w.tables, w.now, map[])
  {
    hide Exec, Block, AtomicRuns.Next, AtomicRuns.JointInvariant, Suits;
    if steps == [] {
      NothingDone(Initial(start));
    } else {
      var front, last := steps[..|steps| - 1], steps[|steps| - 1];
      var rest, k := choices[..|steps| - 1], choices[|steps| - 1];
      var w := AtomicRuns.Run(AtomicRuns.World(NO_ROWS, start), front);
      SerialRunsAreAtomic(start, front, rest);
      AtomicRuns.JointInvariantHolds(start, front);
      BlockIsStep(w, last, k);
      Races.ExecConcat(Initial(start), Serial(start, front, rest), Block(w, last, k));
    }
  }

  /** So at every call boundary of such a run the joint invariant holds. */
  lemma SerialRunsKeepJointInvariant(start: int, steps: seq<AtomicRuns.Timed>, choices: seq<Choice>)
    requires AllSuit(start, steps, choices)
    ensures AtomicRuns.JointInvariant(Exec(Initial(start), Serial(start, steps, choices)).tables)
  {
    hide Exec, Serial, AllSuit, AtomicRuns.JointInvariant, AtomicRuns.Run;
    SerialRunsAreAtomic(start, steps, choices);
    AtomicRuns.JointInvariantHolds(start, steps);
  }
}
