/**
 * Check then increment: an evaluation reads the counters, the increments come later. At most k creates of
 * one member are in flight at a time; creates of other members, and their counters, run freely.
 */
module SpendBound {
  import opened Prelude
  import opened PolicyEngine
  import opened PolicyEvaluation
  import opened RateCounters

  // A create in flight. An allowed create adds its amount to the daily counter, then one to the hourly.
  datatype Slot =
    | Idle
    | Begun                          // before the evaluation
    | Permitted(amount: real)        // evaluated ALLOW, nothing of the amount counted yet
    | UsdAdded(day: nat)             // amount counted, its key not yet refreshed
    | UsdDone                        // transaction not yet counted
    | TxAdded(hour: nat)             // transaction counted, its key not yet refreshed
    | Finished                       // denied, sent to approval, of unknown amount, or fully counted

  datatype Action =
    | Begin(slot: nat)
    | Evaluate(slot: nat, ctx: EvaluationContext, quote: Quote)
    | CountUsd(slot: nat)
    | RefreshUsd(slot: nat)
    | CountTx(slot: nat)
    | RefreshTx(slot: nat)
    | Return(slot: nat)
    | OtherMember(orgId: Id, memberId: Id, command: Command)
    | Tick(delay: nat)

  // What an evaluation is told, and the amount that a second look-up of the price gives for counting.
  datatype Quote = Quote(price: Price, native: Option<real>, counted: Option<real>)

  datatype State = State(log: seq<Stamped>, now: nat, slots: seq<Slot>)

  // Whose creates these are, the rules that apply to them throughout, and by how much the amount counted may exceed
  // the amount evaluated: the price may move between the two look-ups.
  datatype Setting = Setting(orgId: Id, memberId: Id, rules: seq<PolicyRule>, drift: real)

  // The two counters: dollars per UTC day, transactions per UTC hour.
  datatype Counter = Usd | Tx

  function BucketAt(c: Counter, t: nat): nat {
    if c.Usd? then DayOf(t) else HourOf(t)
  }

  function KeyOf(c: Counter, g: Setting, bucket: nat): Key {
    if c.Usd? then DailyKey(g.orgId, g.memberId, bucket) else HourlyKey(g.orgId, g.memberId, bucket)
  }

  // What a read of the counter returns now.
  function Read(c: Counter, g: Setting, s: State): real {
    Get(Replay(s.log), KeyOf(c, g, BucketAt(c, s.now)), s.now)
  }

  // What an evaluation now looks at: the counters are those just read.
  function EvaluationNow(g: Setting, s: State, ctx: EvaluationContext, quote: Quote): Evaluation {
    Evaluation(ctx.(orgId := g.orgId, memberId := g.memberId, dailyUsdSpent := Read(Usd, g, s),
                    txCountLastHour := Read(Tx, g, s).Floor),
               g.rules, quote.price, quote.native)
  }

  function DecisionNow(g: Setting, s: State, ctx: EvaluationContext, quote: Quote): PolicyDecision {
    EvaluateIntent(EvaluationNow(g, s, ctx, quote))
  }

  // Amounts are not negative, only a number is counted, and the price moves within the drift.
  predicate Plausible(g: Setting, quote: Quote) {
    quote.counted.Some? ==>
      && quote.counted.value >= 0.0 && quote.native.Some?
      && (quote.price.Quoted? ==> quote.counted.value <= quote.native.value * quote.price.usd + g.drift)
  }

  predicate ForOther(g: Setting, a: Action, now: nat)
    requires a.OtherMember?
  {
    && (a.orgId != g.orgId || a.memberId != g.memberId)
    && match a.command
       case AddUsd(org, m, _) => org == a.orgId && m == a.memberId
       case RefreshDay(org, m, day) => org == a.orgId && m == a.memberId && day <= DayOf(now)
       case AddTx(org, m) => org == a.orgId && m == a.memberId
       case RefreshHour(org, m, hour) => org == a.orgId && m == a.memberId && hour <= HourOf(now)
  }

  // The slot after an action on it; an action that is not possible changes nothing.
  function SlotAfter(g: Setting, s: State, a: Action, slot: Slot): Slot {
    match a
    case Begin(_) => if slot.Idle? then Begun else slot
    case Evaluate(_, ctx, quote) =>
      if !slot.Begun? || !Plausible(g, quote) then slot
      else if DecisionNow(g, s, ctx, quote).decision.Allow? && quote.counted.Some? then Permitted(quote.counted.value)
      else Finished
    case CountUsd(_) => if slot.Permitted? then UsdAdded(DayOf(s.now)) else slot
    case RefreshUsd(_) => if slot.UsdAdded? then UsdDone else slot
    case CountTx(_) => if slot.UsdDone? then TxAdded(HourOf(s.now)) else slot
    case RefreshTx(_) => if slot.TxAdded? then Finished else slot
    case Return(_) => if slot.Finished? then Idle else slot
    case _ => slot
  }

  // The Redis command the action sends.
  function Sent(g: Setting, a: Action, slot: Slot): Option<Command> {
    match a
    case CountUsd(_) => if slot.Permitted? then Some(AddUsd(g.orgId, g.memberId, slot.amount)) else None
    case RefreshUsd(_) => if slot.UsdAdded? then Some(RefreshDay(g.orgId, g.memberId, slot.day)) else None
    case CountTx(_) => if slot.UsdDone? then Some(AddTx(g.orgId, g.memberId)) else None
    case RefreshTx(_) => if slot.TxAdded? then Some(RefreshHour(g.orgId, g.memberId, slot.hour)) else None
    case _ => None
  }

  function Logged(log: seq<Stamped>, at: nat, command: Option<Command>): seq<Stamped> {
    if command.Some? then log + [Stamped(at, command.value)] else log
  }

  function Next(g: Setting, s: State, a: Action): State {
    match a
    case Tick(delay) => s.(now := s.now + delay)
    case OtherMember(_, _, command) =>
      if ForOther(g, a, s.now) then s.(log := Logged(s.log, s.now, Some(command))) else s
    case _ =>
      if a.slot < |s.slots|
      then s.(log := Logged(s.log, s.now, Sent(g, a, s.slots[a.slot])),
              slots := s.slots[a.slot := SlotAfter(g, s, a, s.slots[a.slot])])
      else s
  }

  function Exec(g: Setting, s: State, actions: seq<Action>): State {
    if actions == [] then s else Next(g, Exec(g, s, actions[..|actions| - 1]), actions[|actions| - 1])
  }

  function Initial(start: nat, k: nat): State {
    State([], start, seq(k, i => Idle))
  }

  // ---- What is allowed but not yet counted ----

  function Weight(c: Counter, slot: Slot): real {
    match c
    case Usd => if slot.Permitted? then slot.amount else 0.0
    case Tx => if slot.Permitted? || slot.UsdAdded? || slot.UsdDone? then 1.0 else 0.0
  }

  function Total(c: Counter, slots: seq<Slot>): real {
    if slots == [] then 0.0 else Total(c, slots[..|slots| - 1]) + Weight(c, slots[|slots| - 1])
  }

  lemma {:induction false} TotalAfterUpdate(c: Counter, slots: seq<Slot>, i: nat, slot: Slot)
    requires i < |slots|
    ensures Total(c, slots[i := slot]) == Total(c, slots) - Weight(c, slots[i]) + Weight(c, slot)
  {
    var n := |slots| - 1;
    if i < n {
      assert slots[i := slot][..n] == slots[..n][i := slot];
      TotalAfterUpdate(c, slots[..n], i, slot);
    } else {
      assert slots[i := slot][..n] == slots[..n];
    }
  }

  lemma {:induction false} TotalAtMost(c: Counter, slots: seq<Slot>, cap: real)
    requires forall j :: 0 <= j < |slots| ==> Weight(c, slots[j]) <= cap
    ensures Total(c, slots) <= |slots| as real * cap
  {
    if slots != [] {
      var n := |slots| - 1;
      TotalAtMost(c, slots[..n], cap);
      assert |slots| as real * cap == n as real * cap + cap;
    }
  }

  // Beside one slot that weighs nothing there are at most k - 1 that weigh up to the cap.
  lemma OthersAtMost(c: Counter, slots: seq<Slot>, cap: real, i: nat)
    requires i < |slots| && Weight(c, slots[i]) == 0.0
    requires forall j :: 0 <= j < |slots| ==> Weight(c, slots[j]) <= cap
    ensures Total(c, slots) <= (|slots| - 1) as real * cap
  {
    hide Weight, Total;
    var others := slots[..i] + slots[i + 1..];
    TotalWithout(c, slots, i);
    TotalAtMost(c, others, cap);
    assert |others| == |slots| - 1;
  }

  lemma {:induction false} TotalWithout(c: Counter, slots: seq<Slot>, i: nat)
    requires i < |slots|
    ensures Total(c, slots) == Total(c, slots[..i] + slots[i + 1..]) + Weight(c, slots[i])
  {
    var n := |slots| - 1;
    if i < n {
      TotalWithout(c, slots[..n], i);
      assert (slots[..i] + slots[i + 1..])[..n - 1] == slots[..n][..i] + slots[..n][i + 1..];
    } else {
      assert slots[..i] + slots[i + 1..] == slots[..n];
    }
  }

  lemma {:induction false} TotalNotNegative(c: Counter, slots: seq<Slot>)
    requires forall i :: 0 <= i < |slots| ==> Weight(c, slots[i]) >= 0.0
    ensures Total(c, slots) >= 0.0
  {
    if slots != [] {
      TotalNotNegative(c, slots[..|slots| - 1]);
    }
  }

  // ---- What an ALLOW means for the caps ----

  // The limit on a bucket's counter and on what one create adds to it. A daily cap is also a cap on each transaction;
  // without a smaller one per transaction, the two agree. Both are exceeded by the drift.
  ghost predicate CappedAt(c: Counter, g: Setting, limit: real, cap: real) {
    && 0.0 <= cap <= limit && g.drift >= 0.0
    && match c
       case Usd => MaxUsdPerDay(limit - g.drift) in g.rules
                   && (cap == limit || MaxUsdPerTransaction(cap - g.drift) in g.rules)
       case Tx => cap == 1.0 && limit == limit.Floor as real && MaxTransactionsPerHour(limit.Floor) in g.rules
  }

  // An allowed evaluation breaks none of the rules.
  lemma AllowedBreaksNothing(g: Setting, s: State, ctx: EvaluationContext, quote: Quote, rule: PolicyRule)
    requires DecisionNow(g, s, ctx, quote).decision.Allow? && rule in g.rules
    ensures quote.price.Quoted? && !Broken(PricedContext(EvaluationNow(g, s, ctx, quote)), rule)
  {
    hide Broken, EvaluateIntent;
    NotDeniedMeansNothingBroken(EvaluationNow(g, s, ctx, quote));
  }

  lemma AllowedFitsCaps(g: Setting, s: State, ctx: EvaluationContext, quote: Quote, limit: real, cap: real)
    requires CappedAt(Usd, g, limit, cap) && Read(Usd, g, s) >= 0.0
    requires DecisionNow(g, s, ctx, quote).decision.Allow? && Plausible(g, quote) && quote.counted.Some?
    ensures Read(Usd, g, s) + quote.counted.value <= limit && quote.counted.value <= cap
  {
    hide EvaluateIntent, Replay, DayOf, HourOf, Get;
    AllowedBreaksNothing(g, s, ctx, quote, MaxUsdPerDay(limit - g.drift));
    if cap != limit {
      AllowedBreaksNothing(g, s, ctx, quote, MaxUsdPerTransaction(cap - g.drift));
    }
  }

  lemma AllowedFitsCount(g: Setting, s: State, ctx: EvaluationContext, quote: Quote, maxCount: int)
    requires MaxTransactionsPerHour(maxCount) in g.rules && DecisionNow(g, s, ctx, quote).decision.Allow?
    ensures Read(Tx, g, s).Floor < maxCount
  {
    hide EvaluateIntent, Replay, DayOf, HourOf, Get;
    AllowedBreaksNothing(g, s, ctx, quote, MaxTransactionsPerHour(maxCount));
  }

  // Transactions are counted in ones.
  function TxCount(log: seq<Stamped>, key: Key): int {
    if log == [] then 0
    else
      var last := log[|log| - 1];
      TxCount(log[..|log| - 1], key)
      + (match last.command
         case AddTx(org, m) => if key == HourlyKey(org, m, HourOf(last.at)) then 1 else 0
         case _ => 0)
  }

  lemma {:induction false} HourlyLedgerIsWhole(log: seq<Stamped>, org: Id, m: Id, hour: nat)
    ensures Ledger(log, HourlyKey(org, m, hour)) == TxCount(log, HourlyKey(org, m, hour)) as real
  {
    hide HourOf, DayOf;
    if log != [] {
      HourlyLedgerIsWhole(log[..|log| - 1], org, m, hour);
    }
  }

  // ---- The invariants ----

  // The log is in order and nothing in it lies in the future.
  ghost predicate LogOk(s: State) {
    && Chronological(s.log) && (forall i :: 0 <= i < |s.log| ==> s.log[i].at <= s.now)
    && (forall i :: 0 <= i < |s.slots| ==> match s.slots[i]
                                           case UsdAdded(day) => day <= DayOf(s.now)
                                           case TxAdded(hour) => hour <= HourOf(s.now)
                                           case _ => true)
  }

  lemma NextKeepsLog(g: Setting, s: State, a: Action)
    requires LogOk(s)
    ensures LogOk(Next(g, s, a)) && |Next(g, s, a).slots| == |s.slots| && s.now <= Next(g, s, a).now
  {
    hide DecisionNow, DayOf, HourOf;
    BucketsGrow(s.now, Next(g, s, a).now);
  }

  lemma LastCommandIsPast(s: State)
    requires LogOk(s)
    ensures s.log != [] ==> s.log[|s.log| - 1].at <= s.now
  {
  }

  lemma ReadIsLedger(c: Counter, g: Setting, s: State)
    requires LogOk(s)
    ensures Read(c, g, s) == Ledger(s.log, KeyOf(c, g, BucketAt(c, s.now)))
  {
    LastCommandIsPast(s);
    CountersReadTheLedger(s.log, g.orgId, g.memberId, s.now);
  }

  lemma LedgerOfLogged(log: seq<Stamped>, at: nat, command: Option<Command>, key: Key)
    ensures Ledger(Logged(log, at, command), key) ==
            Ledger(log, key) + (if command.Some? then Adds(Stamped(at, command.value), key) else 0.0)
  {
    if command.Some? {
      assert (log + [Stamped(at, command.value)])[..|log|] == log;
    }
  }

  // ---- The bound ----

  // Everything recorded in the bucket, and everything allowed but not yet counted, is within the bound.
  ghost predicate SpendOk(c: Counter, g: Setting, s: State, limit: real, cap: real, k: nat) {
    && |s.slots| == k
    && (forall i :: 0 <= i < k ==> 0.0 <= Weight(c, s.slots[i]) <= cap)
    && Ledger(s.log, KeyOf(c, g, BucketAt(c, s.now))) + Total(c, s.slots) <= limit + (k - 1) as real * cap
    && (forall bucket :: Ledger(s.log, KeyOf(c, g, bucket)) >= 0.0)
    && (forall bucket :: Ledger(s.log, KeyOf(c, g, bucket)) <= limit + (k - 1) as real * cap)
  }

  // What an action moves from the amounts in flight to the bucket's ledger.
  function Moved(c: Counter, a: Action, slot: Slot): real {
    match c
    case Usd => if a.CountUsd? && slot.Permitted? then slot.amount else 0.0
    case Tx => if a.CountTx? && slot.UsdDone? then 1.0 else 0.0
  }

  lemma SlotMoves(c: Counter, g: Setting, s: State, a: Action, slot: Slot, bucket: nat)
    requires !a.Evaluate? && !a.OtherMember?
    ensures var command := Sent(g, a, slot);
            var added := if command.Some? then Adds(Stamped(s.now, command.value), KeyOf(c, g, bucket)) else 0.0;
            && Weight(c, SlotAfter(g, s, a, slot)) == Weight(c, slot) - Moved(c, a, slot)
            && added == (if bucket == BucketAt(c, s.now) then Moved(c, a, slot) else 0.0)
            && (0.0 <= Weight(c, slot) ==> 0.0 <= Moved(c, a, slot) <= Weight(c, slot))
  {
  }

  lemma SlotActionKeepsSpend(c: Counter, g: Setting, s: State, a: Action, limit: real, cap: real, k: nat)
    requires SpendOk(c, g, s, limit, cap, k) && 0.0 <= cap <= limit
    requires !a.Evaluate? && !a.OtherMember? && !a.Tick? && a.slot < k
    ensures SpendOk(c, g, Next(g, s, a), limit, cap, k)
  {
    hide BucketAt, SlotAfter, Sent, Ledger, Total, Logged, Weight, Moved;
    var u, slot := Next(g, s, a), s.slots[a.slot];
    var current := BucketAt(c, s.now);
    SlotMoves(c, g, s, a, slot, current);
    TotalAfterUpdate(c, s.slots, a.slot, SlotAfter(g, s, a, slot));
    assert u.slots == s.slots[a.slot := SlotAfter(g, s, a, slot)];
    forall bucket: nat
      ensures Ledger(u.log, KeyOf(c, g, bucket)) ==
              Ledger(s.log, KeyOf(c, g, bucket)) + (if bucket == current then Moved(c, a, slot) else 0.0)
    {
      SlotMoves(c, g, s, a, slot, bucket);
      LedgerOfLogged(s.log, s.now, Sent(g, a, slot), KeyOf(c, g, bucket));
    }
    TotalNotNegative(c, u.slots);
  }

  // An allowed create fits what the counters said when it was evaluated.
  lemma AllowedFits(c: Counter, g: Setting, s: State, ctx: EvaluationContext, quote: Quote, limit: real, cap: real)
    requires LogOk(s) && CappedAt(c, g, limit, cap) && Plausible(g, quote) && quote.counted.Some?
    requires DecisionNow(g, s, ctx, quote).decision.Allow?
    requires forall bucket :: Ledger(s.log, KeyOf(c, g, bucket)) >= 0.0
    ensures Ledger(s.log, KeyOf(c, g, BucketAt(c, s.now))) + Weight(c, Permitted(quote.counted.value)) <= limit
    ensures 0.0 <= Weight(c, Permitted(quote.counted.value)) <= cap
  {
    hide DayOf, HourOf, Ledger, LogOk, Read, DecisionNow;
    ReadIsLedger(c, g, s);
    if c.Usd? {
      AllowedFitsCaps(g, s, ctx, quote, limit, cap);
    } else {
      HourlyLedgerIsWhole(s.log, g.orgId, g.memberId, HourOf(s.now));
      AllowedFitsCount(g, s, ctx, quote, limit.Floor);
    }
  }

  lemma EvaluateKeepsSpend(c: Counter, g: Setting, s: State, a: Action, limit: real, cap: real, k: nat)
    requires LogOk(s) && SpendOk(c, g, s, limit, cap, k) && CappedAt(c, g, limit, cap)
    requires a.Evaluate? && a.slot < k
    ensures SpendOk(c, g, Next(g, s, a), limit, cap, k)
  {
    hide BucketAt, Ledger, Total, LogOk, DecisionNow, CappedAt, Plausible;
    var slot, after := s.slots[a.slot], SlotAfter(g, s, a, s.slots[a.slot]);
    TotalAfterUpdate(c, s.slots, a.slot, after);
    if slot.Begun? && after.Permitted? {
      AllowedFits(c, g, s, a.ctx, a.quote, limit, cap);
      OthersAtMost(c, s.slots, cap, a.slot);
    }
  }

  lemma OtherKeepsSpend(c: Counter, g: Setting, s: State, a: Action, limit: real, cap: real, k: nat)
    requires SpendOk(c, g, s, limit, cap, k) && a.OtherMember?
    ensures SpendOk(c, g, Next(g, s, a), limit, cap, k)
  {
    hide DayOf, HourOf, Ledger, Total, Weight;
    if ForOther(g, a, s.now) {
      forall bucket: nat
        ensures Ledger(Next(g, s, a).log, KeyOf(c, g, bucket)) == Ledger(s.log, KeyOf(c, g, bucket))
      {
        LedgerOfLogged(s.log, s.now, Some(a.command), KeyOf(c, g, bucket));
      }
    }
  }

  // A new bucket starts with an empty ledger; what is still in flight fits it.
  lemma TickKeepsSpend(c: Counter, g: Setting, s: State, delay: nat, limit: real, cap: real, k: nat)
    requires LogOk(s) && SpendOk(c, g, s, limit, cap, k) && 0.0 <= cap <= limit && k >= 1
    ensures SpendOk(c, g, Next(g, s, Tick(delay)), limit, cap, k)
  {
    var later := s.now + delay;
    BucketsGrow(s.now, later);
    if BucketAt(c, later) != BucketAt(c, s.now) {
      forall i | 0 <= i < |s.log|
        ensures BucketAt(c, s.log[i].at) < BucketAt(c, later)
      {
        BucketsGrow(s.log[i].at, s.now);
      }
      NothingRecordedLater(s.log, KeyOf(c, g, BucketAt(c, later)));
      TotalAtMost(c, s.slots, cap);
      assert k as real * cap == (k - 1) as real * cap + cap;
    }
  }

  lemma SlotsAre(c: Counter, g: Setting, s: State, limit: real, cap: real, k: nat)
    requires SpendOk(c, g, s, limit, cap, k)
    ensures |s.slots| == k
  {
  }

  lemma NextKeepsSpend(c: Counter, g: Setting, s: State, a: Action, limit: real, cap: real, k: nat)
    requires LogOk(s) && SpendOk(c, g, s, limit, cap, k) && CappedAt(c, g, limit, cap) && k >= 1
    ensures SpendOk(c, g, Next(g, s, a), limit, cap, k)
  {
    hide LogOk, SpendOk;
    SlotsAre(c, g, s, limit, cap, k);
    if a.Tick? {
      TickKeepsSpend(c, g, s, a.delay, limit, cap, k);
    } else if a.OtherMember? {
      OtherKeepsSpend(c, g, s, a, limit, cap, k);
    } else if a.slot >= k {
    } else if a.Evaluate? {
      EvaluateKeepsSpend(c, g, s, a, limit, cap, k);
    } else {
      SlotActionKeepsSpend(c, g, s, a, limit, cap, k);
    }
  }

  lemma InitialIsOk(c: Counter, g: Setting, start: nat, k: nat, limit: real, cap: real)
    requires k >= 1 && 0.0 <= cap <= limit
    ensures LogOk(Initial(start, k)) && SpendOk(c, g, Initial(start, k), limit, cap, k)
  {
    TotalAtMost(c, Initial(start, k).slots, 0.0);
    assert (k - 1) as real * cap >= 0.0;
  }

  lemma {:induction false} SpendHolds(c: Counter, g: Setting, start: nat, k: nat, actions: seq<Action>, limit: real,
                                      cap: real)
    requires k >= 1 && CappedAt(c, g, limit, cap)
    ensures var s := Exec(g, Initial(start, k), actions);
            LogOk(s) && SpendOk(c, g, s, limit, cap, k)
  {
    hide LogOk, SpendOk, Next;
    if actions == [] {
      InitialIsOk(c, g, start, k, limit, cap);
    } else {
      var before := actions[..|actions| - 1];
      SpendHolds(c, g, start, k, before, limit, cap);
      NextKeepsLog(g, Exec(g, Initial(start, k), before), actions[|actions| - 1]);
      NextKeepsSpend(c, g, Exec(g, Initial(start, k), before), actions[|actions| - 1], limit, cap, k);
    }
  }

  // The counter read now plus what is allowed but not yet counted, and every bucket's record.
  lemma BoundHolds(c: Counter, g: Setting, start: nat, k: nat, actions: seq<Action>, limit: real, cap: real)
    requires k >= 1 && CappedAt(c, g, limit, cap)
    ensures var s := Exec(g, Initial(start, k), actions);
            && Read(c, g, s) + Total(c, s.slots) <= limit + (k - 1) as real * cap
            && forall bucket :: Ledger(s.log, KeyOf(c, g, bucket)) <= limit + (k - 1) as real * cap
  {
    hide Exec, Ledger, Total, Read, LogOk;
    SpendHolds(c, g, start, k, actions, limit, cap);
    ReadIsLedger(c, g, Exec(g, Initial(start, k), actions));
  }

  function Smaller(x: real, y: real): real {
    if x <= y then x else y
  }

  /**
   * With at most k creates of a member in flight, the daily counter plus the amounts allowed but not yet counted never
   * exceeds the daily cap plus k - 1 times the transaction cap, each cap raised by what the price may move between its
   * two look-ups, also across midnight; and no day's recorded spend ever exceeds it. A daily cap caps each transaction
   * too.
   */
  lemma ConcurrentDailyCap(g: Setting, start: nat, k: nat, actions: seq<Action>, maxUsd: real, perTx: real)
    requires k >= 1 && maxUsd >= 0.0 && perTx >= 0.0 && g.drift >= 0.0
    requires MaxUsdPerDay(maxUsd) in g.rules && (perTx >= maxUsd || MaxUsdPerTransaction(perTx) in g.rules)
    ensures var s, cap := Exec(g, Initial(start, k), actions), if perTx <= maxUsd then perTx else maxUsd;
            var bound := maxUsd + g.drift + (k - 1) as real * (cap + g.drift);
            && Read(Usd, g, s) + Total(Usd, s.slots) <= bound
            && forall day :: Ledger(s.log, DailyKey(g.orgId, g.memberId, day)) <= bound
  {
    hide Exec, Ledger, Total, Read, Initial;
    var limit, cap := maxUsd + g.drift, Smaller(perTx, maxUsd) + g.drift;
    assert limit - g.drift == maxUsd && cap - g.drift == Smaller(perTx, maxUsd);
    BoundHolds(Usd, g, start, k, actions, limit, cap);
    forall day: nat
      ensures Ledger(Exec(g, Initial(start, k), actions).log, DailyKey(g.orgId, g.memberId, day))
              <= limit + (k - 1) as real * cap
    {
      assert KeyOf(Usd, g, day) == DailyKey(g.orgId, g.memberId, day);
    }
  }

  /** Likewise the hourly count plus the allowed creates not yet counted stays within maxCount + k - 1. */
  lemma ConcurrentHourlyCap(g: Setting, start: nat, k: nat, actions: seq<Action>, maxCount: int)
    requires k >= 1 && maxCount >= 1 && MaxTransactionsPerHour(maxCount) in g.rules && g.drift >= 0.0
    ensures var s := Exec(g, Initial(start, k), actions);
            && Read(Tx, g, s) + Total(Tx, s.slots) <= (maxCount + k - 1) as real
            && forall hour :: Ledger(s.log, HourlyKey(g.orgId, g.memberId, hour)) <= (maxCount + k - 1) as real
  {
    hide Exec, Ledger, Total, Read, Initial;
    assert (maxCount as real).Floor == maxCount;
    BoundHolds(Tx, g, start, k, actions, maxCount as real, 1.0);
    assert maxCount as real + (k - 1) as real * 1.0 == (maxCount + k - 1) as real;
    forall hour: nat
      ensures Ledger(Exec(g, Initial(start, k), actions).log, HourlyKey(g.orgId, g.memberId, hour))
              <= (maxCount + k - 1) as real
    {
      assert KeyOf(Tx, g, hour) == HourlyKey(g.orgId, g.memberId, hour);
    }
  }

  /** One create at a time: the spend recorded on any day exceeds the daily cap by at most the drift of one price. */
  lemma SequentialDailyCap(g: Setting, start: nat, actions: seq<Action>, maxUsd: real, day: nat)
    requires MaxUsdPerDay(maxUsd) in g.rules && maxUsd >= 0.0 && g.drift >= 0.0
    ensures Ledger(Exec(g, Initial(start, 1), actions).log, KeyOf(Usd, g, day)) <= maxUsd + g.drift
  {
    hide Exec, Ledger, Total, Read, Initial;
    ConcurrentDailyCap(g, start, 1, actions, maxUsd, maxUsd);
  }

  // ---- The bound is exact ----

  lemma ExecOneMore(g: Setting, s: State, actions: seq<Action>, a: Action)
    ensures Exec(g, s, actions + [a]) == Next(g, Exec(g, s, actions), a)
  {
    assert (actions + [a])[..|actions|] == actions;
  }

  predicate TwoCaps(g: Setting, maxUsd: real, perTx: real) {
    g.rules == [MaxUsdPerDay(maxUsd), MaxUsdPerTransaction(perTx)] && 0.0 < perTx <= maxUsd && g.drift >= 0.0
  }

  function Today(g: Setting, s: State): real {
    Ledger(s.log, KeyOf(Usd, g, DayOf(s.now)))
  }

  predicate AllIdle(s: State) {
    forall i :: 0 <= i < |s.slots| ==> s.slots[i].Idle?
  }

  // Evaluated as `amount` dollars, counted as `counted`.
  function Dollars(amount: real, counted: real): Quote {
    Quote(Quoted(1.0), Some(amount), Some(counted))
  }

  // An amount within both caps is allowed.
  lemma FittingAmountAllowed(g: Setting, s: State, ctx: EvaluationContext, maxUsd: real, perTx: real, amount: real,
                             counted: real)
    requires TwoCaps(g, maxUsd, perTx) && LogOk(s) && amount <= perTx && Today(g, s) + amount <= maxUsd
    ensures DecisionNow(g, s, ctx, Dollars(amount, counted)).decision.Allow?
  {
    hide EvaluateIntent, Ledger, LogOk;
    ReadIsLedger(Usd, g, s);
    EvaluationMeaning(EvaluationNow(g, s, ctx, Dollars(amount, counted)));
  }

  // One create of an allowed amount, from its start to its return.
  function WholeCreate(ctx: EvaluationContext, quote: Quote): seq<Action> {
    [Begin(0), Evaluate(0, ctx, quote), CountUsd(0), RefreshUsd(0), CountTx(0), RefreshTx(0), Return(0)]
  }

  lemma CreateRecords(g: Setting, s: State, ctx: EvaluationContext, quote: Quote)
    requires s.slots != [] && AllIdle(s) && Plausible(g, quote) && quote.counted.Some?
    requires DecisionNow(g, s.(slots := s.slots[0 := Begun]), ctx, quote).decision.Allow?
    ensures var u := Exec(g, s, WholeCreate(ctx, quote));
            && AllIdle(u) && |u.slots| == |s.slots| && u.now == s.now
            && Today(g, u) == Today(g, s) + quote.counted.value
            && forall day: nat :: day != DayOf(s.now) ==>
                 Ledger(u.log, KeyOf(Usd, g, day)) == Ledger(s.log, KeyOf(Usd, g, day))
  {
    hide DecisionNow, Ledger, DayOf, HourOf, Plausible;
    var s1 := Next(g, s, Begin(0));
    var s2 := Next(g, s1, Evaluate(0, ctx, quote));
    var s3 := Next(g, s2, CountUsd(0));
    var s4 := Next(g, s3, RefreshUsd(0));
    var s5 := Next(g, s4, CountTx(0));
    var s6 := Next(g, s5, RefreshTx(0));
    SevenSteps(g, s, ctx, quote);
    forall day: nat
      ensures Ledger(s6.log, KeyOf(Usd, g, day)) ==
              Ledger(s.log, KeyOf(Usd, g, day)) + (if day == DayOf(s.now) then quote.counted.value else 0.0)
    {
      var key := KeyOf(Usd, g, day);
      LedgerOfLogged(s2.log, s2.now, Sent(g, CountUsd(0), s2.slots[0]), key);
      LedgerOfLogged(s3.log, s3.now, Sent(g, RefreshUsd(0), s3.slots[0]), key);
      LedgerOfLogged(s4.log, s4.now, Sent(g, CountTx(0), s4.slots[0]), key);
      LedgerOfLogged(s5.log, s5.now, Sent(g, RefreshTx(0), s5.slots[0]), key);
    }
  }

  lemma SevenSteps(g: Setting, s: State, ctx: EvaluationContext, quote: Quote)
    ensures var s2 := Next(g, Next(g, s, Begin(0)), Evaluate(0, ctx, quote));
            var s6 := Next(g, Next(g, Next(g, Next(g, s2, CountUsd(0)), RefreshUsd(0)), CountTx(0)), RefreshTx(0));
            Exec(g, s, WholeCreate(ctx, quote)) == Next(g, s6, Return(0))
  {
    hide Next;
    var all := WholeCreate(ctx, quote);
    assert Exec(g, s, []) == s;
    forall n: nat | n < 7
      ensures Exec(g, s, all[..n + 1]) == Next(g, Exec(g, s, all[..n]), all[n])
    {
      assert all[..n + 1] == all[..n] + [all[n]];
      ExecOneMore(g, s, all[..n], all[n]);
    }
    assert all[..0] == [] && all[..7] == all;
    assert Exec(g, s, all[..1]) == Next(g, Exec(g, s, all[..0]), all[0]);
    assert Exec(g, s, all[..2]) == Next(g, Exec(g, s, all[..1]), all[1]);
    assert Exec(g, s, all[..3]) == Next(g, Exec(g, s, all[..2]), all[2]);
    assert Exec(g, s, all[..4]) == Next(g, Exec(g, s, all[..3]), all[3]);
    assert Exec(g, s, all[..5]) == Next(g, Exec(g, s, all[..4]), all[4]);
    assert Exec(g, s, all[..6]) == Next(g, Exec(g, s, all[..5]), all[5]);
    assert Exec(g, s, all[..7]) == Next(g, Exec(g, s, all[..6]), all[6]);
  }

  // At most n creates, one after the other, record any target that fits the daily cap.
  lemma {:induction false} FillUp(g: Setting, start: nat, k: nat, ctx: EvaluationContext, maxUsd: real, perTx: real,
                                  target: real, n: nat)
    returns (actions: seq<Action>)
    requires TwoCaps(g, maxUsd, perTx) && k >= 1 && 0.0 <= target <= maxUsd && target <= n as real * perTx
    ensures var u := Exec(g, Initial(start, k), actions);
            AllIdle(u) && |u.slots| == k && u.now == start && LogOk(u) && Today(g, u) == target
    decreases n
  {
    hide Next, Ledger, LogOk, WholeCreate, DecisionNow, DayOf;
    if n == 0 {
      actions := [];
      EmptyLedger(KeyOf(Usd, g, DayOf(start)));
      InitialLogIsOk(start, k);
    } else {
      var amount := Smaller(perTx, target);
      OneTimesMore(n, perTx);
      var before := FillUp(g, start, k, ctx, maxUsd, perTx, target - amount, n - 1);
      var s := Exec(g, Initial(start, k), before);
      var begun := s.(slots := s.slots[0 := Begun]);
      BegunIsOk(s);
      FittingAmountAllowed(g, begun, ctx, maxUsd, perTx, amount, amount);
      CreateRecords(g, s, ctx, Dollars(amount, amount));
      actions := before + WholeCreate(ctx, Dollars(amount, amount));
      ExecConcat(g, Initial(start, k), before, WholeCreate(ctx, Dollars(amount, amount)));
      LogHolds(g, start, k, actions);
    }
  }

  lemma {:induction false} LogHolds(g: Setting, start: nat, k: nat, actions: seq<Action>)
    ensures LogOk(Exec(g, Initial(start, k), actions))
  {
    hide LogOk, Next;
    if actions == [] {
      InitialLogIsOk(start, k);
    } else {
      LogHolds(g, start, k, actions[..|actions| - 1]);
      NextKeepsLog(g, Exec(g, Initial(start, k), actions[..|actions| - 1]), actions[|actions| - 1]);
    }
  }

  lemma InitialLogIsOk(start: nat, k: nat)
    ensures LogOk(Initial(start, k))
  {
  }

  lemma BegunIsOk(s: State)
    requires LogOk(s) && s.slots != []
    ensures LogOk(s.(slots := s.slots[0 := Begun]))
  {
  }

  function FirstPermitted(k: nat, n: nat, amount: real): seq<Slot> {
    seq(k, i => if i < n then Permitted(amount) else Idle)
  }

  // Create number j begins and is allowed the amount.
  lemma AllowOne(g: Setting, s: State, j: nat, ctx: EvaluationContext, maxUsd: real, perTx: real)
    requires TwoCaps(g, maxUsd, perTx) && LogOk(s) && AllIdle(s) && j < |s.slots| && Today(g, s) + perTx <= maxUsd
    ensures var most := perTx + g.drift;
            var u := s.(slots := FirstPermitted(|s.slots|, j, most));
            Next(g, Next(g, u, Begin(j)), Evaluate(j, ctx, Dollars(perTx, most)))
            == s.(slots := FirstPermitted(|s.slots|, j + 1, most))
  {
    hide DecisionNow, Ledger, DayOf, HourOf;
    var most := perTx + g.drift;
    var k, u := |s.slots|, s.(slots := FirstPermitted(|s.slots|, j, most));
    var begun := Next(g, u, Begin(j));
    assert begun == s.(slots := FirstPermitted(k, j, most)[j := Begun]);
    FittingAmountAllowed(g, begun, ctx, maxUsd, perTx, perTx, most);
    assert FirstPermitted(k, j, most)[j := Begun][j := Permitted(most)] == FirstPermitted(k, j + 1, most);
  }

  // The first n creates have been allowed the amount; nothing of it is counted yet.
  lemma {:induction false} AllowAll(g: Setting, s: State, n: nat, ctx: EvaluationContext, maxUsd: real, perTx: real)
    returns (actions: seq<Action>)
    requires TwoCaps(g, maxUsd, perTx) && LogOk(s) && AllIdle(s) && n <= |s.slots| && Today(g, s) + perTx <= maxUsd
    ensures Exec(g, s, actions) == s.(slots := FirstPermitted(|s.slots|, n, perTx + g.drift))
  {
    hide Ledger, DayOf, Next, Today, LogOk;
    if n == 0 {
      actions := [];
      assert FirstPermitted(|s.slots|, 0, perTx + g.drift) == s.slots;
    } else {
      var before := AllowAll(g, s, n - 1, ctx, maxUsd, perTx);
      var evaluate := Evaluate(n - 1, ctx, Dollars(perTx, perTx + g.drift));
      ExecOneMore(g, s, before, Begin(n - 1));
      ExecOneMore(g, s, before + [Begin(n - 1)], evaluate);
      AllowOne(g, s, n - 1, ctx, maxUsd, perTx);
      actions := before + [Begin(n - 1)] + [evaluate];
    }
  }

  // The first n allowed amounts have been counted.
  lemma {:induction false} CountAll(g: Setting, s: State, n: nat, amount: real) returns (actions: seq<Action>)
    requires n <= |s.slots| && forall i :: 0 <= i < |s.slots| ==> s.slots[i] == Permitted(amount)
    ensures var u := Exec(g, s, actions);
            && u.now == s.now && |u.slots| == |s.slots|
            && (forall i :: n <= i < |s.slots| ==> u.slots[i] == Permitted(amount))
            && Today(g, u) == Today(g, s) + n as real * amount
  {
    hide Next, Ledger;
    if n == 0 {
      actions := [];
    } else {
      var before := CountAll(g, s, n - 1, amount);
      ExecOneMore(g, s, before, CountUsd(n - 1));
      CountOne(g, Exec(g, s, before), n - 1);
      actions := before + [CountUsd(n - 1)];
      OneTimesMore(n, amount);
    }
  }

  lemma EmptyLedger(key: Key)
    ensures Ledger([], key) == 0.0
  {
  }

  lemma OneTimesMore(n: nat, x: real)
    requires n >= 1
    ensures n as real * x == (n - 1) as real * x + x
  {
    assert n as real == (n - 1) as real + 1.0;
  }

  lemma CountOne(g: Setting, u: State, j: nat)
    requires j < |u.slots| && u.slots[j].Permitted?
    ensures var v := Next(g, u, CountUsd(j));
            && v.now == u.now && v.slots == u.slots[j := UsdAdded(DayOf(u.now))]
            && Today(g, v) == Today(g, u) + u.slots[j].amount
  {
    hide DayOf, HourOf, Ledger, DecisionNow;
    LedgerOfLogged(u.log, u.now, Sent(g, CountUsd(j), u.slots[j]), KeyOf(Usd, g, DayOf(u.now)));
  }

  // How many times the amount has to be taken to reach the target.
  lemma EnoughTimes(target: real, amount: real) returns (n: nat)
    requires target >= 0.0 && amount > 0.0
    ensures target <= n as real * amount
  {
    var q := target / amount;
    n := q.Floor + 1;
    assert q * amount == target;
    assert q <= n as real;
    assert q * amount <= n as real * amount;
  }

  /**
   * The concurrent bound cannot be lowered: for all caps, every drift and every k some run of at most k creates in
   * flight records exactly the bound on one day.
   */
  lemma DailyBoundIsAttained(g: Setting, start: nat, k: nat, ctx: EvaluationContext, maxUsd: real, perTx: real)
    returns (actions: seq<Action>)
    requires TwoCaps(g, maxUsd, perTx) && k >= 1
    ensures Ledger(Exec(g, Initial(start, k), actions).log, KeyOf(Usd, g, DayOf(start))) ==
            maxUsd + g.drift + (k - 1) as real * (perTx + g.drift)
  {
    hide Exec, Ledger, LogOk, DayOf;
    var n := EnoughTimes(maxUsd - perTx, perTx);
    var fill := FillUp(g, start, k, ctx, maxUsd, perTx, maxUsd - perTx, n);
    var s := Exec(g, Initial(start, k), fill);
    var allow := AllowAll(g, s, k, ctx, maxUsd, perTx);
    var count := CountAll(g, Exec(g, s, allow), k, perTx + g.drift);
    actions := fill + allow + count;
    ExecConcat(g, Initial(start, k), fill, allow);
    ExecConcat(g, Initial(start, k), fill + allow, count);
    OneTimesMore(k, perTx + g.drift);
  }

  lemma {:induction false} ExecConcat(g: Setting, s: State, xs: seq<Action>, ys: seq<Action>)
    ensures Exec(g, s, xs + ys) == Exec(g, Exec(g, s, xs), ys)
  {
    hide Next;
    if ys == [] {
      assert xs + ys == xs;
    } else {
      assert (xs + ys)[..|xs + ys| - 1] == xs + ys[..|ys| - 1];
      ExecConcat(g, s, xs, ys[..|ys| - 1]);
    }
  }

  // ---- Any 24 hours ----

  // The member's spend recorded at instants of [a, b).
  function SpentBetween(log: seq<Stamped>, g: Setting, a: nat, b: nat): real {
    if log == [] then 0.0
    else
      var last := log[|log| - 1];
      SpentBetween(log[..|log| - 1], g, a, b)
      + (match last.command
         case AddUsd(org, m, amount) => if org == g.orgId && m == g.memberId && a <= last.at < b then amount else 0.0
         case _ => 0.0)
  }

  predicate ByMember(command: Command, g: Setting) {
    command.AddUsd? && command.orgId == g.orgId && command.memberId == g.memberId
  }

  ghost predicate NothingNegative(log: seq<Stamped>, g: Setting) {
    forall i :: 0 <= i < |log| && ByMember(log[i].command, g) ==> log[i].command.amount >= 0.0
  }

  // A window of one day meets its first day and the next one.
  lemma {:induction false} SpentWithinTwoDays(log: seq<Stamped>, g: Setting, a: nat)
    requires NothingNegative(log, g)
    ensures var two := Ledger(log, KeyOf(Usd, g, DayOf(a))) + Ledger(log, KeyOf(Usd, g, DayOf(a) + 1));
            && SpentBetween(log, g, a, a + DAY) <= two
            && ((forall i :: 0 <= i < |log| ==> a <= log[i].at < a + DAY) ==> SpentBetween(log, g, a, a + DAY) == two)
  {
    if log != [] {
      var front, last := log[..|log| - 1], log[|log| - 1];
      SpentWithinTwoDays(front, g, a);
      WindowDays(a, last.at);
      OneCommandInWindow(last, g, a);
    }
  }

  lemma WindowDays(a: nat, at: nat)
    ensures a <= at < a + DAY ==> DayOf(at) == DayOf(a) || DayOf(at) == DayOf(a) + 1
  {
    DayBounds(a);
    DayBounds(at);
  }

  lemma OneCommandInWindow(last: Stamped, g: Setting, a: nat)
    requires a <= last.at < a + DAY ==> DayOf(last.at) == DayOf(a) || DayOf(last.at) == DayOf(a) + 1
    ensures var two := Adds(last, KeyOf(Usd, g, DayOf(a))) + Adds(last, KeyOf(Usd, g, DayOf(a) + 1));
            match last.command
            case AddUsd(org, m, amount) =>
              (org == g.orgId && m == g.memberId && a <= last.at < a + DAY ==> two == amount)
              && (org == g.orgId && m == g.memberId && amount >= 0.0 ==> two >= 0.0)
              && (org != g.orgId || m != g.memberId ==> two == 0.0)
            case _ => two == 0.0
  {
    hide DayOf;
  }

  lemma {:induction false} AmountsAreNotNegative(g: Setting, start: nat, k: nat, actions: seq<Action>)
    ensures var s := Exec(g, Initial(start, k), actions);
            && NothingNegative(s.log, g)
            && forall i :: 0 <= i < |s.slots| && s.slots[i].Permitted? ==> s.slots[i].amount >= 0.0
  {
    hide DecisionNow;
    if actions != [] {
      AmountsAreNotNegative(g, start, k, actions[..|actions| - 1]);
    }
  }

  /**
   * The daily counter is one of UTC days, so within some 24 hours twice the daily bound may be spent, but never
   * more: in every interval of 24 hours, with at most k creates in flight.
   */
  lemma AnyDayBound(g: Setting, start: nat, k: nat, actions: seq<Action>, maxUsd: real, perTx: real, a: nat)
    requires k >= 1 && maxUsd >= 0.0 && perTx >= 0.0 && g.drift >= 0.0
    requires MaxUsdPerDay(maxUsd) in g.rules && (perTx >= maxUsd || MaxUsdPerTransaction(perTx) in g.rules)
    ensures var cap := if perTx <= maxUsd then perTx else maxUsd;
            SpentBetween(Exec(g, Initial(start, k), actions).log, g, a, a + 86_400_000)
            <= 2.0 * (maxUsd + g.drift + (k - 1) as real * (cap + g.drift))
  {
    hide Exec, Ledger, Total, Read, SpentBetween, Initial, NothingNegative;
    var log := Exec(g, Initial(start, k), actions).log;
    AmountsAreNotNegative(g, start, k, actions);
    SpentWithinTwoDays(log, g, a);
    ConcurrentDailyCap(g, start, k, actions, maxUsd, perTx);
  }

  /**
   * One create at a time spends twice the daily cap, and twice the drift, within 24 hours: just before midnight and
   * right after it.
   */
  lemma AnyDayBoundIsAttained(g: Setting, ctx: EvaluationContext, maxUsd: real) returns (actions: seq<Action>)
    requires TwoCaps(g, maxUsd, maxUsd)
    ensures SpentBetween(Exec(g, Initial(DAY - 1, 1), actions).log, g, DAY - 1, 2 * DAY - 1) == 2.0 * (maxUsd + g.drift)
  {
    hide Exec, Next, Ledger, SpentBetween, LogOk, WholeCreate, DecisionNow, NothingNegative;
    var s0, most := Initial(DAY - 1, 1), Dollars(maxUsd, maxUsd + g.drift);
    var once := WholeCreate(ctx, most);
    StartOfRun(g, DAY - 1);
    SpendOnce(g, s0, ctx, maxUsd);
    var s1 := Exec(g, s0, once);
    var s2 := Next(g, s1, Tick(1));
    ExecOneMore(g, s0, once, Tick(1));
    LogHolds(g, DAY - 1, 1, once);
    LogHolds(g, DAY - 1, 1, once + [Tick(1)]);
    NewDay(g, s1);
    SpendOnce(g, s2, ctx, maxUsd);
    actions := once + [Tick(1)] + once;
    ExecConcat(g, s0, once + [Tick(1)], once);
    AmountsAreNotNegative(g, DAY - 1, 1, actions);
    SpentWithinTwoDays(Exec(g, s0, actions).log, g, DAY - 1);
    LogHolds(g, DAY - 1, 1, actions);
    RecordedSinceStart(g, DAY - 1, 1, actions);
    LogIsPast(Exec(g, s0, actions));
  }

  lemma StartOfRun(g: Setting, start: nat)
    ensures var s := Initial(start, 1);
            LogOk(s) && AllIdle(s) && Today(g, s) == 0.0
  {
    InitialLogIsOk(start, 1);
    EmptyLedger(KeyOf(Usd, g, DayOf(start)));
  }

  // One create that uses up the cap of a day without spending so far.
  lemma SpendOnce(g: Setting, s: State, ctx: EvaluationContext, maxUsd: real)
    requires TwoCaps(g, maxUsd, maxUsd) && LogOk(s) && |s.slots| == 1 && AllIdle(s) && Today(g, s) == 0.0
    ensures var u := Exec(g, s, WholeCreate(ctx, Dollars(maxUsd, maxUsd + g.drift)));
            && AllIdle(u) && |u.slots| == 1 && u.now == s.now && Today(g, u) == maxUsd + g.drift
            && forall day: nat :: day != DayOf(s.now) ==>
                 Ledger(u.log, KeyOf(Usd, g, day)) == Ledger(s.log, KeyOf(Usd, g, day))
  {
    hide LogOk, Ledger, WholeCreate, DecisionNow, Exec, DayOf;
    var begun := s.(slots := s.slots[0 := Begun]);
    BegunIsOk(s);
    FittingAmountAllowed(g, begun, ctx, maxUsd, maxUsd, maxUsd, maxUsd + g.drift);
    CreateRecords(g, s, ctx, Dollars(maxUsd, maxUsd + g.drift));
  }

  lemma NewDay(g: Setting, s: State)
    requires LogOk(s) && s.now == DAY - 1
    ensures var u := Next(g, s, Tick(1));
            && u.log == s.log && u.slots == s.slots && u.now == DAY
            && DayOf(DAY - 1) == 0 && DayOf(DAY) == 1 && Today(g, u) == 0.0
  {
    hide Ledger;
    forall i | 0 <= i < |s.log|
      ensures DayOf(s.log[i].at) < 1
    {
      BucketsGrow(s.log[i].at, DAY - 1);
    }
    NothingRecordedLater(s.log, KeyOf(Usd, g, 1));
  }

  lemma {:induction false} RecordedSinceStart(g: Setting, start: nat, k: nat, actions: seq<Action>)
    ensures var s := Exec(g, Initial(start, k), actions);
            start <= s.now && forall i :: 0 <= i < |s.log| ==> start <= s.log[i].at
  {
    hide DecisionNow;
    if actions != [] {
      RecordedSinceStart(g, start, k, actions[..|actions| - 1]);
    }
  }

  lemma LogIsPast(s: State)
    requires LogOk(s)
    ensures forall i :: 0 <= i < |s.log| ==> s.log[i].at <= s.now
  {
  }
}
