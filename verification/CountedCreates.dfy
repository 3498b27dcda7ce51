/** The creation of an intent and the slots of the spending bound do the same: one is a run of the other. */
module CountedCreates {
  import opened Prelude
  import opened PolicyEngine
  import opened PolicyEvaluation
  import opened RateCounters
  import opened SpendBound
  import Services

  // Everything but the amount and the counters that an evaluation looks at.
  function ContextOf(g: Setting, dto: Services.CreateIntentDto): EvaluationContext {
    EvaluationContext(g.orgId, g.memberId, dto.walletId, dto.tokenAddress, None, 0.0, 0, Some(dto.action))
  }

  // The decision of a creation whose counters are read now.
  function Decided(g: Setting, s: State, dto: Services.CreateIntentDto, price: Price): PolicyDecision {
    EvaluateIntent(Services.EvaluationOf(g.orgId, g.memberId, dto, g.rules, price,
                                         Services.Readings(true, s.log, g.orgId, g.memberId, s.now)))
  }

  // A slot from its evaluation to its end, each command at its own instant.
  function SlotRun(slot: nat, ctx: EvaluationContext, quote: Quote, times: Services.CreateTimes): seq<Action>
    requires Services.InOrder(times)
  {
    [Evaluate(slot, ctx, quote), Tick(times.usd - times.read), CountUsd(slot), Tick(times.usdKept - times.usd),
     RefreshUsd(slot), Tick(times.tx - times.usdKept), CountTx(slot), Tick(times.txKept - times.tx), RefreshTx(slot)]
  }

  lemma SameEvaluation(g: Setting, s: State, dto: Services.CreateIntentDto, quote: Quote)
    requires LogOk(s) && quote.native == dto.native
    ensures DecisionNow(g, s, ContextOf(g, dto), quote) == Decided(g, s, dto, quote.price)
  {
    hide EvaluateIntent, LogOk, Ledger, Get, Replay, DayOf, HourOf;
    ReadIsLedger(Usd, g, s);
    ReadIsLedger(Tx, g, s);
  }

  lemma {:induction false} NineSteps(g: Setting, s: State, all: seq<Action>)
    requires |all| == 9
    ensures var s3 := Next(g, Next(g, Next(g, s, all[0]), all[1]), all[2]);
            var s6 := Next(g, Next(g, Next(g, s3, all[3]), all[4]), all[5]);
            Exec(g, s, all) == Next(g, Next(g, Next(g, s6, all[6]), all[7]), all[8])
  {
    hide Next;
    forall n: nat | n < 9
      ensures Exec(g, s, all[..n + 1]) == Next(g, Exec(g, s, all[..n]), all[n])
    {
      assert all[..n + 1] == all[..n] + [all[n]];
      ExecOneMore(g, s, all[..n], all[n]);
    }
    assert all[..0] == [] && all[..9] == all;
    assert Exec(g, s, all[..0]) == s;
    assert Exec(g, s, all[..0 + 1]) == Next(g, s, all[0]);
    assert Exec(g, s, all[..1 + 1]) == Next(g, Exec(g, s, all[..1]), all[1]);
    assert Exec(g, s, all[..2 + 1]) == Next(g, Exec(g, s, all[..2]), all[2]);
    assert Exec(g, s, all[..3 + 1]) == Next(g, Exec(g, s, all[..3]), all[3]);
    assert Exec(g, s, all[..4 + 1]) == Next(g, Exec(g, s, all[..4]), all[4]);
    assert Exec(g, s, all[..5 + 1]) == Next(g, Exec(g, s, all[..5]), all[5]);
    assert Exec(g, s, all[..6 + 1]) == Next(g, Exec(g, s, all[..6]), all[6]);
    assert Exec(g, s, all[..7 + 1]) == Next(g, Exec(g, s, all[..7]), all[7]);
    assert Exec(g, s, all[..8 + 1]) == Next(g, Exec(g, s, all[..8]), all[8]);
  }

  // A slot that was allowed counts its amount and one transaction.
  lemma PermittedCounts(g: Setting, s: State, slot: nat, amount: real, times: Services.CreateTimes)
    requires slot < |s.slots| && s.slots[slot] == Permitted(amount) && s.now == times.read && Services.InOrder(times)
    ensures var s3 := Next(g, Next(g, s, Tick(times.usd - times.read)), CountUsd(slot));
            var s5 := Next(g, Next(g, s3, Tick(times.usdKept - times.usd)), RefreshUsd(slot));
            var s7 := Next(g, Next(g, s5, Tick(times.tx - times.usdKept)), CountTx(slot));
            Next(g, Next(g, s7, Tick(times.txKept - times.tx)), RefreshTx(slot))
            == State(s.log + Services.Counted(g.orgId, g.memberId, amount, times), times.txKept,
                     s.slots[slot := Finished])
  {
    hide DayOf, HourOf, DecisionNow;
    var s3 := Next(g, Next(g, s, Tick(times.usd - times.read)), CountUsd(slot));
    var add := Stamped(times.usd, AddUsd(g.orgId, g.memberId, amount));
    assert s3 == State(s.log + [add], times.usd, s.slots[slot := UsdAdded(DayOf(times.usd))]);
    var s5 := Next(g, Next(g, s3, Tick(times.usdKept - times.usd)), RefreshUsd(slot));
    var keep := Stamped(times.usdKept, RefreshDay(g.orgId, g.memberId, DayOf(times.usd)));
    assert s5 == State(s.log + [add] + [keep], times.usdKept, s.slots[slot := UsdDone]);
    var s7 := Next(g, Next(g, s5, Tick(times.tx - times.usdKept)), CountTx(slot));
    var one := Stamped(times.tx, AddTx(g.orgId, g.memberId));
    assert s7 == State(s.log + [add] + [keep] + [one], times.tx, s.slots[slot := TxAdded(HourOf(times.tx))]);
    var last := Stamped(times.txKept, RefreshHour(g.orgId, g.memberId, HourOf(times.tx)));
    assert s.log + [add] + [keep] + [one] + [last] == s.log + ([add, keep] + [one, last]);
    assert s.slots[slot := TxAdded(HourOf(times.tx))][slot := Finished] == s.slots[slot := Finished];
  }

  // A slot that is finished sends nothing more.
  lemma FinishedCountsNothing(g: Setting, s: State, slot: nat, times: Services.CreateTimes)
    requires slot < |s.slots| && s.slots[slot] == Finished && s.now == times.read && Services.InOrder(times)
    ensures var s3 := Next(g, Next(g, s, Tick(times.usd - times.read)), CountUsd(slot));
            var s5 := Next(g, Next(g, s3, Tick(times.usdKept - times.usd)), RefreshUsd(slot));
            var s7 := Next(g, Next(g, s5, Tick(times.tx - times.usdKept)), CountTx(slot));
            Next(g, Next(g, s7, Tick(times.txKept - times.tx)), RefreshTx(slot)) == s.(now := times.txKept)
  {
    hide DecisionNow;
    assert s.slots[slot := Finished] == s.slots;
  }

  lemma EvaluateStep(g: Setting, s: State, slot: nat, ctx: EvaluationContext, quote: Quote)
    requires slot < |s.slots| && s.slots[slot] == Begun && Plausible(g, quote)
    ensures Next(g, s, Evaluate(slot, ctx, quote)) ==
            s.(slots := s.slots[slot := if DecisionNow(g, s, ctx, quote).decision.Allow? && quote.counted.Some?
                                        then Permitted(quote.counted.value) else Finished])
  {
    hide DecisionNow, Plausible;
  }

  /**
   * One creation of an intent is one slot of the spending bound: it evaluates what the slot evaluates, and if it is
   * allowed with a known amount it sends the four commands the slot sends on its way to the end, else none.
   */
  lemma CreateIsASlot(g: Setting, s: State, slot: nat, dto: Services.CreateIntentDto, price: Price, priceAgain: Price,
                      amount: Option<real>, times: Services.CreateTimes)
    requires LogOk(s) && slot < |s.slots| && s.slots[slot] == Begun && s.now == times.read && Services.InOrder(times)
    requires Services.CountedAmount(dto, priceAgain, amount)
    requires Plausible(g, Quote(price, Services.Normalised(dto).native, amount))
    ensures var asked := Services.Normalised(dto);
            var d, quote := Decided(g, s, asked, price), Quote(price, asked.native, amount);
            && DecisionNow(g, s, ContextOf(g, asked), quote) == d
            && Exec(g, s, SlotRun(slot, ContextOf(g, asked), quote, times)) ==
               State(if d.decision.Allow? && amount.Some?
                     then s.log + Services.Counted(g.orgId, g.memberId, amount.value, times) else s.log,
                     times.txKept, s.slots[slot := Finished])
  {
    hide DecisionNow, Decided, LogOk, Services.Counted, Plausible, Exec, Next;
    var asked := Services.Normalised(dto);
    var ctx, quote := ContextOf(g, asked), Quote(price, asked.native, amount);
    var evaluated := Next(g, s, Evaluate(slot, ctx, quote));
    SameEvaluation(g, s, asked, quote);
    NineSteps(g, s, SlotRun(slot, ctx, quote, times));
    EvaluateStep(g, s, slot, ctx, quote);
    if DecisionNow(g, s, ctx, quote).decision.Allow? && amount.Some? {
      PermittedCounts(g, evaluated, slot, amount.value, times);
      assert s.slots[slot := Permitted(amount.value)][slot := Finished] == s.slots[slot := Finished];
    } else {
      FinishedCountsNothing(g, evaluated, slot, times);
    }
  }

  // ---- What a creation that was not denied is known to obey ----

  // The request meets the rule, at a price and with the record of earlier creations at an instant.
  ghost predicate Obeys(orgId: Id, memberId: Id, dto: Services.CreateIntentDto, usd: real, log: seq<Stamped>, now: nat,
                        rule: PolicyRule)
  {
    var token := if dto.action.Deploy? then "0x0000000000000000000000000000000000000000" else dto.tokenAddress;
    var native := if dto.action.Deploy? then Some(0.0) else dto.native;
    match rule
    case TokenAllowlist(addresses) => exists a :: a in addresses && Lower(a) == Lower(token)
    case WalletAllowlist(walletIds) => dto.walletId in walletIds
    case MaxUsdPerTransaction(maxUsd) => native.Some? && native.value * usd <= maxUsd
    case MaxUsdPerDay(maxUsd) =>
      native.Some? && Ledger(log, DailyKey(orgId, memberId, now / 86_400_000)) + native.value * usd <= maxUsd
    case MaxTransactionsPerHour(maxCount) => Ledger(log, HourlyKey(orgId, memberId, now / 3_600_000)).Floor < maxCount
    case RequireApproval(_, _) => true
    case ActionAllowlist(actions) => dto.action in actions
    case UnknownRule(_) => false
  }

  lemma ObeysIffNotBroken(orgId: Id, memberId: Id, dto: Services.CreateIntentDto, rules: seq<PolicyRule>, price: Price,
                          log: seq<Stamped>, now: nat, rule: PolicyRule)
    requires price.Quoted?
    ensures var readings := Services.Readings(true, log, orgId, memberId, now);
            var e := Services.EvaluationOf(orgId, memberId, Services.Normalised(dto), rules, price, readings);
            Obeys(orgId, memberId, dto, price.usd, log, now, rule) <==> !Broken(PricedContext(e), rule)
  {
    hide Ledger, Lower;
    assert DayOf(now) == now / 86_400_000 && HourOf(now) == now / 3_600_000;
  }

  /** A creation is denied exactly if the price is unavailable or its request does not obey some rule. */
  lemma CreationIsDeniedIff(orgId: Id, memberId: Id, dto: Services.CreateIntentDto, rules: seq<PolicyRule>,
                            price: Price, log: seq<Stamped>, now: nat)
    ensures var readings := Services.Readings(true, log, orgId, memberId, now);
            var e := Services.EvaluationOf(orgId, memberId, Services.Normalised(dto), rules, price, readings);
            EvaluateIntent(e).decision.Deny? <==>
            price.Unavailable?
            || exists rule :: rule in rules && !Obeys(orgId, memberId, dto, price.usd, log, now, rule)
  {
    hide EvaluateIntent, Broken, Obeys;
    var readings := Services.Readings(true, log, orgId, memberId, now);
    var e := Services.EvaluationOf(orgId, memberId, Services.Normalised(dto), rules, price, readings);
    EvaluationMeaning(e);
    if price.Quoted? {
      forall rule | rule in rules
        ensures Obeys(orgId, memberId, dto, price.usd, log, now, rule) <==> !Broken(PricedContext(e), rule)
      {
        ObeysIffNotBroken(orgId, memberId, dto, rules, price, log, now, rule);
      }
    }
  }
}
