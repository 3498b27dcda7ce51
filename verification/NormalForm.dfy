/**
 * The most restrictive merge over several roles: a rule list has the same verdict, in every context,
 * as the canonical list that keeps one rule per type.
 */
module NormalForm {
  import opened Prelude
  import opened PolicyEngine

  // One optional slot per rule type. Token addresses are kept in lower case.
  datatype Canon = Canon(
    tokens: Option<seq<string>>,
    wallets: Option<seq<Id>>,
    perTx: Option<real>,
    perDay: Option<real>,
    perHour: Option<int>,
    approvers: Option<int>,
    actions: Option<seq<IntentAction>>,
    unknown: Option<string>)

  const EMPTY := Canon(None, None, None, None, None, None, None, None)

  function Intersect<T(==,!new)>(a: seq<T>, b: seq<T>): (r: seq<T>)
    ensures forall x :: x in r <==> x in a && x in b
  {
    if a == [] then []
    else if a[0] in b then [a[0]] + Intersect(a[1..], b)
    else Intersect(a[1..], b)
  }

  function Both<T(==,!new)>(slot: Option<seq<T>>, more: seq<T>): Option<seq<T>> {
    if slot.None? then Some(more) else Some(Intersect(slot.value, more))
  }

  function MinCap(slot: Option<real>, cap: real): Option<real> {
    if slot.Some? && slot.value <= cap then slot else Some(cap)
  }

  function Absorb(c: Canon, rule: PolicyRule): Canon {
    match rule
    case TokenAllowlist(addresses) => c.(tokens := Both(c.tokens, LowerAll(addresses)))
    case WalletAllowlist(walletIds) => c.(wallets := Both(c.wallets, walletIds))
    case MaxUsdPerTransaction(maxUsd) => c.(perTx := MinCap(c.perTx, maxUsd))
    case MaxUsdPerDay(maxUsd) => c.(perDay := MinCap(c.perDay, maxUsd))
    case MaxTransactionsPerHour(n) =>
      c.(perHour := if c.perHour.Some? && c.perHour.value <= n then c.perHour else Some(n))
    case RequireApproval(n, _) =>
      c.(approvers := if c.approvers.Some? && c.approvers.value >= n then c.approvers else Some(n))
    case ActionAllowlist(actions) => c.(actions := Both(c.actions, actions))
    case UnknownRule(name) => c.(unknown := if c.unknown.Some? then c.unknown else Some(name))
  }

  function Collect(rules: seq<PolicyRule>): Canon {
    if rules == [] then EMPTY else Absorb(Collect(rules[..|rules| - 1]), rules[|rules| - 1])
  }

  const KINDS: nat := 8

  // The position of a rule's type in the canonical order.
  function KindOf(rule: PolicyRule): (k: nat)
    ensures k < KINDS
  {
    match rule
    case TokenAllowlist(_) => 0
    case WalletAllowlist(_) => 1
    case MaxUsdPerTransaction(_) => 2
    case MaxUsdPerDay(_) => 3
    case MaxTransactionsPerHour(_) => 4
    case RequireApproval(_, _) => 5
    case ActionAllowlist(_) => 6
    case UnknownRule(_) => 7
  }

  function MapOption<T, U>(o: Option<T>, f: T -> U): Option<U> {
    if o.Some? then Some(f(o.value)) else None
  }

  function Slot(c: Canon, k: nat): (slot: Option<PolicyRule>)
    requires k < KINDS
    ensures slot.Some? ==> KindOf(slot.value) == k
  {
    match k
    case 0 => MapOption(c.tokens, a => TokenAllowlist(a))
    case 1 => MapOption(c.wallets, w => WalletAllowlist(w))
    case 2 => MapOption(c.perTx, m => MaxUsdPerTransaction(m))
    case 3 => MapOption(c.perDay, m => MaxUsdPerDay(m))
    case 4 => MapOption(c.perHour, n => MaxTransactionsPerHour(n))
    case 5 => MapOption(c.approvers, n => RequireApproval(n, None))
    case 6 => MapOption(c.actions, a => ActionAllowlist(a))
    case _ => MapOption(c.unknown, name => UnknownRule(name))
  }

  function ToRulesFrom(c: Canon, k: nat): (rules: seq<PolicyRule>)
    requires k <= KINDS
    ensures forall j :: k <= j < KINDS && Slot(c, j).Some? ==> Slot(c, j).value in rules
    ensures forall rule :: rule in rules ==> k <= KindOf(rule) && Slot(c, KindOf(rule)) == Some(rule)
    ensures forall i, j :: 0 <= i < j < |rules| ==> KindOf(rules[i]) < KindOf(rules[j])
    decreases KINDS - k
  {
    if k == KINDS then []
    else
      var rest := ToRulesFrom(c, k + 1);
      if Slot(c, k).Some? then [Slot(c, k).value] + rest else rest
  }

  function ToRules(c: Canon): seq<PolicyRule> {
    ToRulesFrom(c, 0)
  }

  function CanonicalRules(rules: seq<PolicyRule>): seq<PolicyRule> {
    ToRules(Collect(rules))
  }

  // ---- Meaning ----

  lemma LowerIsIdempotent(s: string)
    ensures Lower(Lower(s)) == Lower(s)
  {
  }

  lemma LowerAllOfLower(tokens: seq<string>)
    requires forall t :: t in tokens ==> Lower(t) == t
    ensures LowerAll(tokens) == tokens
  {
  }

  ghost predicate LowerCase(c: Canon) {
    c.tokens.Some? ==> forall t :: t in c.tokens.value ==> Lower(t) == t
  }

  lemma {:induction false} CollectIsLowerCase(rules: seq<PolicyRule>)
    ensures LowerCase(Collect(rules))
  {
    if rules != [] {
      CollectIsLowerCase(rules[..|rules| - 1]);
      var last := rules[|rules| - 1];
      if last.TokenAllowlist? {
        AbsorbedTokens(Collect(rules[..|rules| - 1]), last.addresses);
      }
    }
  }

  ghost predicate SlotAtMost(ctx: EvaluationContext, c: Canon, k: nat, w: Verdict)
    requires k < KINDS
  {
    Slot(c, k).Some? ==> AtMost(RuleVerdict(ctx, Slot(c, k).value), w)
  }

  ghost predicate CanonAtMost(ctx: EvaluationContext, c: Canon, w: Verdict) {
    forall k :: 0 <= k < KINDS ==> SlotAtMost(ctx, c, k, w)
  }

  lemma ToRulesBounds(ctx: EvaluationContext, c: Canon, w: Verdict)
    ensures UpperBound(ctx, ToRules(c), w) <==> CanonAtMost(ctx, c, w)
  {
    if CanonAtMost(ctx, c, w) {
      forall rule | rule in ToRules(c)
        ensures AtMost(RuleVerdict(ctx, rule), w)
      {
        assert SlotAtMost(ctx, c, KindOf(rule), w);
      }
    }
  }

  // Absorbing a rule leaves the slots of the other types alone.
  lemma AbsorbTouchesOneSlot(c: Canon, rule: PolicyRule, k: nat)
    requires k < KINDS && k != KindOf(rule)
    ensures Slot(Absorb(c, rule), k) == Slot(c, k)
  {
  }

  lemma AbsorbedTokenSlot(ctx: EvaluationContext, c: Canon, addresses: seq<string>, w: Verdict)
    requires LowerCase(c)
    ensures var rule := TokenAllowlist(addresses);
            SlotAtMost(ctx, Absorb(c, rule), 0, w) <==> SlotAtMost(ctx, c, 0, w) && AtMost(RuleVerdict(ctx, rule), w)
  {
    AbsorbedTokens(c, addresses);
    LowerAllOfLower(Both(c.tokens, LowerAll(addresses)).value);
    if c.tokens.Some? {
      LowerAllOfLower(c.tokens.value);
    }
  }

  lemma AbsorbedWalletSlot(ctx: EvaluationContext, c: Canon, walletIds: seq<Id>, w: Verdict)
    ensures var rule := WalletAllowlist(walletIds);
            SlotAtMost(ctx, Absorb(c, rule), 1, w) <==> SlotAtMost(ctx, c, 1, w) && AtMost(RuleVerdict(ctx, rule), w)
  {
  }

  lemma AbsorbedActionSlot(ctx: EvaluationContext, c: Canon, actions: seq<IntentAction>, w: Verdict)
    ensures var rule := ActionAllowlist(actions);
            SlotAtMost(ctx, Absorb(c, rule), 6, w) <==> SlotAtMost(ctx, c, 6, w) && AtMost(RuleVerdict(ctx, rule), w)
  {
  }

  lemma AbsorbedCapSlot(ctx: EvaluationContext, c: Canon, rule: PolicyRule, w: Verdict)
    requires !rule.TokenAllowlist? && !rule.WalletAllowlist? && !rule.ActionAllowlist?
    ensures var k := KindOf(rule);
            SlotAtMost(ctx, Absorb(c, rule), k, w) <==> SlotAtMost(ctx, c, k, w) && AtMost(RuleVerdict(ctx, rule), w)
  {
  }

  lemma AbsorbedSlot(ctx: EvaluationContext, c: Canon, rule: PolicyRule, w: Verdict)
    requires LowerCase(c)
    ensures var k := KindOf(rule);
            SlotAtMost(ctx, Absorb(c, rule), k, w) <==> SlotAtMost(ctx, c, k, w) && AtMost(RuleVerdict(ctx, rule), w)
  {
    hide SlotAtMost, AtMost, Absorb, RuleVerdict, LowerCase;
    if rule.TokenAllowlist? {
      AbsorbedTokenSlot(ctx, c, rule.addresses, w);
    } else if rule.WalletAllowlist? {
      AbsorbedWalletSlot(ctx, c, rule.walletIds, w);
    } else if rule.ActionAllowlist? {
      AbsorbedActionSlot(ctx, c, rule.actions, w);
    } else {
      AbsorbedCapSlot(ctx, c, rule, w);
    }
  }

  lemma AbsorbBounds(ctx: EvaluationContext, c: Canon, rule: PolicyRule, w: Verdict)
    requires LowerCase(c)
    ensures CanonAtMost(ctx, Absorb(c, rule), w) <==> CanonAtMost(ctx, c, w) && AtMost(RuleVerdict(ctx, rule), w)
  {
    AbsorbedSlot(ctx, c, rule, w);
    forall k: nat | k < KINDS && k != KindOf(rule)
      ensures SlotAtMost(ctx, Absorb(c, rule), k, w) <==> SlotAtMost(ctx, c, k, w)
    {
      AbsorbTouchesOneSlot(c, rule, k);
    }
    if CanonAtMost(ctx, Absorb(c, rule), w) {
      assert SlotAtMost(ctx, Absorb(c, rule), KindOf(rule), w);
    }
  }

  lemma AbsorbedTokens(c: Canon, addresses: seq<string>)
    requires LowerCase(c)
    ensures forall t :: t in Both(c.tokens, LowerAll(addresses)).value ==> Lower(t) == t
  {
    forall t | t in LowerAll(addresses)
      ensures Lower(t) == t
    {
      var i :| 0 <= i < |addresses| && LowerAll(addresses)[i] == t;
      LowerIsIdempotent(addresses[i]);
    }
  }

  lemma {:induction false} CollectBounds(ctx: EvaluationContext, rules: seq<PolicyRule>, w: Verdict)
    ensures CanonAtMost(ctx, Collect(rules), w) <==> UpperBound(ctx, rules, w)
  {
    if rules != [] {
      hide CanonAtMost, Absorb, AtMost, LowerCase, RuleVerdict;
      var front, last := rules[..|rules| - 1], rules[|rules| - 1];
      assert rules == front + [last];
      CollectBounds(ctx, front, w);
      CollectIsLowerCase(front);
      AbsorbBounds(ctx, Collect(front), last, w);
    }
  }

  /** In every context the canonical list has the decision and approver count of the original. */
  lemma NormalFormPreservesMeaning(ctx: EvaluationContext, rules: seq<PolicyRule>)
    ensures VerdictOf(Evaluate(ctx, CanonicalRules(rules))) == VerdictOf(Evaluate(ctx, rules))
  {
    forall w
      ensures AtMost(VerdictOf(Evaluate(ctx, CanonicalRules(rules))), w) <==> AtMost(VerdictOf(Evaluate(ctx, rules)), w)
    {
      EvaluateIsLeastUpperBound(ctx, CanonicalRules(rules), w);
      EvaluateIsLeastUpperBound(ctx, rules, w);
      ToRulesBounds(ctx, Collect(rules), w);
      CollectBounds(ctx, rules, w);
    }
    SameBoundsSameVerdict(VerdictOf(Evaluate(ctx, CanonicalRules(rules))), VerdictOf(Evaluate(ctx, rules)));
  }

  // ---- Shape ----

  ghost predicate HasKind(rules: seq<PolicyRule>, k: nat) {
    exists rule :: rule in rules && KindOf(rule) == k
  }

  lemma {:induction false} CollectHasKinds(rules: seq<PolicyRule>, k: nat)
    requires k < KINDS
    ensures Slot(Collect(rules), k).Some? <==> HasKind(rules, k)
  {
    if rules != [] {
      var front, last := rules[..|rules| - 1], rules[|rules| - 1];
      assert rules == front + [last];
      CollectHasKinds(front, k);
      if k != KindOf(last) {
        AbsorbTouchesOneSlot(Collect(front), last, k);
      }
    }
  }

  /** The canonical list has at most one rule of each type, and exactly the types of the original list. */
  lemma NormalFormHasOneRulePerType(rules: seq<PolicyRule>)
    ensures forall i, j :: 0 <= i < j < |CanonicalRules(rules)|
                           ==> KindOf(CanonicalRules(rules)[i]) != KindOf(CanonicalRules(rules)[j])
    ensures forall k :: 0 <= k < KINDS ==> (HasKind(CanonicalRules(rules), k) <==> HasKind(rules, k))
  {
    forall k: nat | k < KINDS
      ensures HasKind(CanonicalRules(rules), k) <==> HasKind(rules, k)
    {
      CollectHasKinds(rules, k);
      if Slot(Collect(rules), k).Some? {
        assert Slot(Collect(rules), k).value in CanonicalRules(rules);
      }
    }
  }
}
