/** Evaluating an intent: the rules of all active roles, the price look-up that fails closed, and the counters. */
module PolicyEvaluation {
  import opened Prelude
  import opened PolicyEngine

  datatype Price = Quoted(usd: real) | Unavailable

  // Everything an evaluation reads. `native` is None when the amount does not parse as a finite number.
  datatype Evaluation = Evaluation(ctx: EvaluationContext, rules: seq<PolicyRule>, price: Price, native: Option<real>)

  function AmountUsd(price: Price, native: Option<real>): Option<real> {
    if price.Quoted? && native.Some? then Some(native.value * price.usd) else None
  }

  function EvaluateIntent(e: Evaluation): PolicyDecision {
    if e.price.Unavailable?
    then PolicyDecision(Deny, ["POLICY_DENIED_PRICE_UNAVAILABLE"], [], FailClosed)
    else Evaluate(e.ctx.(amountUsd := AmountUsd(e.price, e.native)), e.rules)
  }

  // The context of an evaluation with a quoted price: the amount is the native amount times the price.
  function PricedContext(e: Evaluation): EvaluationContext
    requires e.price.Quoted?
  {
    e.ctx.(amountUsd := if e.native.None? then None else Some(e.native.value * e.price.usd))
  }

  // The price is known and every rule's condition holds.
  ghost predicate NothingBroken(e: Evaluation) {
    e.price.Quoted? && forall rule :: rule in e.rules ==> !Broken(PricedContext(e), rule)
  }

  lemma PricedAmount(e: Evaluation)
    requires e.price.Quoted?
    ensures e.ctx.(amountUsd := AmountUsd(e.price, e.native)) == PricedContext(e)
  {
    var a, b := AmountUsd(e.price, e.native), PricedContext(e).amountUsd;
    if e.native.Some? {
      assert a.Some? && b.Some?;
      var product := e.native.value * e.price.usd;
      assert a.value == product;
      assert b.value == product;
    } else {
      assert a == None && b == None;
    }
    assert a == b;
  }

  /**
   * An evaluation fails closed: it denies exactly when the price is unavailable or some rule is broken. It asks for
   * approval exactly when nothing is broken, the amount is known and positive, and some rule asks for approval.
   */
  lemma EvaluationMeaning(e: Evaluation)
    ensures e.price.Unavailable? ==> EvaluateIntent(e).decision.Deny? && EvaluateIntent(e).matchedRules == []
    ensures EvaluateIntent(e).decision.Deny? <==>
            e.price.Unavailable? || exists rule :: rule in e.rules && Broken(PricedContext(e), rule)
    ensures EvaluateIntent(e).decision.NeedApproval? <==>
            && NothingBroken(e) && e.native.Some? && e.native.value * e.price.usd > 0.0
            && exists rule :: rule in e.rules && rule.RequireApproval?
  {
    hide Evaluate, Broken;
    if e.price.Quoted? {
      PricedAmount(e);
      DecisionMeaning(PricedContext(e), e.rules, EvaluateIntent(e));
    }
  }

  /** What is not denied was evaluated with a quoted price and breaks no rule. */
  lemma NotDeniedMeansNothingBroken(e: Evaluation)
    requires !EvaluateIntent(e).decision.Deny?
    ensures NothingBroken(e)
  {
    hide Evaluate, Broken, EvaluateIntent;
    EvaluationMeaning(e);
  }

  // Every approval rule asks for at least one approver, as the policy schema demands.
  ghost predicate CountsPositive(rules: seq<PolicyRule>) {
    forall rule :: rule in rules && rule.RequireApproval? ==> rule.approverCount >= 1
  }

  /** An approval outcome carries a requirement that is positive and covers every approval rule evaluated. */
  lemma ApprovalRequirementCovers(e: Evaluation)
    requires CountsPositive(e.rules)
    requires EvaluateIntent(e).decision.NeedApproval?
    ensures var d := EvaluateIntent(e);
            && d.metadata.Approval? && d.metadata.approval.approverCount >= 1
            && d.matchedRules == e.rules
            && forall rule :: rule in e.rules && rule.RequireApproval?
                              ==> rule.approverCount <= d.metadata.approval.approverCount
  {
    var ctx := e.ctx.(amountUsd := AmountUsd(e.price, e.native));
    ApprovalCountDominates(ctx, e.rules, Evaluate(ctx, e.rules));
  }

  // ---- Resolving the rules of several roles ----

  // A policy row whose stored JSON is not an array contributes no rules (None).
  function RulesOf(policies: seq<Option<seq<PolicyRule>>>): seq<PolicyRule> {
    if policies == [] then []
    else
      var last := policies[|policies| - 1];
      RulesOf(policies[..|policies| - 1]) + (if last.Some? then last.value else [])
  }

  method CollectRules(policies: seq<Option<seq<PolicyRule>>>) returns (rules: seq<PolicyRule>)
    ensures rules == RulesOf(policies)
  {
    rules := [];
    for i := 0 to |policies|
      invariant rules == RulesOf(policies[..i])
    {
      assert policies[..i + 1][..i] == policies[..i];
      if policies[i].Some? {
        rules := rules + policies[i].value;
      }
    }
    assert policies[..|policies|] == policies;
  }

  /** Several roles together are exactly as strict as the strictest of them: most restrictive merge. */
  lemma {:induction false} MostRestrictiveOfRoles(ctx: EvaluationContext, policies: seq<Option<seq<PolicyRule>>>,
                                                  w: Verdict)
    ensures AtMost(VerdictOf(Evaluate(ctx, RulesOf(policies))), w) <==>
            forall policy :: policy in policies && policy.Some? ==> AtMost(VerdictOf(Evaluate(ctx, policy.value)), w)
  {
    if policies == [] {
      EvaluateIsLeastUpperBound(ctx, [], w);
    } else {
      hide Evaluate;
      var front, last := policies[..|policies| - 1], policies[|policies| - 1];
      assert policies == front + [last];
      EvaluateIsLeastUpperBound(ctx, [], w);
      MostRestrictiveOfRoles(ctx, front, w);
      var more := if last.Some? then last.value else [];
      MergeIsHomomorphism(ctx, RulesOf(front), more);
    }
  }
}
