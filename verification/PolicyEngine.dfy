/** The rule handlers, the merge of their results, and the lattice the merge computes in. */
module PolicyEngine {
  import opened Prelude

  datatype IntentAction = Transfer | Deploy

  datatype PolicyRule =
    | TokenAllowlist(addresses: seq<string>)
    | WalletAllowlist(walletIds: seq<Id>)
    | MaxUsdPerTransaction(maxUsd: real)
    | MaxUsdPerDay(maxUsdDaily: real)
    | MaxTransactionsPerHour(maxCount: int)
    | RequireApproval(approverCount: int, approverRoleIds: Option<seq<Id>>)
    | ActionAllowlist(actions: seq<IntentAction>)
    | UnknownRule(name: string)  // a stored rule whose type no handler is registered for

  datatype EvaluationContext = EvaluationContext(
    orgId: Id,
    memberId: Id,
    walletId: Id,
    tokenAddress: string,
    amountUsd: Option<real>,
    dailyUsdSpent: real,
    txCountLastHour: int,
    intentAction: Option<IntentAction>)

  datatype ApprovalRequirement = ApprovalRequirement(approverCount: int, approverRoleIds: Option<seq<Id>>)

  datatype DecisionType = Allow | NeedApproval | Deny

  datatype Metadata =
    | NoMetadata
    | Approval(approval: ApprovalRequirement)
    | PerTxCap(maxUsd: real, amountUsd: real)
    | DailyCap(remainingUsd: real, maxUsd: real, projected: real)
    | HourlyCap(maxCount: int, current: int)
    | FailClosed

  datatype RuleResult = RuleResult(decision: DecisionType, reasons: seq<string>, ruleType: string, metadata: Metadata)

  datatype PolicyDecision = PolicyDecision(
    decision: DecisionType,
    reasons: seq<string>,
    matchedRules: seq<PolicyRule>,
    metadata: Metadata)

  predicate IsHexDigit(c: char) {
    '0' <= c <= '9' || 'a' <= c <= 'f' || 'A' <= c <= 'F'
  }

  predicate IsAddress(a: string) {
    |a| == 42 && a[..2] == "0x" && forall i :: 2 <= i < |a| ==> IsHexDigit(a[i])
  }

  // What the policy schema demands of a stored rule.
  predicate ValidRule(rule: PolicyRule) {
    match rule
    case TokenAllowlist(addresses) =>
      && addresses != [] && (forall i :: 0 <= i < |addresses| ==> IsAddress(addresses[i]))
      && (forall i, j :: 0 <= i < j < |addresses| ==> Lower(addresses[i]) != Lower(addresses[j]))
    case WalletAllowlist(walletIds) => walletIds != []
    case MaxUsdPerTransaction(maxUsd) => maxUsd > 0.0
    case MaxUsdPerDay(maxUsd) => maxUsd > 0.0
    case MaxTransactionsPerHour(maxCount) => maxCount >= 1
    case RequireApproval(approverCount, roles) => approverCount >= 1 && (roles.Some? ==> roles.value != [])
    case ActionAllowlist(actions) => actions != []
    case UnknownRule(_) => false
  }

  predicate ValidRules(rules: seq<PolicyRule>) {
    forall rule :: rule in rules ==> ValidRule(rule)
  }

  // ---- Handlers ----

  function LowerAll(ss: seq<string>): seq<string> {
    seq(|ss|, i requires 0 <= i < |ss| => Lower(ss[i]))
  }

  function Pass(ruleType: string): RuleResult {
    RuleResult(Allow, [], ruleType, NoMetadata)
  }

  function TokenAllowlistHandler(ctx: EvaluationContext, addresses: seq<string>): RuleResult {
    if Lower(ctx.tokenAddress) !in LowerAll(addresses)
    then RuleResult(Deny, ["POLICY_DENIED_TOKEN_NOT_ALLOWED"], "token_allowlist", NoMetadata)
    else Pass("token_allowlist")
  }

  function WalletAllowlistHandler(ctx: EvaluationContext, walletIds: seq<Id>): RuleResult {
    if ctx.walletId !in walletIds
    then RuleResult(Deny, ["POLICY_DENIED_WALLET_NOT_ALLOWED"], "wallet_allowlist", NoMetadata)
    else Pass("wallet_allowlist")
  }

  function MaxUsdPerTxHandler(ctx: EvaluationContext, maxUsd: real): RuleResult {
    if ctx.amountUsd.None?
    then RuleResult(Deny, ["POLICY_DENIED_AMOUNT_UNKNOWN"], "max_usd_per_transaction", NoMetadata)
    else if ctx.amountUsd.value > maxUsd
    then RuleResult(Deny, ["POLICY_DENIED_EXCEEDS_PER_TX"], "max_usd_per_transaction",
                    PerTxCap(maxUsd, ctx.amountUsd.value))
    else Pass("max_usd_per_transaction")
  }

  function MaxUsdPerDayHandler(ctx: EvaluationContext, maxUsd: real): RuleResult {
    if ctx.amountUsd.None?
    then RuleResult(Deny, ["POLICY_DENIED_AMOUNT_UNKNOWN"], "max_usd_per_day", NoMetadata)
    else
      var projected := ctx.dailyUsdSpent + ctx.amountUsd.value;
      if projected > maxUsd
      then
        var remaining := if maxUsd - ctx.dailyUsdSpent > 0.0 then maxUsd - ctx.dailyUsdSpent else 0.0;
        RuleResult(Deny, ["POLICY_DENIED_EXCEEDS_DAILY"], "max_usd_per_day", DailyCap(remaining, maxUsd, projected))
      else Pass("max_usd_per_day")
  }

  function MaxTxPerHourHandler(ctx: EvaluationContext, maxCount: int): RuleResult {
    if ctx.txCountLastHour >= maxCount
    then RuleResult(Deny, ["POLICY_DENIED_RATE_LIMIT"], "max_transactions_per_hour",
                    HourlyCap(maxCount, ctx.txCountLastHour))
    else Pass("max_transactions_per_hour")
  }

  function RequireApprovalHandler(ctx: EvaluationContext, count: int, roles: Option<seq<Id>>): RuleResult {
    if ctx.amountUsd.None? || ctx.amountUsd.value <= 0.0
    then Pass("require_approval")
    else RuleResult(NeedApproval, ["POLICY_DENIED_APPROVAL_REQUIRED"], "require_approval",
                    Approval(ApprovalRequirement(count, roles)))
  }

  function ActionAllowlistHandler(ctx: EvaluationContext, actions: seq<IntentAction>): RuleResult {
    var action := if ctx.intentAction.Some? then ctx.intentAction.value else Transfer;
    if action !in actions
    then RuleResult(Deny, ["ACTION_NOT_ALLOWED"], "action_allowlist", NoMetadata)
    else Pass("action_allowlist")
  }

  // Registry look-up and dispatch; a type without a handler denies.
  function EvaluateRule(ctx: EvaluationContext, rule: PolicyRule): RuleResult {
    match rule
    case TokenAllowlist(addresses) => TokenAllowlistHandler(ctx, addresses)
    case WalletAllowlist(walletIds) => WalletAllowlistHandler(ctx, walletIds)
    case MaxUsdPerTransaction(maxUsd) => MaxUsdPerTxHandler(ctx, maxUsd)
    case MaxUsdPerDay(maxUsd) => MaxUsdPerDayHandler(ctx, maxUsd)
    case MaxTransactionsPerHour(maxCount) => MaxTxPerHourHandler(ctx, maxCount)
    case RequireApproval(count, roles) => RequireApprovalHandler(ctx, count, roles)
    case ActionAllowlist(actions) => ActionAllowlistHandler(ctx, actions)
    case UnknownRule(name) => RuleResult(Deny, ["UNKNOWN_RULE_TYPE:" + name], name, NoMetadata)
  }

  // ---- Merge: the specification ----

  // Index of the first DENY, or the length when there is none.
  function FirstDeny(results: seq<RuleResult>): (k: nat)
    ensures k <= |results|
    ensures k < |results| ==> results[k].decision.Deny?
    ensures forall j :: 0 <= j < k ==> !results[j].decision.Deny?
  {
    if results == [] then 0
    else
      var k := FirstDeny(results[..|results| - 1]);
      if k < |results| - 1 || results[|results| - 1].decision.Deny? then k else k + 1
  }

  function AllReasons(results: seq<RuleResult>): seq<string> {
    if results == [] then [] else AllReasons(results[..|results| - 1]) + results[|results| - 1].reasons
  }

  predicate AsksApproval(result: RuleResult) {
    result.decision.NeedApproval? && result.metadata.Approval?
  }

  function Approvals(results: seq<RuleResult>): (approvals: seq<ApprovalRequirement>)
    ensures forall r :: r in results && AsksApproval(r) ==> r.metadata.approval in approvals
    ensures forall a :: a in approvals ==> exists r :: r in results && AsksApproval(r) && r.metadata.approval == a
  {
    if results == [] then []
    else
      var last := results[|results| - 1];
      Approvals(results[..|results| - 1]) + (if AsksApproval(last) then [last.metadata.approval] else [])
  }

  function MaxCount(approvals: seq<ApprovalRequirement>): (m: int)
    requires approvals != []
    ensures forall a :: a in approvals ==> a.approverCount <= m
    ensures exists a :: a in approvals && a.approverCount == m
  {
    var last := approvals[|approvals| - 1].approverCount;
    if |approvals| == 1 then last
    else
      var m := MaxCount(approvals[..|approvals| - 1]);
      if m > last then m else last
  }

  function LastRoles(approvals: seq<ApprovalRequirement>): Option<seq<Id>> {
    if approvals == [] then None
    else if approvals[|approvals| - 1].approverRoleIds.Some? then approvals[|approvals| - 1].approverRoleIds
    else LastRoles(approvals[..|approvals| - 1])
  }

  function Strictest(approvals: seq<ApprovalRequirement>): Option<ApprovalRequirement> {
    if approvals == [] then None else Some(ApprovalRequirement(MaxCount(approvals), LastRoles(approvals)))
  }

  // The merged decision: any DENY wins, else the strictest approval asked for, else ALLOW.
  // Results beyond the last rule are ignored unless one of them denies.
  function Merge(results: seq<RuleResult>, rules: seq<PolicyRule>): PolicyDecision {
    var k := FirstDeny(results);
    if k < |results| then PolicyDecision(Deny, AllReasons(results), rules, results[k].metadata)
    else
      var n := if |results| < |rules| then |results| else |rules|;
      var strictest := Strictest(Approvals(results[..n]));
      if strictest.Some?
      then PolicyDecision(NeedApproval, AllReasons(results[..n]), rules[..n], Approval(strictest.value))
      else PolicyDecision(Allow, AllReasons(results[..n]), rules[..n], NoMetadata)
  }

  function PickStricterApproval(current: Option<ApprovalRequirement>, next: ApprovalRequirement): ApprovalRequirement {
    if current.None? then next
    else ApprovalRequirement(
           if current.value.approverCount > next.approverCount then current.value.approverCount else next.approverCount,
           if next.approverRoleIds.Some? then next.approverRoleIds else current.value.approverRoleIds)
  }

  lemma StrictestOfOneMore(approvals: seq<ApprovalRequirement>, a: ApprovalRequirement)
    ensures Strictest(approvals + [a]) == Some(PickStricterApproval(Strictest(approvals), a))
  {
    assert (approvals + [a])[..|approvals|] == approvals;
    if approvals == [] {
      assert LastRoles([a]) == a.approverRoleIds by {
        assert [a][..0] == [];
      }
    }
  }

  // What the loop adds to its accumulators for result number i.
  lemma OneMoreResult(results: seq<RuleResult>, i: nat)
    requires i < |results|
    ensures AllReasons(results[..i + 1]) == AllReasons(results[..i]) + results[i].reasons
    ensures Approvals(results[..i + 1]) ==
            Approvals(results[..i]) + (if AsksApproval(results[i]) then [results[i].metadata.approval] else [])
  {
    var more := results[..i + 1];
    assert more[..|more| - 1] == results[..i];
  }

  // ---- Merge: the loop of the source ----

  method MergeResults(results: seq<RuleResult>, rules: seq<PolicyRule>) returns (d: PolicyDecision)
    ensures d == Merge(results, rules)
  {
    var deny := 0;
    while deny < |results| && !results[deny].decision.Deny?
      invariant deny <= |results|
      invariant forall j :: 0 <= j < deny ==> !results[j].decision.Deny?
    {
      deny := deny + 1;
    }
    if deny < |results| {
      return PolicyDecision(Deny, AllReasons(results), rules, results[deny].metadata);
    }
    var approval, matchedRules, reasons := MergeWithoutDeny(results, rules);
    if approval.Some? {
      return PolicyDecision(NeedApproval, reasons, matchedRules, Approval(approval.value));
    }
    return PolicyDecision(Allow, reasons, matchedRules, NoMetadata);
  }

  method MergeWithoutDeny(results: seq<RuleResult>, rules: seq<PolicyRule>)
    returns (approval: Option<ApprovalRequirement>, matchedRules: seq<PolicyRule>, reasons: seq<string>)
    ensures var n := if |results| < |rules| then |results| else |rules|;
            matchedRules == rules[..n] && reasons == AllReasons(results[..n])
            && approval == Strictest(Approvals(results[..n]))
  {
    approval, matchedRules, reasons := None, [], [];
    ghost var k := 0;
    for i := 0 to |results|
      invariant k == if i < |rules| then i else |rules|
      invariant matchedRules == rules[..k]
      invariant reasons == AllReasons(results[..k])
      invariant approval == Strictest(Approvals(results[..k]))
    {
      if i < |rules| {
        OneMoreResult(results, i);
        ghost var before := Approvals(results[..i]);
        assert before + [] == before;
        matchedRules := matchedRules + [rules[i]];
        reasons := reasons + results[i].reasons;
        if results[i].decision.NeedApproval? && results[i].metadata.Approval? {
          StrictestOfOneMore(before, results[i].metadata.approval);
          approval := Some(PickStricterApproval(approval, results[i].metadata.approval));
        }
        k := k + 1;
      }
    }
  }

  function Results(ctx: EvaluationContext, rules: seq<PolicyRule>): seq<RuleResult> {
    seq(|rules|, i requires 0 <= i < |rules| => EvaluateRule(ctx, rules[i]))
  }

  function Evaluate(ctx: EvaluationContext, rules: seq<PolicyRule>): PolicyDecision {
    if rules == [] then PolicyDecision(Allow, [], [], NoMetadata) else Merge(Results(ctx, rules), rules)
  }

  // PolicyEvaluator.evaluate as it runs: map the rules through their handlers, then merge.
  method EvaluatePolicy(ctx: EvaluationContext, rules: seq<PolicyRule>) returns (d: PolicyDecision)
    ensures d == Evaluate(ctx, rules)
  {
    if rules == [] {
      return PolicyDecision(Allow, [], [], NoMetadata);
    }
    d := MergeResults(Results(ctx, rules), rules);
  }

  // ---- The lattice ALLOW < REQUIRE_APPROVAL(n) < DENY ----

  datatype Verdict = Allowed | Needs(count: int) | Refused

  predicate AtMost(a: Verdict, b: Verdict) {
    match (a, b)
    case (Allowed, _) => true
    case (_, Refused) => true
    case (Needs(m), Needs(n)) => m <= n
    case _ => false
  }

  function Join(a: Verdict, b: Verdict): Verdict {
    if AtMost(a, b) then b else a
  }

  function VerdictOf(d: PolicyDecision): Verdict {
    match d.decision
    case Allow => Allowed
    case Deny => Refused
    case NeedApproval => if d.metadata.Approval? then Needs(d.metadata.approval.approverCount) else Allowed
  }

  function ResultVerdict(r: RuleResult): Verdict {
    if r.decision.Deny? then Refused
    else if AsksApproval(r) then Needs(r.metadata.approval.approverCount)
    else Allowed
  }

  function RuleVerdict(ctx: EvaluationContext, rule: PolicyRule): Verdict {
    ResultVerdict(EvaluateRule(ctx, rule))
  }

  ghost predicate UpperBound(ctx: EvaluationContext, rules: seq<PolicyRule>, w: Verdict) {
    forall rule :: rule in rules ==> AtMost(RuleVerdict(ctx, rule), w)
  }

  // A merge is at most w exactly when every single result is.
  lemma MergeIsLeastUpperBound(results: seq<RuleResult>, rules: seq<PolicyRule>, w: Verdict)
    requires |results| == |rules|
    ensures AtMost(VerdictOf(Merge(results, rules)), w) <==> forall r :: r in results ==> AtMost(ResultVerdict(r), w)
  {
    var k := FirstDeny(results);
    if k < |results| {
      assert results[k] in results;
    } else {
      assert results[..|results|] == results;
      var approvals := Approvals(results);
      if approvals != [] {
        var m := MaxCount(approvals);
        assert VerdictOf(Merge(results, rules)) == Needs(m);
        var a :| a in approvals && a.approverCount == m;
        var top :| top in results && AsksApproval(top) && top.metadata.approval == a;
        assert ResultVerdict(top) == Needs(m);
        forall r | r in results
          ensures AtMost(ResultVerdict(r), Needs(m))
        {
          if AsksApproval(r) {
            assert r.metadata.approval in approvals;
          }
        }
      }
    }
  }

  /** The verdict of a rule list is the least upper bound of the verdicts of its rules. */
  lemma EvaluateIsLeastUpperBound(ctx: EvaluationContext, rules: seq<PolicyRule>, w: Verdict)
    ensures AtMost(VerdictOf(Evaluate(ctx, rules)), w) <==> UpperBound(ctx, rules, w)
  {
    if rules != [] {
      var results := Results(ctx, rules);
      MergeIsLeastUpperBound(results, rules, w);
      if forall r :: r in results ==> AtMost(ResultVerdict(r), w) {
        forall rule | rule in rules
          ensures AtMost(RuleVerdict(ctx, rule), w)
        {
          var i :| 0 <= i < |rules| && rules[i] == rule;
          assert results[i] in results;
        }
      } else {
        var r :| r in results && !AtMost(ResultVerdict(r), w);
        var i :| 0 <= i < |results| && results[i] == r;
        assert rules[i] in rules;
      }
    }
  }

  lemma SameBoundsSameVerdict(a: Verdict, b: Verdict)
    requires forall w :: AtMost(a, w) <==> AtMost(b, w)
    ensures a == b
  {
    assert AtMost(a, a) && AtMost(b, b);
  }

  /** Evaluating a concatenation is the join of evaluating the parts. */
  lemma MergeIsHomomorphism(ctx: EvaluationContext, xs: seq<PolicyRule>, ys: seq<PolicyRule>)
    ensures VerdictOf(Evaluate(ctx, xs + ys)) == Join(VerdictOf(Evaluate(ctx, xs)), VerdictOf(Evaluate(ctx, ys)))
  {
    var joined := Join(VerdictOf(Evaluate(ctx, xs)), VerdictOf(Evaluate(ctx, ys)));
    forall w
      ensures AtMost(VerdictOf(Evaluate(ctx, xs + ys)), w) <==> AtMost(joined, w)
    {
      EvaluateIsLeastUpperBound(ctx, xs + ys, w);
      EvaluateIsLeastUpperBound(ctx, xs, w);
      EvaluateIsLeastUpperBound(ctx, ys, w);
      assert UpperBound(ctx, xs + ys, w) <==> UpperBound(ctx, xs, w) && UpperBound(ctx, ys, w);
    }
    SameBoundsSameVerdict(VerdictOf(Evaluate(ctx, xs + ys)), joined);
  }

  /** Only which rules occur matters: not their order, and not how often each occurs. */
  lemma OrderAndRepetitionIrrelevant(ctx: EvaluationContext, xs: seq<PolicyRule>, ys: seq<PolicyRule>)
    requires forall rule :: rule in xs <==> rule in ys
    ensures VerdictOf(Evaluate(ctx, xs)) == VerdictOf(Evaluate(ctx, ys))
  {
    forall w
      ensures AtMost(VerdictOf(Evaluate(ctx, xs)), w) <==> AtMost(VerdictOf(Evaluate(ctx, ys)), w)
    {
      EvaluateIsLeastUpperBound(ctx, xs, w);
      EvaluateIsLeastUpperBound(ctx, ys, w);
    }
    SameBoundsSameVerdict(VerdictOf(Evaluate(ctx, xs)), VerdictOf(Evaluate(ctx, ys)));
  }

  /** Every permutation of the rules gets the same verdict. */
  lemma PermutationInvariant(ctx: EvaluationContext, xs: seq<PolicyRule>, ys: seq<PolicyRule>)
    requires multiset(xs) == multiset(ys)
    ensures VerdictOf(Evaluate(ctx, xs)) == VerdictOf(Evaluate(ctx, ys))
  {
    forall rule: PolicyRule
      ensures rule in xs <==> rule in ys
    {
      assert rule in xs <==> rule in multiset(xs);
      assert rule in ys <==> rule in multiset(ys);
    }
    OrderAndRepetitionIrrelevant(ctx, xs, ys);
  }

  /** Inserting rules anywhere never loosens the outcome. */
  lemma MoreRulesNeverLoosen(ctx: EvaluationContext, xs: seq<PolicyRule>, ys: seq<PolicyRule>)
    requires forall rule :: rule in xs ==> rule in ys
    ensures AtMost(VerdictOf(Evaluate(ctx, xs)), VerdictOf(Evaluate(ctx, ys)))
  {
    var w := VerdictOf(Evaluate(ctx, ys));
    EvaluateIsLeastUpperBound(ctx, ys, w);
    EvaluateIsLeastUpperBound(ctx, xs, w);
  }

  ghost predicate SpendsLess(low: EvaluationContext, high: EvaluationContext) {
    && low.amountUsd.Some? && high.amountUsd.Some?
    && low.amountUsd.value <= high.amountUsd.value
    && low.dailyUsdSpent <= high.dailyUsdSpent && low.txCountLastHour <= high.txCountLastHour
    && high == low.(amountUsd := high.amountUsd, dailyUsdSpent := high.dailyUsdSpent,
                    txCountLastHour := high.txCountLastHour)
  }

  lemma RuleMonotoneInSpend(low: EvaluationContext, high: EvaluationContext, rule: PolicyRule)
    requires SpendsLess(low, high)
    ensures AtMost(RuleVerdict(low, rule), RuleVerdict(high, rule))
  {
  }

  /** More spending, a larger amount or more transactions never loosen the outcome. */
  lemma MonotoneInSpend(low: EvaluationContext, high: EvaluationContext, rules: seq<PolicyRule>)
    requires SpendsLess(low, high)
    ensures AtMost(VerdictOf(Evaluate(low, rules)), VerdictOf(Evaluate(high, rules)))
  {
    var w := VerdictOf(Evaluate(high, rules));
    EvaluateIsLeastUpperBound(high, rules, w);
    forall rule | rule in rules
      ensures AtMost(RuleVerdict(low, rule), w)
    {
      RuleMonotoneInSpend(low, high, rule);
      assert AtMost(RuleVerdict(high, rule), w);
    }
    EvaluateIsLeastUpperBound(low, rules, w);
  }

  lemma UnknownAmountRule(ctx: EvaluationContext, rule: PolicyRule)
    requires ctx.amountUsd.None?
    ensures !RuleVerdict(ctx, rule).Needs?
    ensures rule.MaxUsdPerTransaction? || rule.MaxUsdPerDay? ==> RuleVerdict(ctx, rule) == Refused
  {
  }

  /** An unknown amount never asks for approval; it is refused exactly when some rule alone refuses it. */
  lemma UnknownAmountNeverAsksApproval(ctx: EvaluationContext, rules: seq<PolicyRule>)
    requires ctx.amountUsd.None?
    ensures VerdictOf(Evaluate(ctx, rules)) ==
            if exists rule :: rule in rules && RuleVerdict(ctx, rule) == Refused then Refused else Allowed
    ensures forall rule :: rule in rules && (rule.MaxUsdPerTransaction? || rule.MaxUsdPerDay?)
                           ==> RuleVerdict(ctx, rule) == Refused
  {
    hide Evaluate, RuleVerdict;
    EvaluateIsLeastUpperBound(ctx, rules, VerdictOf(Evaluate(ctx, rules)));
    EvaluateIsLeastUpperBound(ctx, rules, Allowed);
    forall rule | rule in rules
      ensures !RuleVerdict(ctx, rule).Needs?
      ensures rule.MaxUsdPerTransaction? || rule.MaxUsdPerDay? ==> RuleVerdict(ctx, rule) == Refused
    {
      UnknownAmountRule(ctx, rule);
    }
  }

  lemma MergedApprovalCount(results: seq<RuleResult>, rules: seq<PolicyRule>)
    requires |results| == |rules|
    requires Merge(results, rules).decision.NeedApproval?
    ensures var d := Merge(results, rules);
            && d.metadata.Approval?
            && d.matchedRules == rules
            && (forall r :: r in results && AsksApproval(r)
                            ==> r.metadata.approval.approverCount <= d.metadata.approval.approverCount)
            && (exists r :: r in results && AsksApproval(r)
                            && r.metadata.approval.approverCount == d.metadata.approval.approverCount)
  {
    assert results[..|results|] == results && rules[..|rules|] == rules;
    var approvals := Approvals(results);
    var a :| a in approvals && a.approverCount == MaxCount(approvals);
    var r :| r in results && AsksApproval(r) && r.metadata.approval == a;
  }

  // Which rules ask for an approval, and for how many approvers.
  lemma WhoAsksApproval(ctx: EvaluationContext, rule: PolicyRule)
    ensures AsksApproval(EvaluateRule(ctx, rule)) <==>
            rule.RequireApproval? && ctx.amountUsd.Some? && ctx.amountUsd.value > 0.0
    ensures AsksApproval(EvaluateRule(ctx, rule)) ==>
            EvaluateRule(ctx, rule).metadata.approval.approverCount == rule.approverCount
  {
  }

  /** What an approval outcome records: every rule evaluated, and the highest count an approval rule asks for. */
  lemma ApprovalCountDominates(ctx: EvaluationContext, rules: seq<PolicyRule>, d: PolicyDecision)
    requires d == Evaluate(ctx, rules) && d.decision.NeedApproval?
    ensures d.metadata.Approval? && d.matchedRules == rules
    ensures forall rule :: rule in rules && rule.RequireApproval?
                           ==> rule.approverCount <= d.metadata.approval.approverCount
    ensures exists rule :: rule in rules && rule.RequireApproval?
                           && rule.approverCount == d.metadata.approval.approverCount
  {
    hide EvaluateRule, Merge;
    var results := Results(ctx, rules);
    assert d == Merge(results, rules) by {
      assert rules != [];
    }
    MergedApprovalCount(results, rules);
    var r :| r in results && AsksApproval(r) && r.metadata.approval.approverCount == d.metadata.approval.approverCount;
    var i :| 0 <= i < |results| && results[i] == r;
    WhoAsksApproval(ctx, rules[i]);
    assert rules[i] in rules;
    forall rule | rule in rules && rule.RequireApproval?
      ensures rule.approverCount <= d.metadata.approval.approverCount
    {
      var j :| 0 <= j < |rules| && rules[j] == rule;
      WhoAsksApproval(ctx, rules[j]);
      assert results[j] in results;
    }
  }

  // ---- What a rule list means ----

  // Intents that name no action are transfers.
  function ActionOf(ctx: EvaluationContext): IntentAction {
    if ctx.intentAction == Some(Deploy) then Deploy else Transfer
  }

  // The condition a rule puts on an intent does not hold.
  ghost predicate Broken(ctx: EvaluationContext, rule: PolicyRule) {
    match rule
    case TokenAllowlist(addresses) => forall a :: a in addresses ==> Lower(a) != Lower(ctx.tokenAddress)
    case WalletAllowlist(walletIds) => ctx.walletId !in walletIds
    case MaxUsdPerTransaction(maxUsd) => ctx.amountUsd == None || ctx.amountUsd.value > maxUsd
    case MaxUsdPerDay(maxUsd) => ctx.amountUsd == None || ctx.amountUsd.value > maxUsd - ctx.dailyUsdSpent
    case MaxTransactionsPerHour(maxCount) => ctx.txCountLastHour + 1 > maxCount
    case RequireApproval(_, _) => false
    case ActionAllowlist(actions) => ActionOf(ctx) !in actions
    case UnknownRule(_) => true
  }

  predicate MovesValue(ctx: EvaluationContext) {
    ctx.amountUsd.Some? && ctx.amountUsd.value > 0.0
  }

  lemma RefusedIffBroken(ctx: EvaluationContext, rule: PolicyRule)
    ensures RuleVerdict(ctx, rule) == Refused <==> Broken(ctx, rule)
  {
    if rule.TokenAllowlist? {
      var lower := LowerAll(rule.addresses);
      forall a | a in rule.addresses
        ensures Lower(a) in lower
      {
        var i :| 0 <= i < |rule.addresses| && rule.addresses[i] == a;
        assert lower[i] == Lower(a);
      }
      forall b | b in lower
        ensures exists a :: a in rule.addresses && Lower(a) == b
      {
        var i :| 0 <= i < |lower| && lower[i] == b;
        assert rule.addresses[i] in rule.addresses;
      }
      assert RuleVerdict(ctx, rule) == Refused <==> Lower(ctx.tokenAddress) !in lower;
    } else if rule.ActionAllowlist? && ctx.intentAction.Some? {
      assert ActionOf(ctx) == ctx.intentAction.value;
    }
  }

  /**
   * An intent is denied exactly when some rule's condition is broken. Otherwise it needs approval exactly when it
   * moves a known positive value and some rule asks for approval, and then by the highest number asked for.
   */
  lemma DecisionMeaning(ctx: EvaluationContext, rules: seq<PolicyRule>, d: PolicyDecision)
    requires d == Evaluate(ctx, rules)
    ensures d.decision.Deny? <==> exists rule :: rule in rules && Broken(ctx, rule)
    ensures d.decision.NeedApproval? <==>
            && (forall rule :: rule in rules ==> !Broken(ctx, rule))
            && MovesValue(ctx) && exists rule :: rule in rules && rule.RequireApproval?
  {
    hide Evaluate, RuleVerdict, Broken, EvaluateRule;
    if d.decision.NeedApproval? {
      ApprovalCountDominates(ctx, rules, d);
    }
    forall rule | rule in rules
      ensures RuleVerdict(ctx, rule) == Refused <==> Broken(ctx, rule)
      ensures RuleVerdict(ctx, rule).Needs? <==> rule.RequireApproval? && MovesValue(ctx)
    {
      RefusedIffBroken(ctx, rule);
      WhoNeeds(ctx, rule);
    }
    var v := VerdictOf(d);
    EvaluateIsLeastUpperBound(ctx, rules, v);
    EvaluateIsLeastUpperBound(ctx, rules, Allowed);
    if forall rule :: rule in rules ==> RuleVerdict(ctx, rule) != Refused {
      HighestAsked(ctx, rules);
    }
  }

  lemma WhoNeeds(ctx: EvaluationContext, rule: PolicyRule)
    ensures RuleVerdict(ctx, rule).Needs? <==> rule.RequireApproval? && MovesValue(ctx)
  {
  }

  // Without a refusal some number of approvers is enough for every rule.
  lemma {:induction false} HighestAsked(ctx: EvaluationContext, rules: seq<PolicyRule>)
    requires forall rule :: rule in rules ==> RuleVerdict(ctx, rule) != Refused
    ensures VerdictOf(Evaluate(ctx, rules)) != Refused
  {
    hide Evaluate, RuleVerdict;
    var n := Enough(ctx, rules);
    EvaluateIsLeastUpperBound(ctx, rules, Needs(n));
  }

  ghost function Enough(ctx: EvaluationContext, rules: seq<PolicyRule>): (n: int)
    requires forall rule :: rule in rules ==> RuleVerdict(ctx, rule) != Refused
    ensures UpperBound(ctx, rules, Needs(n))
  {
    if rules == [] then 0
    else
      var n := Enough(ctx, rules[..|rules| - 1]);
      assert rules == rules[..|rules| - 1] + [rules[|rules| - 1]];
      match RuleVerdict(ctx, rules[|rules| - 1])
      case Needs(m) => if m > n then m else n
      case _ => n
  }
}
