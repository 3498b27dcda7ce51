/** What a decision records beside its outcome: the reasons, the rules looked at, and the numbers behind it. */
module DecisionRecord {
  import opened Prelude
  import opened PolicyEngine

  // The rule speaks up in this context, and this is the code it gives.
  ghost predicate Objects(ctx: EvaluationContext, rule: PolicyRule, code: string) {
    if rule.RequireApproval? then MovesValue(ctx) && code == "POLICY_DENIED_APPROVAL_REQUIRED"
    else
      && Broken(ctx, rule)
      && code == match rule
                 case TokenAllowlist(_) => "POLICY_DENIED_TOKEN_NOT_ALLOWED"
                 case WalletAllowlist(_) => "POLICY_DENIED_WALLET_NOT_ALLOWED"
                 case MaxUsdPerTransaction(_) =>
                   if ctx.amountUsd.Some? then "POLICY_DENIED_EXCEEDS_PER_TX" else "POLICY_DENIED_AMOUNT_UNKNOWN"
                 case MaxUsdPerDay(_) =>
                   if ctx.amountUsd.Some? then "POLICY_DENIED_EXCEEDS_DAILY" else "POLICY_DENIED_AMOUNT_UNKNOWN"
                 case MaxTransactionsPerHour(_) => "POLICY_DENIED_RATE_LIMIT"
                 case ActionAllowlist(_) => "ACTION_NOT_ALLOWED"
                 case UnknownRule(name) => "UNKNOWN_RULE_TYPE:" + name
                 case RequireApproval(_, _) => ""
  }

  /** A rule that speaks up gives exactly its one code; a rule that does not gives none. */
  lemma OneReasonPerObjection(ctx: EvaluationContext, rule: PolicyRule, code: string)
    ensures EvaluateRule(ctx, rule).reasons == [code] <==> Objects(ctx, rule, code)
    ensures EvaluateRule(ctx, rule).reasons == [] <==> !Broken(ctx, rule) && !(rule.RequireApproval? && MovesValue(ctx))
  {
    hide Broken;
    RefusedIffBroken(ctx, rule);
  }

  // ---- The reasons ----

  lemma {:induction false} AllReasonsConcatenate(xs: seq<RuleResult>, ys: seq<RuleResult>)
    ensures AllReasons(xs + ys) == AllReasons(xs) + AllReasons(ys)
  {
    if ys == [] {
      assert xs + ys == xs;
    } else {
      assert (xs + ys)[..|xs + ys| - 1] == xs + ys[..|ys| - 1];
      AllReasonsConcatenate(xs, ys[..|ys| - 1]);
    }
  }

  lemma ReasonsAre(ctx: EvaluationContext, rules: seq<PolicyRule>)
    ensures Evaluate(ctx, rules).reasons == AllReasons(Results(ctx, rules))
    ensures Evaluate(ctx, rules).matchedRules == rules
  {
    hide EvaluateRule;
    var results := Results(ctx, rules);
    assert results[..|rules|] == results && rules[..|rules|] == rules;
  }

  /** The reasons follow the rules: those of the first rules, then those of the rest, none left out. */
  lemma ReasonsFollowTheRules(ctx: EvaluationContext, xs: seq<PolicyRule>, ys: seq<PolicyRule>)
    ensures Evaluate(ctx, xs + ys).reasons == Evaluate(ctx, xs).reasons + Evaluate(ctx, ys).reasons
    ensures Evaluate(ctx, xs + ys).matchedRules == xs + ys
  {
    hide Evaluate, EvaluateRule;
    ReasonsAre(ctx, xs);
    ReasonsAre(ctx, ys);
    ReasonsAre(ctx, xs + ys);
    assert Results(ctx, xs + ys) == Results(ctx, xs) + Results(ctx, ys);
    AllReasonsConcatenate(Results(ctx, xs), Results(ctx, ys));
  }

  lemma ReasonsOfOneRule(ctx: EvaluationContext, rule: PolicyRule, code: string)
    ensures code in Evaluate(ctx, [rule]).reasons <==> Objects(ctx, rule, code)
  {
    hide Evaluate, EvaluateRule, Objects, Broken;
    var result := EvaluateRule(ctx, rule);
    ReasonsAre(ctx, [rule]);
    assert Results(ctx, [rule]) == [result];
    assert AllReasons([result]) == result.reasons by {
      assert [result][..0] == [];
    }
    AtMostOneReason(ctx, rule);
    OneReasonPerObjection(ctx, rule, code);
  }

  /** A code is among the reasons exactly when some rule objects with it. */
  lemma {:induction false} ReasonsMeaning(ctx: EvaluationContext, rules: seq<PolicyRule>, code: string)
    ensures code in Evaluate(ctx, rules).reasons <==> exists rule :: rule in rules && Objects(ctx, rule, code)
  {
    if rules == [] {
      assert Evaluate(ctx, rules).reasons == [];
    } else {
      hide Evaluate, Objects;
      var front, last := rules[..|rules| - 1], rules[|rules| - 1];
      assert rules == front + [last];
      ReasonsFollowTheRules(ctx, front, [last]);
      ReasonsMeaning(ctx, front, code);
      ReasonsOfOneRule(ctx, last, code);
    }
  }

  lemma AtMostOneReason(ctx: EvaluationContext, rule: PolicyRule)
    ensures |EvaluateRule(ctx, rule).reasons| <= 1
  {
  }

  // ---- The numbers ----

  // What is left of a daily cap is the most that could still be moved.
  ghost predicate LeftOfCap(ctx: EvaluationContext, rule: PolicyRule, remaining: real) {
    && remaining >= 0.0
    && forall x: real :: x > 0.0 ==> (x <= remaining <==> !Broken(ctx.(amountUsd := Some(x)), rule))
  }

  // The numbers a broken rule reports.
  ghost predicate Reports(ctx: EvaluationContext, rule: PolicyRule, m: Metadata) {
    match rule
    case MaxUsdPerTransaction(maxUsd) =>
      if ctx.amountUsd.None? then m.NoMetadata?
      else m.PerTxCap? && m.maxUsd == maxUsd && m.amountUsd == ctx.amountUsd.value
    case MaxUsdPerDay(maxUsd) =>
      if ctx.amountUsd.None? then m.NoMetadata?
      else m.DailyCap? && m.maxUsd == maxUsd && m.projected - ctx.amountUsd.value == ctx.dailyUsdSpent
           && LeftOfCap(ctx, rule, m.remainingUsd)
    case MaxTransactionsPerHour(maxCount) => m.HourlyCap? && m.maxCount == maxCount && m.current == ctx.txCountLastHour
    case _ => m.NoMetadata?
  }

  lemma BrokenRuleReports(ctx: EvaluationContext, rule: PolicyRule)
    requires Broken(ctx, rule)
    ensures Reports(ctx, rule, EvaluateRule(ctx, rule).metadata)
  {
    RefusedIffBroken(ctx, rule);
    if rule.MaxUsdPerDay? && ctx.amountUsd.Some? {
      var r := EvaluateRule(ctx, rule);
      assert r.decision.Deny? && r.metadata.DailyCap?;
      forall x: real | x > 0.0
        ensures x <= r.metadata.remainingUsd <==> !Broken(ctx.(amountUsd := Some(x)), rule)
      {
        var other := ctx.(amountUsd := Some(x));
        assert Broken(other, rule) <==> x > rule.maxUsdDaily - ctx.dailyUsdSpent;
      }
    }
  }

  /** A denial reports the numbers of the first broken rule. */
  lemma DenialReportsFirstBroken(ctx: EvaluationContext, rules: seq<PolicyRule>, d: PolicyDecision)
    requires d == Evaluate(ctx, rules) && d.decision.Deny?
    ensures exists first :: 0 <= first < |rules| && Broken(ctx, rules[first]) && Reports(ctx, rules[first], d.metadata)
                            && forall j :: 0 <= j < first ==> !Broken(ctx, rules[j])
  {
    hide EvaluateRule, Broken, Reports;
    var results := Results(ctx, rules);
    var first := FirstDeny(results);
    assert first < |results| && d.metadata == results[first].metadata;
    RefusedIffBroken(ctx, rules[first]);
    BrokenRuleReports(ctx, rules[first]);
    forall j | 0 <= j < first
      ensures !Broken(ctx, rules[j])
    {
      assert !results[j].decision.Deny?;
      RefusedIffBroken(ctx, rules[j]);
    }
  }

  // ---- The approvers ----

  // Rule i asks for approval and names roles, and no later one does.
  ghost predicate NamesRolesLast(rules: seq<PolicyRule>, i: int, roles: seq<Id>) {
    && 0 <= i < |rules| && rules[i].RequireApproval? && rules[i].approverRoleIds == Some(roles)
    && forall j :: i < j < |rules| && rules[j].RequireApproval? ==> rules[j].approverRoleIds == None
  }

  lemma ApprovalOf(ctx: EvaluationContext, rule: PolicyRule)
    requires MovesValue(ctx)
    ensures AsksApproval(EvaluateRule(ctx, rule)) <==> rule.RequireApproval?
    ensures rule.RequireApproval? ==>
              var m := EvaluateRule(ctx, rule).metadata;
              m.Approval? && m.approval.approverRoleIds == rule.approverRoleIds
  {
  }

  lemma {:induction false} LastRolesNamed(ctx: EvaluationContext, rules: seq<PolicyRule>)
    requires MovesValue(ctx)
    ensures match LastRoles(Approvals(Results(ctx, rules)))
            case Some(roles) => exists i :: NamesRolesLast(rules, i, roles)
            case None => forall rule :: rule in rules && rule.RequireApproval? ==> rule.approverRoleIds == None
  {
    if rules != [] {
      hide EvaluateRule, AsksApproval, NamesRolesLast, MovesValue, Approvals, LastRoles;
      var n := |rules| - 1;
      var front, last := rules[..n], rules[n];
      assert rules == front + [last];
      LastRolesNamed(ctx, front);
      OneMoreRule(ctx, front, last);
      if last.RequireApproval? && last.approverRoleIds.Some? {
        NamedByLast(front, last);
      } else {
        Carried(front, last, LastRoles(Approvals(Results(ctx, front))));
      }
    }
  }

  lemma NamedByLast(front: seq<PolicyRule>, last: PolicyRule)
    requires last.RequireApproval? && last.approverRoleIds.Some?
    ensures NamesRolesLast(front + [last], |front|, last.approverRoleIds.value)
  {
  }

  lemma OneMoreRule(ctx: EvaluationContext, front: seq<PolicyRule>, last: PolicyRule)
    requires MovesValue(ctx)
    ensures LastRoles(Approvals(Results(ctx, front + [last]))) ==
            if last.RequireApproval? && last.approverRoleIds.Some? then last.approverRoleIds
            else LastRoles(Approvals(Results(ctx, front)))
  {
    hide EvaluateRule, AsksApproval;
    ApprovalOf(ctx, last);
    var results, before := Results(ctx, front + [last]), Approvals(Results(ctx, front));
    assert results == Results(ctx, front) + [EvaluateRule(ctx, last)];
    assert results[..|front|] == Results(ctx, front) && results[..|front| + 1] == results;
    OneMoreResult(results, |front|);
    if last.RequireApproval? {
      assert (before + [results[|front|].metadata.approval])[..|before|] == before;
    } else {
      assert before + [] == before;
    }
  }

  // A last rule that names no roles changes nothing.
  lemma Carried(front: seq<PolicyRule>, last: PolicyRule, roles: Option<seq<Id>>)
    requires last.RequireApproval? ==> last.approverRoleIds == None
    requires match roles
             case Some(ids) => exists i :: NamesRolesLast(front, i, ids)
             case None => forall rule :: rule in front && rule.RequireApproval? ==> rule.approverRoleIds == None
    ensures match roles
            case Some(ids) => exists i :: NamesRolesLast(front + [last], i, ids)
            case None => forall rule :: rule in front + [last] && rule.RequireApproval? ==> rule.approverRoleIds == None
  {
    if roles.Some? {
      var i :| NamesRolesLast(front, i, roles.value);
      assert NamesRolesLast(front + [last], i, roles.value);
    }
  }

  /** The approvers named are those of the last approval rule that names any. */
  lemma ApproversOfLastRule(ctx: EvaluationContext, rules: seq<PolicyRule>, d: PolicyDecision)
    requires d == Evaluate(ctx, rules) && d.decision.NeedApproval?
    ensures d.metadata.Approval?
    ensures match d.metadata.approval.approverRoleIds
            case Some(roles) => exists i :: NamesRolesLast(rules, i, roles)
            case None => forall rule :: rule in rules && rule.RequireApproval? ==> rule.approverRoleIds == None
  {
    hide EvaluateRule, Approvals, LastRoles, MaxCount, NamesRolesLast;
    DecisionMeaning(ctx, rules, d);
    var results := Results(ctx, rules);
    assert results[..|rules|] == results;
    assert d.metadata.approval.approverRoleIds == LastRoles(Approvals(results));
    LastRolesNamed(ctx, rules);
  }

  // ---- What the policy schema admits ----

  // Some intent that moves value meets the rule when nothing has been spent yet.
  ghost predicate CanBeMet(rule: PolicyRule) {
    exists ctx :: Untouched(ctx) && !Broken(ctx, rule)
  }

  ghost predicate Untouched(ctx: EvaluationContext) {
    MovesValue(ctx) && ctx.dailyUsdSpent == 0.0 && ctx.txCountLastHour == 0
  }

  /**
   * The schema admits a rule only if some intent that moves value can meet it. An approval rule must also ask for
   * someone, from roles that are not an empty list; a token list must hold addresses without repetition in any case.
   */
  lemma SchemaAdmitsIff(rule: PolicyRule)
    ensures ValidRule(rule) <==>
            && CanBeMet(rule)
            && (rule.RequireApproval? ==> rule.approverCount >= 1 && rule.approverRoleIds != Some([]))
            && (rule.TokenAllowlist? ==>
                var list := rule.addresses;
                && (forall i :: 0 <= i < |list| ==> IsAddress(list[i]))
                && forall i, j :: 0 <= i < j < |list| ==> Lower(list[i]) != Lower(list[j]))
  {
    var ctx := EvaluationContext(0, 0, 0, "", Some(1.0), 0.0, 0, None);
    match rule
    case TokenAllowlist(addresses) =>
      if addresses != [] {
        var at := ctx.(tokenAddress := addresses[0]);
        assert Untouched(at) && addresses[0] in addresses && !Broken(at, rule);
      }
    case WalletAllowlist(walletIds) =>
      if walletIds != [] {
        var from := ctx.(walletId := walletIds[0]);
        assert Untouched(from) && !Broken(from, rule);
      }
    case MaxUsdPerTransaction(maxUsd) =>
      var small := ctx.(amountUsd := Some(maxUsd));
      assert maxUsd > 0.0 ==> Untouched(small) && !Broken(small, rule);
    case MaxUsdPerDay(maxUsd) =>
      var small := ctx.(amountUsd := Some(maxUsd));
      assert maxUsd > 0.0 ==> Untouched(small) && !Broken(small, rule);
    case ActionAllowlist(actions) =>
      if actions != [] {
        var does := ctx.(intentAction := Some(actions[0]));
        assert Untouched(does) && ActionOf(does) == actions[0] && !Broken(does, rule);
      }
    case _ =>
      assert Untouched(ctx);
  }
}
