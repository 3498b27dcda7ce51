/** Which rules apply to an intent: those of the active policies of the roles its member holds now. */
module PolicyResolver {
  import opened Prelude
  import opened PolicyEngine
  import opened PolicyEvaluation
  import Store
  import PolicyHistory
  import Services
  import SoloCalls

  // Assignment a gives the active member a role now, and p is an active policy of that role for all wallets or for
  // this one. The wallet of the assignment does not matter.
  ghost predicate Governs(t: Store.Tables, rows: PolicyHistory.Policies, now: int, memberId: Id, walletId: Id,
                          a: Id, p: Id)
  {
    && memberId in t.members && t.members[memberId].active
    && a in t.assignments && t.assignments[a].memberId == memberId && t.assignments[a].status == Store.Active
    && t.assignments[a].startsAt <= now && (t.assignments[a].endsAt == None || now < t.assignments[a].endsAt.value)
    && p in rows && rows[p].status == PolicyHistory.Active && rows[p].roleId == t.assignments[a].roleId
    && (rows[p].walletId == None || rows[p].walletId == Some(walletId))
  }

  ghost predicate Applies(t: Store.Tables, rows: PolicyHistory.Policies, now: int, memberId: Id, walletId: Id,
                          rule: PolicyRule)
  {
    exists a: Id, p: Id :: Governs(t, rows, now, memberId, walletId, a, p) && rule in rows[p].rules
  }

  // The list holds the rules that apply, in whatever order and however often.
  ghost predicate Collects(t: Store.Tables, rows: PolicyHistory.Policies, now: int, memberId: Id, walletId: Id,
                           rules: seq<PolicyRule>)
  {
    forall rule :: rule in rules <==> Applies(t, rows, now, memberId, walletId, rule)
  }

  // The member's assignments that are active and in their window, if the member is active.
  function HeldNow(t: Store.Tables, now: int, memberId: Id): set<Id> {
    set a | a in t.assignments && memberId in t.members && t.members[memberId].active
            && t.assignments[a].memberId == memberId && t.assignments[a].status.Active?
            && Store.InWindow(t.assignments[a], now)
  }

  // The active policies of the roles for all wallets or for this one.
  function PoliciesOf(rows: PolicyHistory.Policies, roleIds: set<Id>, walletId: Id): set<Id> {
    set p | p in rows && rows[p].status.Active? && rows[p].roleId in roleIds
            && (rows[p].walletId.None? || rows[p].walletId.value == walletId)
  }

  class PolicyResolverService {
    const db: Services.Database
    const policies: PolicyHistory.PolicyService

    constructor (db: Services.Database, policies: PolicyHistory.PolicyService)
      ensures this.db == db && this.policies == policies
    {
      this.db, this.policies := db, policies;
    }

    method FindActiveForMember(memberId: Id, now: int) returns (active: seq<Id>)
      ensures SoloCalls.Ids(active) == HeldNow(db.Rows(), now, memberId)
    {
      active := Services.Enumerate(HeldNow(db.Rows(), now, memberId));
    }

    /** The rules of every policy that governs the member's intents from the wallet now, and no others. */
    method GetApplicablePolicies(memberId: Id, walletId: Id, now: int) returns (rules: seq<PolicyRule>)
      ensures Collects(db.Rows(), policies.rows, now, memberId, walletId, rules)
    {
      hide Collects, HeldNow, PoliciesOf;
      var active := FindActiveForMember(memberId, now);
      if active == [] {
        NothingCollected(db.Rows(), policies.rows, now, memberId, walletId);
        return [];
      }
      var roleIds := set a | a in active && a in db.assignments :: db.assignments[a].roleId;
      var found := Services.Enumerate(PoliciesOf(policies.rows, roleIds, walletId));
      rules := [];
      for i := 0 to |found|
        invariant forall rule :: rule in rules <==>
                    exists p :: p in found[..i] && p in policies.rows && rule in policies.rows[p].rules
      {
        assert found[i] in SoloCalls.Ids(found);
        assert found[..i + 1] == found[..i] + [found[i]];
        FoundIsStored(policies.rows, roleIds, walletId, found[i]);
        rules := rules + policies.rows[found[i]].rules;
      }
      assert found[..|found|] == found;
      AllCollected(db.Rows(), policies.rows, now, memberId, walletId, active, found, rules);
    }

    // A member of another organisation has no rules.
    method GetApplicablePoliciesForOrg(orgId: Id, memberId: Id, walletId: Id, now: int) returns (rules: seq<PolicyRule>)
      ensures if memberId in db.members && db.members[memberId].orgId == orgId
              then Collects(db.Rows(), policies.rows, now, memberId, walletId, rules)
              else rules == []
    {
      if memberId !in db.members || db.members[memberId].orgId != orgId {
        return [];
      }
      rules := GetApplicablePolicies(memberId, walletId, now);
    }
  }

  lemma FoundIsStored(rows: PolicyHistory.Policies, roleIds: set<Id>, walletId: Id, p: Id)
    requires p in PoliciesOf(rows, roleIds, walletId)
    ensures p in rows
  {
  }

  lemma NothingCollected(t: Store.Tables, rows: PolicyHistory.Policies, now: int, m: Id, w: Id)
    requires HeldNow(t, now, m) == SoloCalls.Ids([])
    ensures Collects(t, rows, now, m, w, [])
  {
    forall a: Id, p: Id
      ensures !Governs(t, rows, now, m, w, a, p)
    {
      assert a !in HeldNow(t, now, m);
    }
  }

  lemma AllCollected(t: Store.Tables, rows: PolicyHistory.Policies, now: int, m: Id, w: Id, active: seq<Id>,
                     found: seq<Id>, rules: seq<PolicyRule>)
    requires SoloCalls.Ids(active) == HeldNow(t, now, m)
    requires SoloCalls.Ids(found) ==
             PoliciesOf(rows, set a | a in active && a in t.assignments :: t.assignments[a].roleId, w)
    requires forall rule :: rule in rules <==> exists p :: p in found && p in rows && rule in rows[p].rules
    ensures Collects(t, rows, now, m, w, rules)
  {
    forall rule
      ensures rule in rules <==> Applies(t, rows, now, m, w, rule)
    {
      if rule in rules {
        var p :| p in found && p in rows && rule in rows[p].rules;
        assert p in SoloCalls.Ids(found);
        var a :| a in active && a in t.assignments && t.assignments[a].roleId == rows[p].roleId;
        assert a in SoloCalls.Ids(active);
        assert Governs(t, rows, now, m, w, a, p);
      }
      if Applies(t, rows, now, m, w, rule) {
        var a: Id, p: Id :| Governs(t, rows, now, m, w, a, p) && rule in rows[p].rules;
        assert a in SoloCalls.Ids(active);
        assert p in SoloCalls.Ids(found);
      }
    }
  }

  // ---- What the rules found mean for the decision ----

  /** The verdict does not depend on the order in which the database returns assignments and policies. */
  lemma VerdictIsDetermined(t: Store.Tables, rows: PolicyHistory.Policies, now: int, m: Id, w: Id,
                            ctx: EvaluationContext, xs: seq<PolicyRule>, ys: seq<PolicyRule>)
    requires Collects(t, rows, now, m, w, xs) && Collects(t, rows, now, m, w, ys)
    ensures VerdictOf(Evaluate(ctx, xs)) == VerdictOf(Evaluate(ctx, ys))
  {
    hide Evaluate, Applies;
    OrderAndRepetitionIrrelevant(ctx, xs, ys);
  }

  /** Further assignments and further policies never loosen the verdict: several roles are never weaker than one. */
  lemma MoreRolesNeverLoosen(t: Store.Tables, u: Store.Tables, before: PolicyHistory.Policies,
                             after: PolicyHistory.Policies, now: int, m: Id, w: Id, ctx: EvaluationContext,
                             xs: seq<PolicyRule>, ys: seq<PolicyRule>)
    requires u.members == t.members
    requires forall a :: a in t.assignments ==> a in u.assignments && u.assignments[a] == t.assignments[a]
    requires forall p :: p in before ==> p in after && after[p] == before[p]
    requires Collects(t, before, now, m, w, xs) && Collects(u, after, now, m, w, ys)
    ensures AtMost(VerdictOf(Evaluate(ctx, xs)), VerdictOf(Evaluate(ctx, ys)))
  {
    hide Evaluate;
    forall rule | rule in xs
      ensures rule in ys
    {
      var a: Id, p: Id :| Governs(t, before, now, m, w, a, p) && rule in before[p].rules;
      assert Governs(u, after, now, m, w, a, p) && rule in after[p].rules;
    }
    MoreRulesNeverLoosen(ctx, xs, ys);
  }

  lemma NothingApplies(t: Store.Tables, rows: PolicyHistory.Policies, now: int, m: Id, w: Id, rule: PolicyRule)
    requires forall a: Id, p: Id :: Governs(t, rows, now, m, w, a, p) ==> rows[p].rules == []
    ensures !Applies(t, rows, now, m, w, rule)
  {
  }

  /**
   * When nothing governs a member's intents, every one of them with a quoted price is allowed; there is no denial for
   * the lack of a policy.
   */
  lemma UngovernedIsAllowed(t: Store.Tables, rows: PolicyHistory.Policies, now: int, m: Id, w: Id, e: Evaluation)
    requires Collects(t, rows, now, m, w, e.rules) && e.price.Quoted?
    requires forall a: Id, p: Id :: Governs(t, rows, now, m, w, a, p) ==> rows[p].rules == []
    ensures e.rules == [] && EvaluateIntent(e).decision.Allow?
  {
    hide EvaluateIntent;
    if e.rules != [] {
      var first := e.rules[0];
      assert first in e.rules;
      NothingApplies(t, rows, now, m, w, first);
    }
    EvaluationMeaning(e);
  }
}
