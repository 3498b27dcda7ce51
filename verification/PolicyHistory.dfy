/**
 * Policy rows as an append-only version history. The statements below are the database's: the checks a
 * service made before them may be out of date, so nothing here relies on those checks.
 */
module PolicyHistory {
  import opened Prelude
  import opened PolicyEngine

  datatype PolicyStatus = Active | Archived

  datatype Policy = Policy(
    orgId: Id,
    roleId: Id,
    walletId: Option<Id>,
    version: nat,
    status: PolicyStatus,
    rules: seq<PolicyRule>)

  type Policies = map<Id, Policy>

  datatype PolicyError =
    | RoleNotFound | WalletNotFound | InvalidPolicyRule | PolicyAlreadyExists | PolicyNotFound | PolicyNotActive

  predicate InScope(p: Policy, roleId: Id, walletId: Option<Id>) {
    p.roleId == roleId && p.walletId == walletId
  }

  // The partial unique index: an active row of this role and wallet (or no wallet) exists.
  predicate ScopeTaken(rows: Policies, roleId: Id, walletId: Option<Id>) {
    exists id :: id in rows && rows[id].status.Active? && InScope(rows[id], roleId, walletId)
  }

  // What the schema accepts as a rule list.
  predicate Parses(rules: seq<PolicyRule>) {
    rules != [] && ValidRules(rules)
  }

  // ---- Statements; each is None when the unique index refuses it ----

  function InsertActive(rows: Policies, id: Id, p: Policy): Option<Policies> {
    if ScopeTaken(rows, p.roleId, p.walletId) then None else Some(rows[id := p.(status := Active)])
  }

  function ArchiveById(rows: Policies, id: Id): Policies {
    if id in rows then rows[id := rows[id].(status := Archived)] else rows
  }

  // One transaction: archive the old row, insert the next version in the same scope.
  function ArchiveAndCreateVersion(rows: Policies, id: Id, newId: Id, rules: seq<PolicyRule>): Option<Policies>
    requires id in rows
  {
    InsertActive(ArchiveById(rows, id), newId, rows[id].(version := rows[id].version + 1, rules := rules))
  }

  // The checks of a creation, in order.
  function CreationError(rows: Policies, roleId: Id, walletId: Option<Id>, rules: seq<PolicyRule>,
                         roleInOrg: bool, walletInOrg: bool): Option<PolicyError>
  {
    if !roleInOrg then Some(RoleNotFound)
    else if walletId.Some? && !walletInOrg then Some(WalletNotFound)
    else if !Parses(rules) then Some(InvalidPolicyRule)
    else if ScopeTaken(rows, roleId, walletId) then Some(PolicyAlreadyExists)
    else None
  }

  // The checks of an update, in order.
  function UpdateError(rows: Policies, orgId: Id, policyId: Id, rules: seq<PolicyRule>): Option<PolicyError> {
    if policyId !in rows || rows[policyId].orgId != orgId then Some(PolicyNotFound)
    else if !rows[policyId].status.Active? then Some(PolicyNotActive)
    else if !Parses(rules) then Some(InvalidPolicyRule)
    else None
  }

  // Some active row already covers the role and the wallet (or, without a wallet, all the others).
  ghost predicate Covered(rows: Policies, roleId: Id, walletId: Option<Id>) {
    exists id :: id in rows && rows[id].status == Active && rows[id].roleId == roleId && rows[id].walletId == walletId
  }

  /** The index lets a row in exactly when no active one covers its scope; the row is stored as given, but active. */
  lemma InsertionMeaning(rows: Policies, id: Id, p: Policy)
    requires id !in rows
    ensures InsertActive(rows, id, p).None? <==> Covered(rows, p.roleId, p.walletId)
    ensures InsertActive(rows, id, p).Some? ==>
            var after := InsertActive(rows, id, p).value;
            && after.Keys == rows.Keys + {id}
            && after[id] == Policy(p.orgId, p.roleId, p.walletId, p.version, Active, p.rules)
            && forall other :: other in rows ==> after[other] == rows[other]
  {
    if other :| other in rows && rows[other].status == Active && rows[other].roleId == p.roleId
                && rows[other].walletId == p.walletId {
      assert InScope(rows[other], p.roleId, p.walletId);
    }
  }

  /** A creation goes through exactly for a known role and wallet, rules the schema admits and a free scope. */
  lemma CreationIsRefusedIff(rows: Policies, role: Id, wallet: Option<Id>, rules: seq<PolicyRule>,
                             roleInOrg: bool, walletInOrg: bool)
    ensures var error := CreationError(rows, role, wallet, rules, roleInOrg, walletInOrg);
            && (error == None <==> roleInOrg && (wallet == None || walletInOrg) && rules != []
                                   && (forall i :: 0 <= i < |rules| ==> ValidRule(rules[i]))
                                   && !Covered(rows, role, wallet))
            && (error == Some(RoleNotFound) <==> !roleInOrg)
            && (error == Some(WalletNotFound) <==> roleInOrg && wallet != None && !walletInOrg)
            && (error == Some(InvalidPolicyRule) <==>
                roleInOrg && (wallet == None || walletInOrg)
                && (rules == [] || exists i :: 0 <= i < |rules| && !ValidRule(rules[i])))
            && error != Some(PolicyNotFound) && error != Some(PolicyNotActive)
  {
    hide ValidRule;
    RulesOneByOne(rules);
    if Covered(rows, role, wallet) {
      var id :| id in rows && rows[id].status == Active && rows[id].roleId == role && rows[id].walletId == wallet;
      assert InScope(rows[id], role, wallet);
    }
  }

  /** An update goes through exactly for an active row of the organisation and rules the schema admits. */
  lemma UpdateIsRefusedIff(rows: Policies, orgId: Id, policyId: Id, rules: seq<PolicyRule>)
    ensures var error := UpdateError(rows, orgId, policyId, rules);
            var found := policyId in rows && rows[policyId].orgId == orgId;
            && (error == None <==> found && rows[policyId].status == Active && rules != []
                                   && forall i :: 0 <= i < |rules| ==> ValidRule(rules[i]))
            && (error == Some(PolicyNotFound) <==> !found)
            && (error == Some(PolicyNotActive) <==> found && rows[policyId].status == Archived)
            && (error.Some? ==> error.value in {PolicyNotFound, PolicyNotActive, InvalidPolicyRule})
  {
    RulesOneByOne(rules);
  }

  lemma RulesOneByOne(rules: seq<PolicyRule>)
    ensures ValidRules(rules) <==> forall i :: 0 <= i < |rules| ==> ValidRule(rules[i])
  {
    hide ValidRule;
  }

  class PolicyService {
    var rows: Policies

    constructor ()
      ensures rows == map[]
    {
      rows := map[];
    }

    // The role and the wallet are looked up among those of the organisation.
    method CreateForRole(newId: Id, orgId: Id, roleId: Id, walletId: Option<Id>, rules: seq<PolicyRule>,
                         roleInOrg: bool, walletInOrg: bool)
      returns (result: Result<Policy, PolicyError>)
      requires newId !in rows
      modifies this
      ensures var error := CreationError(old(rows), roleId, walletId, rules, roleInOrg, walletInOrg);
              match result
              case Ok(created) => error.None? && created == Policy(orgId, roleId, walletId, 1, Active, rules)
                                  && Some(rows) == InsertActive(old(rows), newId, created)
              case Err(e) => rows == old(rows) && error == Some(e)
    {
      if !roleInOrg {
        return Err(RoleNotFound);
      }
      if walletId.Some? && !walletInOrg {
        return Err(WalletNotFound);
      }
      if !Parses(rules) {
        return Err(InvalidPolicyRule);
      }
      if ScopeTaken(rows, roleId, walletId) {
        return Err(PolicyAlreadyExists);
      }
      var created := Policy(orgId, roleId, walletId, 1, Active, rules);
      rows := rows[newId := created];
      return Ok(created);
    }

    method UpdatePolicy(orgId: Id, policyId: Id, newId: Id, rules: seq<PolicyRule>)
      returns (result: Result<Policy, PolicyError>)
      requires newId !in rows && OneActivePerScope(rows)
      modifies this
      ensures var error := UpdateError(old(rows), orgId, policyId, rules);
              match result
              case Ok(updated) => error.None? && policyId in old(rows)
                                  && Some(rows) == ArchiveAndCreateVersion(old(rows), policyId, newId, rules)
                                  && newId in rows && updated == rows[newId]
              case Err(e) => rows == old(rows) && error == Some(e)
    {
      if policyId !in rows || rows[policyId].orgId != orgId {
        return Err(PolicyNotFound);
      }
      var current := rows[policyId];
      if current.status != Active {
        return Err(PolicyNotActive);
      }
      if !Parses(rules) {
        return Err(InvalidPolicyRule);
      }
      var archived := rows[policyId := current.(status := Archived)];
      assert !ScopeTaken(archived, current.roleId, current.walletId);
      rows := archived[newId := Policy(orgId, current.roleId, current.walletId, current.version + 1, Active, rules)];
      return Ok(rows[newId]);
    }

    method ArchivePolicy(orgId: Id, policyId: Id) returns (result: Result<Policy, PolicyError>)
      modifies this
      ensures match result
              case Ok(archived) => policyId in rows && archived == rows[policyId] && archived.status.Archived?
                                   && rows == ArchiveById(old(rows), policyId)
              case Err(e) => rows == old(rows) && e == PolicyNotFound
      ensures result.Ok? <==> policyId in old(rows) && old(rows)[policyId].orgId == orgId
    {
      if policyId !in rows || rows[policyId].orgId != orgId {
        return Err(PolicyNotFound);
      }
      var policy := rows[policyId];
      if policy.status == Archived {
        assert rows == rows[policyId := policy];
        return Ok(policy);
      }
      rows := rows[policyId := policy.(status := Archived)];
      return Ok(rows[policyId]);
    }
  }

  // ---- Runs of statements ----

  datatype Statement =
    | Insert(newId: Id, orgId: Id, roleId: Id, walletId: Option<Id>, rules: seq<PolicyRule>)
    | Update(policyId: Id, newId: Id, rules: seq<PolicyRule>)  // the row was active when the service read it
    | Archive(policyId: Id)

  function Execute(rows: Policies, s: Statement): Policies {
    match s
    case Insert(newId, org, role, wallet, rules) =>
      var inserted := InsertActive(rows, newId, Policy(org, role, wallet, 1, Active, rules));
      if newId !in rows && inserted.Some? then inserted.value else rows
    case Update(id, newId, rules) =>
      if id in rows && newId !in rows && ArchiveAndCreateVersion(rows, id, newId, rules).Some?
      then ArchiveAndCreateVersion(rows, id, newId, rules).value else rows
    case Archive(id) => ArchiveById(rows, id)
  }

  function Run(rows: Policies, statements: seq<Statement>): Policies {
    if statements == [] then rows else Execute(Run(rows, statements[..|statements| - 1]), statements[|statements| - 1])
  }

  ghost predicate OneActivePerScope(rows: Policies) {
    forall a, b :: (a in rows && b in rows && rows[a].status.Active? && rows[b].status.Active?
                    && rows[a].roleId == rows[b].roleId && rows[a].walletId == rows[b].walletId) ==> a == b
  }

  // Every later version has an archived predecessor in its scope.
  ghost predicate NoGaps(rows: Policies) {
    forall id :: id in rows ==> rows[id].version >= 1 && (rows[id].version > 1 ==> HasPredecessor(rows, rows[id]))
  }

  ghost predicate HasPredecessor(rows: Policies, p: Policy) {
    exists id :: id in rows && rows[id].status.Archived? && rows[id].roleId == p.roleId
                 && rows[id].walletId == p.walletId && rows[id].version + 1 == p.version
  }

  // A row keeps everything but its status, which can only become archived.
  ghost predicate Preserves(before: Policies, after: Policies) {
    forall id :: id in before ==>
      id in after && (after[id] == before[id] || after[id] == before[id].(status := Archived))
  }

  lemma ExecutePreserves(rows: Policies, s: Statement)
    ensures Preserves(rows, Execute(rows, s))
  {
    hide ScopeTaken;
  }

  lemma ExecuteKeepsOneActive(rows: Policies, s: Statement)
    requires OneActivePerScope(rows)
    ensures OneActivePerScope(Execute(rows, s))
  {
  }

  lemma PredecessorStays(before: Policies, after: Policies, p: Policy)
    requires HasPredecessor(before, p) && Preserves(before, after)
    ensures HasPredecessor(after, p)
  {
    var id :| id in before && before[id].status.Archived? && before[id].roleId == p.roleId
              && before[id].walletId == p.walletId && before[id].version + 1 == p.version;
    assert id in after && after[id] == before[id];
  }

  // A new row is a first version, or the next version of a row just archived in its scope.
  lemma NewRowHasPredecessor(rows: Policies, s: Statement, id: Id)
    requires id !in rows && id in Execute(rows, s)
    ensures var after := Execute(rows, s);
            after[id].version == 1 || HasPredecessor(after, after[id])
  {
    hide ScopeTaken;
    var after := Execute(rows, s);
    if s.Update? {
      assert s.policyId in after && after[s.policyId].status.Archived?;
    }
  }

  lemma ExecuteKeepsNoGaps(rows: Policies, s: Statement)
    requires NoGaps(rows)
    ensures NoGaps(Execute(rows, s))
  {
    hide Execute, HasPredecessor;
    ExecutePreserves(rows, s);
    var after := Execute(rows, s);
    forall id | id in after
      ensures after[id].version >= 1 && (after[id].version > 1 ==> HasPredecessor(after, after[id]))
    {
      if id in rows {
        if rows[id].version > 1 {
          PredecessorStays(rows, after, rows[id]);
          SamePredecessor(after, rows[id], after[id]);
        }
      } else {
        NewRowHasPredecessor(rows, s, id);
        if after[id].version != 1 {
          PredecessorCounts(after, after[id]);
        }
      }
    }
  }

  lemma SamePredecessor(rows: Policies, p: Policy, q: Policy)
    requires HasPredecessor(rows, p) && (q == p || q == p.(status := Archived))
    ensures HasPredecessor(rows, q)
  {
  }

  lemma PredecessorCounts(rows: Policies, p: Policy)
    requires HasPredecessor(rows, p)
    ensures p.version >= 1
  {
  }

  lemma PreservesTwice(a: Policies, b: Policies, c: Policies)
    requires Preserves(a, b) && Preserves(b, c)
    ensures Preserves(a, c)
  {
  }

  /**
   * Over every run of statements, however stale the checks before them: a stored row never loses its rules,
   * role, wallet or version, and its status only goes from active to archived.
   */
  lemma {:induction false} HistoryIsAppendOnly(rows: Policies, statements: seq<Statement>)
    ensures Preserves(rows, Run(rows, statements))
  {
    hide Execute;
    if statements != [] {
      var front := statements[..|statements| - 1];
      HistoryIsAppendOnly(rows, front);
      ExecutePreserves(Run(rows, front), statements[|statements| - 1]);
      PreservesTwice(rows, Run(rows, front), Run(rows, statements));
    }
  }

  /** From an empty table: one active row per scope, and versions without gaps. */
  lemma {:induction false} HistoryInvariant(statements: seq<Statement>)
    ensures OneActivePerScope(Run(map[], statements)) && NoGaps(Run(map[], statements))
  {
    hide Execute;
    if statements != [] {
      var front := statements[..|statements| - 1];
      HistoryInvariant(front);
      ExecuteKeepsOneActive(Run(map[], front), statements[|statements| - 1]);
      ExecuteKeepsNoGaps(Run(map[], front), statements[|statements| - 1]);
    }
  }

  // ---- The policy an intent names ----

  // The rows a creation of an intent may name: active, of the organisation, for one of the member's roles, and for
  // every wallet or the intent's. The most recently updated one is taken.
  predicate Applicable(p: Policy, orgId: Id, roleIds: seq<Id>, walletId: Id) {
    p.status.Active? && p.orgId == orgId && p.roleId in roleIds && (p.walletId == None || p.walletId == Some(walletId))
  }

  datatype Event = PolicyStatement(statement: Statement)
                 | IntentCreated(intentId: Id, orgId: Id, roleIds: seq<Id>, walletId: Id, choice: Option<Id>)

  // What intents store: the policy named at creation, and (for the record) the rules it had then.
  datatype Naming = Naming(policyVersionId: Option<Id>, orgId: Id, roleIds: seq<Id>, walletId: Id,
                           rules: seq<PolicyRule>)

  datatype History = History(rows: Policies, intents: map<Id, Naming>)

  // The query finds a row exactly if there is an applicable one.
  ghost predicate Resolves(rows: Policies, orgId: Id, roleIds: seq<Id>, walletId: Id, choice: Option<Id>) {
    match choice
    case Some(id) => id in rows && Applicable(rows[id], orgId, roleIds, walletId)
    case None => forall id :: id in rows ==> !Applicable(rows[id], orgId, roleIds, walletId)
  }

  ghost function Happen(h: History, e: Event): History {
    match e
    case PolicyStatement(s) => h.(rows := Execute(h.rows, s))
    case IntentCreated(i, org, roles, wallet, choice) =>
      if i !in h.intents && Resolves(h.rows, org, roles, wallet, choice)
      then
        var rules := if choice.Some? then h.rows[choice.value].rules else [];
        h.(intents := h.intents[i := Naming(choice, org, roles, wallet, rules)])
      else h
  }

  ghost function Unfold(events: seq<Event>): History {
    if events == [] then History(map[], map[]) else Happen(Unfold(events[..|events| - 1]), events[|events| - 1])
  }

  // The row named at creation is still there, with the rules it had and in the scope it was named for.
  ghost predicate NamesItsRules(rows: Policies, n: Naming) {
    n.policyVersionId.Some? ==>
      && n.policyVersionId.value in rows
      && var p := rows[n.policyVersionId.value];
         && p.rules == n.rules && p.orgId == n.orgId && p.roleId in n.roleIds
         && (p.walletId.None? || p.walletId.value == n.walletId)
  }

  /** Over every run of policy changes and intent creations, an intent's policy resolves to the rules it named. */
  lemma {:induction false} SnapshotResolves(events: seq<Event>, i: Id)
    requires i in Unfold(events).intents
    ensures NamesItsRules(Unfold(events).rows, Unfold(events).intents[i])
  {
    hide Execute;
    var front, e := events[..|events| - 1], events[|events| - 1];
    if i in Unfold(front).intents {
      SnapshotResolves(front, i);
    }
    if e.PolicyStatement? {
      ExecutePreserves(Unfold(front).rows, e.statement);
    }
  }

  /** A successful update archives its row and adds one active row of the same scope, one version up. */
  lemma UpdateMakesNextVersion(rows: Policies, id: Id, newId: Id, rules: seq<PolicyRule>)
    requires OneActivePerScope(rows) && id in rows && newId !in rows
    ensures ArchiveAndCreateVersion(rows, id, newId, rules).Some? <==>
            !exists other :: other in rows && other != id && rows[other].status.Active?
                             && rows[other].roleId == rows[id].roleId && rows[other].walletId == rows[id].walletId
    ensures ArchiveAndCreateVersion(rows, id, newId, rules).Some? ==>
            var after := ArchiveAndCreateVersion(rows, id, newId, rules).value;
            var p := rows[id];
            && after.Keys == rows.Keys + {newId}
            && after[id] == p.(status := Archived)
            && after[newId] == Policy(p.orgId, p.roleId, p.walletId, p.version + 1, Active, rules)
            && forall other :: other in rows && other != id ==> after[other] == rows[other]
  {
    var archived, role, wallet := ArchiveById(rows, id), rows[id].roleId, rows[id].walletId;
    if ScopeTaken(archived, role, wallet) {
      var other :| other in archived && archived[other].status.Active? && InScope(archived[other], role, wallet);
      assert other != id && rows[other] == archived[other];
    }
    if other :| other in rows && other != id && rows[other].status.Active? && InScope(rows[other], role, wallet) {
      assert other in archived && archived[other] == rows[other];
    }
  }

  ghost predicate ScopeHasVersion(rows: Policies, roleId: Id, walletId: Option<Id>, version: nat) {
    exists id :: id in rows && InScope(rows[id], roleId, walletId) && rows[id].version == version
  }

  // Below a stored version, every version of its scope is stored.
  lemma {:induction false} EarlierVersionsExist(rows: Policies, id: Id, version: nat)
    requires NoGaps(rows) && id in rows && 1 <= version <= rows[id].version
    ensures ScopeHasVersion(rows, rows[id].roleId, rows[id].walletId, version)
    decreases rows[id].version
  {
    if version < rows[id].version {
      assert HasPredecessor(rows, rows[id]);
      var before :| before in rows && rows[before].status.Archived?
                    && rows[before].roleId == rows[id].roleId && rows[before].walletId == rows[id].walletId
                    && rows[before].version + 1 == rows[id].version;
      EarlierVersionsExist(rows, before, version);
    }
  }

  // ---- When does a version number identify a row of its scope? ----

  ghost predicate VersionsDistinct(rows: Policies, roleId: Id, walletId: Option<Id>) {
    forall a, b :: (a in rows && b in rows && rows[a].roleId == rows[b].roleId == roleId
                    && rows[a].walletId == rows[b].walletId == walletId
                    && rows[a].version == rows[b].version) ==> a == b
  }

  ghost predicate ScopeUsed(rows: Policies, roleId: Id, walletId: Option<Id>) {
    exists id :: id in rows && InScope(rows[id], roleId, walletId)
  }

  // Some row of the same scope has a higher version.
  ghost predicate Outdated(rows: Policies, id: Id)
    requires id in rows
  {
    exists other :: other in rows && InScope(rows[other], rows[id].roleId, rows[id].walletId)
                    && rows[other].version > rows[id].version
  }

  // The statement is a creation in the scope that the unique index lets through.
  ghost predicate Creates(rows: Policies, s: Statement, roleId: Id, walletId: Option<Id>) {
    s.Insert? && s.roleId == roleId && s.walletId == walletId && s.newId !in rows && !ScopeTaken(rows, roleId, walletId)
  }

  // The statement is an update in the scope that the unique index lets through.
  ghost predicate Advances(rows: Policies, s: Statement, roleId: Id, walletId: Option<Id>) {
    && s.Update? && s.policyId in rows && s.newId !in rows && InScope(rows[s.policyId], roleId, walletId)
    && ArchiveAndCreateVersion(rows, s.policyId, s.newId, s.rules).Some?
  }

  // A creation in a scope that was used before, or an update of a row that is not its scope's newest.
  ghost predicate Restarts(rows: Policies, s: Statement, roleId: Id, walletId: Option<Id>) {
    || (Creates(rows, s, roleId, walletId) && ScopeUsed(rows, roleId, walletId))
    || (Advances(rows, s, roleId, walletId) && Outdated(rows, s.policyId))
  }

  ghost predicate NeverRestarts(statements: seq<Statement>, roleId: Id, walletId: Option<Id>) {
    statements == []
    || (var front := statements[..|statements| - 1];
        && NeverRestarts(front, roleId, walletId)
        && !Restarts(Run(map[], front), statements[|statements| - 1], roleId, walletId))
  }

  /** On every reachable table a creation repeats version 1 of its scope exactly if the scope was used before. */
  lemma CreationRepeatsVersionIff(statements: seq<Statement>, role: Id, wallet: Option<Id>)
    ensures var rows := Run(map[], statements);
            ScopeHasVersion(rows, role, wallet, 1) <==> ScopeUsed(rows, role, wallet)
  {
    hide Run;
    HistoryInvariant(statements);
    var rows := Run(map[], statements);
    if id :| id in rows && InScope(rows[id], role, wallet) {
      EarlierVersionsExist(rows, id, 1);
    }
  }

  /**
   * On every reachable table an update of a row, stale or not, repeats a version of its scope exactly if the row
   * is not the newest there.
   */
  lemma UpdateRepeatsVersionIff(statements: seq<Statement>, id: Id)
    requires id in Run(map[], statements)
    ensures var rows := Run(map[], statements);
            ScopeHasVersion(rows, rows[id].roleId, rows[id].walletId, rows[id].version + 1) <==> Outdated(rows, id)
  {
    hide Run, NoGaps;
    HistoryInvariant(statements);
    var rows := Run(map[], statements);
    if other :| other in rows && InScope(rows[other], rows[id].roleId, rows[id].walletId)
                && rows[other].version > rows[id].version {
      EarlierVersionsExist(rows, other, rows[id].version + 1);
    }
  }

  // The row a statement adds to the scope, if it adds one there.
  lemma ExecuteInScope(rows: Policies, s: Statement, roleId: Id, walletId: Option<Id>)
    ensures var after := Execute(rows, s);
            forall id :: id in after && id !in rows && InScope(after[id], roleId, walletId) ==>
              && id == s.newId
              && ((Creates(rows, s, roleId, walletId) && after[id].version == 1)
                  || (Advances(rows, s, roleId, walletId) && after[id].version == rows[s.policyId].version + 1))
    ensures Creates(rows, s, roleId, walletId) || Advances(rows, s, roleId, walletId)
            ==> s.newId in Execute(rows, s) && InScope(Execute(rows, s)[s.newId], roleId, walletId)
  {
    hide ScopeTaken;
  }

  lemma DistinctAfter(statements: seq<Statement>, s: Statement, role: Id, wallet: Option<Id>)
    requires VersionsDistinct(Run(map[], statements), role, wallet)
    ensures VersionsDistinct(Execute(Run(map[], statements), s), role, wallet)
            <==> !Restarts(Run(map[], statements), s, role, wallet)
  {
    hide Run, Execute, Creates, Advances, Outdated, ScopeUsed;
    var rows := Run(map[], statements);
    var after := Execute(rows, s);
    ExecutePreserves(rows, s);
    ExecuteInScope(rows, s, role, wallet);
    if Creates(rows, s, role, wallet) {
      CreationRepeatsVersionIff(statements, role, wallet);
      CreatesMeans(rows, s, role, wallet);
    } else if Advances(rows, s, role, wallet) {
      AdvancesMeans(rows, s, role, wallet);
      UpdateRepeatsVersionIff(statements, s.policyId);
    }
  }

  lemma CreatesMeans(rows: Policies, s: Statement, roleId: Id, walletId: Option<Id>)
    requires Creates(rows, s, roleId, walletId)
    ensures s.newId !in rows && !Advances(rows, s, roleId, walletId)
    ensures s.newId in Execute(rows, s) && Execute(rows, s)[s.newId].version == 1
  {
  }

  lemma AdvancesMeans(rows: Policies, s: Statement, roleId: Id, walletId: Option<Id>)
    requires Advances(rows, s, roleId, walletId)
    ensures s.Update? && s.policyId in rows && s.newId !in rows && InScope(rows[s.policyId], roleId, walletId)
    ensures s.newId in Execute(rows, s) && Execute(rows, s)[s.newId].version == rows[s.policyId].version + 1
  {
  }

  lemma DistinctBefore(rows: Policies, s: Statement, role: Id, wallet: Option<Id>)
    requires VersionsDistinct(Execute(rows, s), role, wallet)
    ensures VersionsDistinct(rows, role, wallet)
  {
    hide Execute;
    ExecutePreserves(rows, s);
  }

  /**
   * After every run, stale updates included, versions identify the rows of a scope exactly if no creation in it
   * came after the first and every update that went through was of the scope's newest row at that time.
   */
  lemma {:induction false} VersionsIdentifyRowsIff(statements: seq<Statement>, role: Id, wallet: Option<Id>)
    ensures VersionsDistinct(Run(map[], statements), role, wallet) <==> NeverRestarts(statements, role, wallet)
  {
    hide Execute, Restarts;
    if statements != [] {
      var front, s := statements[..|statements| - 1], statements[|statements| - 1];
      VersionsIdentifyRowsIff(front, role, wallet);
      if VersionsDistinct(Run(map[], front), role, wallet) {
        DistinctAfter(front, s, role, wallet);
      } else if VersionsDistinct(Execute(Run(map[], front), s), role, wallet) {
        DistinctBefore(Run(map[], front), s, role, wallet);
      }
    }
  }

  // ---- Runs without stale updates ----

  // Every update finds its row still active, as the service's check demands.
  ghost predicate Fresh(statements: seq<Statement>) {
    statements == []
    || (var front, s := statements[..|statements| - 1], statements[|statements| - 1];
        && Fresh(front)
        && (s.Update? && s.policyId in Run(map[], front) ==> Run(map[], front)[s.policyId].status.Active?))
  }

  // How many creations in the scope went through.
  ghost function Creations(statements: seq<Statement>, roleId: Id, walletId: Option<Id>): nat {
    if statements == [] then 0
    else
      var front := statements[..|statements| - 1];
      Creations(front, roleId, walletId)
      + (if Creates(Run(map[], front), statements[|statements| - 1], roleId, walletId) then 1 else 0)
  }

  lemma {:induction false} UsedIffCreated(statements: seq<Statement>, role: Id, wallet: Option<Id>)
    ensures ScopeUsed(Run(map[], statements), role, wallet) <==> Creations(statements, role, wallet) >= 1
  {
    hide Execute, Creates, Advances;
    if statements != [] {
      var front, s := statements[..|statements| - 1], statements[|statements| - 1];
      var rows := Run(map[], front);
      UsedIffCreated(front, role, wallet);
      ExecutePreserves(rows, s);
      ExecuteInScope(rows, s, role, wallet);
      if Advances(rows, s, role, wallet) {
        AdvancesMeans(rows, s, role, wallet);
      }
    }
  }

  ghost predicate ActiveIsNewest(rows: Policies, roleId: Id, walletId: Option<Id>) {
    forall id :: id in rows && InScope(rows[id], roleId, walletId) && rows[id].status.Active? ==> !Outdated(rows, id)
  }

  lemma StatementKeepsActiveNewest(rows: Policies, s: Statement, role: Id, wallet: Option<Id>)
    requires ActiveIsNewest(rows, role, wallet) && !Restarts(rows, s, role, wallet)
    ensures ActiveIsNewest(Execute(rows, s), role, wallet)
  {
    hide Execute, Creates, Advances;
    var after := Execute(rows, s);
    ExecutePreserves(rows, s);
    ExecuteInScope(rows, s, role, wallet);
    if Advances(rows, s, role, wallet) {
      AdvancesMeans(rows, s, role, wallet);
      AdvanceLeavesOneActive(rows, s, role, wallet);
    }
  }

  lemma AdvanceLeavesOneActive(rows: Policies, s: Statement, role: Id, wallet: Option<Id>)
    requires Advances(rows, s, role, wallet)
    ensures var after := Execute(rows, s);
            forall id :: id in after && InScope(after[id], role, wallet) && after[id].status.Active? ==> id == s.newId
  {
  }

  lemma {:induction false} OneCreationKeepsOrder(statements: seq<Statement>, role: Id, wallet: Option<Id>)
    requires Fresh(statements) && Creations(statements, role, wallet) <= 1
    ensures NeverRestarts(statements, role, wallet) && ActiveIsNewest(Run(map[], statements), role, wallet)
  {
    hide Execute, Creates, Advances, ScopeUsed, Outdated;
    if statements != [] {
      var front, s := statements[..|statements| - 1], statements[|statements| - 1];
      var rows := Run(map[], front);
      OneCreationKeepsOrder(front, role, wallet);
      UsedIffCreated(front, role, wallet);
      if Advances(rows, s, role, wallet) {
        AdvancesMeans(rows, s, role, wallet);
      }
      StatementKeepsActiveNewest(rows, s, role, wallet);
    }
  }

  lemma {:induction false} RestartFreeCreatesOnce(statements: seq<Statement>, role: Id, wallet: Option<Id>)
    requires NeverRestarts(statements, role, wallet)
    ensures Creations(statements, role, wallet) <= 1
  {
    hide Creates, Advances, ScopeUsed, Outdated, Execute;
    if statements != [] {
      var front := statements[..|statements| - 1];
      RestartFreeCreatesOnce(front, role, wallet);
      UsedIffCreated(front, role, wallet);
    }
  }

  /**
   * When every update finds its row active, versions identify the rows of a scope exactly if at most one creation
   * went through there.
   */
  lemma FreshVersionsIdentifyRowsIff(statements: seq<Statement>, role: Id, wallet: Option<Id>)
    requires Fresh(statements)
    ensures VersionsDistinct(Run(map[], statements), role, wallet) <==> Creations(statements, role, wallet) <= 1
  {
    hide Run, Fresh;
    VersionsIdentifyRowsIff(statements, role, wallet);
    if Creations(statements, role, wallet) <= 1 {
      OneCreationKeepsOrder(statements, role, wallet);
    } else if NeverRestarts(statements, role, wallet) {
      RestartFreeCreatesOnce(statements, role, wallet);
    }
  }

  // ---- The repetitions happen ----

  /** Create, archive, create gives version 1 twice. */
  lemma VersionsRestartAfterArchive(org: Id, role: Id, wallet: Option<Id>, rules: seq<PolicyRule>)
    ensures var a, b := Insert(0, org, role, wallet, rules), Insert(1, org, role, wallet, rules);
            var rows := Run(map[], [a, Archive(0), b]);
            && 0 in rows && 1 in rows && rows[0].version == rows[1].version == 1
            && rows[0].status.Archived? && rows[1].status.Active?
  {
    hide Run, Creations, Creates;
    var a, b, c := Insert(0, org, role, wallet, rules), Archive(0), Insert(1, org, role, wallet, rules);
    RunOneMore([], a, role, wallet);
    RunOneMore([a], b, role, wallet);
    RunOneMore([a, b], c, role, wallet);
    assert [] + [a] == [a] && [a] + [b] == [a, b] && [a, b] + [c] == [a, b, c];
    assert Run(map[], []) == map[] by {
      RunNothing(role, wallet);
    }
    assert !ScopeTaken(map[], role, wallet);
    var archived := Policy(org, role, wallet, 1, Archived, rules);
    assert Run(map[], [a, b]) == map[0 := archived];
    assert !ScopeTaken(map[0 := archived], role, wallet);
  }

  lemma CreateThenUpdate(org: Id, role: Id, wallet: Option<Id>, rules: seq<PolicyRule>)
    ensures var p := Policy(org, role, wallet, 1, Active, rules);
            var statements := [Insert(0, org, role, wallet, rules), Update(0, 1, rules)];
            && Run(map[], statements) == map[0 := p.(status := Archived), 1 := p.(version := 2)]
            && Creations(statements, role, wallet) == 1
  {
    hide Run, Creations, Advances;
    var a, b := Insert(0, org, role, wallet, rules), Update(0, 1, rules);
    RunNothing(role, wallet);
    RunOneMore([], a, role, wallet);
    RunOneMore([a], b, role, wallet);
    assert [] + [a] == [a] && [a] + [b] == [a, b];
    var p := Policy(org, role, wallet, 1, Active, rules);
    assert !ScopeTaken(map[], role, wallet);
    assert Run(map[], [a]) == map[0 := p];
    assert !ScopeTaken(map[0 := p.(status := Archived)], role, wallet);
  }

  /** A stale update repeats a version after a single creation: create, update, archive, update the first row. */
  lemma StaleUpdateRepeatsVersion(org: Id, role: Id, wallet: Option<Id>, rules: seq<PolicyRule>)
    ensures var first := Insert(0, org, role, wallet, rules);
            var statements := [first, Update(0, 1, rules), Archive(1), Update(0, 2, rules)];
            var rows := Run(map[], statements);
            && 1 in rows && 2 in rows && rows[1].version == rows[2].version == 2
            && InScope(rows[1], role, wallet) && InScope(rows[2], role, wallet)
            && Creations(statements, role, wallet) == 1
  {
    hide Run, Creations, Advances;
    var ab := [Insert(0, org, role, wallet, rules), Update(0, 1, rules)];
    var c, d := Archive(1), Update(0, 2, rules);
    CreateThenUpdate(org, role, wallet, rules);
    RunOneMore(ab, c, role, wallet);
    RunOneMore(ab + [c], d, role, wallet);
    assert ab + [c] + [d] == [ab[0], ab[1], c, d];
    var q := Policy(org, role, wallet, 1, Archived, rules);
    var archived := map[0 := q, 1 := q.(version := 2)];
    assert Run(map[], ab + [c]) == archived;
    assert archived[0 := q] == archived && !ScopeTaken(archived, role, wallet);
  }

  lemma RunOneMore(statements: seq<Statement>, s: Statement, role: Id, wallet: Option<Id>)
    ensures Run(map[], statements + [s]) == Execute(Run(map[], statements), s)
    ensures Creations(statements + [s], role, wallet) ==
            Creations(statements, role, wallet) + (if Creates(Run(map[], statements), s, role, wallet) then 1 else 0)
  {
    assert (statements + [s])[..|statements|] == statements;
  }

  lemma RunNothing(role: Id, wallet: Option<Id>)
    ensures Run(map[], []) == map[] && Creations([], role, wallet) == 0
  {
  }
}
