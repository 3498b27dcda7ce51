/** The database tables the authorisation services share, and the queries they make. */
module Store {
  import opened Prelude
  import opened PolicyEngine
  import opened IntentStateMachine

  datatype RequestStatus = Pending | Fulfilled | Rejected | Expired
  datatype Vote = Approve | Reject
  datatype AssignmentStatus = Scheduled | Active | Ended | Revoked  // Ended is the stored status "expired"

  datatype Intent = Intent(
    orgId: Id,
    memberId: Id,
    status: IntentStatus,
    decision: PolicyDecision,
    safeTxHash: Option<string>,
    txHash: Option<string>,
    failureReason: Option<string>)

  datatype Request = Request(
    intentId: Id,
    requiredCount: int,
    approverRoleIds: seq<Id>,
    expiresAt: int,
    status: RequestStatus)

  datatype Member = Member(orgId: Id, active: bool)

  datatype Assignment = Assignment(
    memberId: Id,
    roleId: Id,
    walletId: Option<Id>,
    startsAt: int,
    endsAt: Option<int>,
    status: AssignmentStatus)

  // Decisions are keyed by request and member: that pair is unique in the table.
  datatype Tables = Tables(
    intents: map<Id, Intent>,
    requests: map<Id, Request>,
    decisions: Decisions,
    members: map<Id, Member>,
    assignments: map<Id, Assignment>)

  const NO_ROWS := Tables(map[], map[], map[], map[], map[])

  type Decisions = map<(Id, Id), Vote>

  function ApproversOf(decisions: Decisions, requestId: Id): (approvers: set<Id>)
    ensures forall m :: m in approvers <==> (requestId, m) in decisions && decisions[(requestId, m)].Approve?
  {
    set k | k in decisions && k.0 == requestId && decisions[k].Approve? :: k.1
  }

  function RejectersOf(decisions: Decisions, requestId: Id): (rejecters: set<Id>)
    ensures forall m :: m in rejecters <==> (requestId, m) in decisions && decisions[(requestId, m)].Reject?
  {
    set k | k in decisions && k.0 == requestId && decisions[k].Reject? :: k.1
  }

  function CountApprovals(decisions: Decisions, requestId: Id): nat {
    |ApproversOf(decisions, requestId)|
  }

  function IsQuorumMet(approvalCount: nat, requiredCount: int): bool {
    approvalCount >= requiredCount
  }

  predicate InWindow(a: Assignment, now: int) {
    a.startsAt <= now && (a.endsAt.None? || a.endsAt.value > now)
  }

  predicate ActiveMember(t: Tables, orgId: Id, memberId: Id) {
    memberId in t.members && t.members[memberId].active && t.members[memberId].orgId == orgId
  }

  // Without approver roles every active member of the organisation may decide; otherwise only
  // holders of one of the roles, through an assignment that is active and in its window.
  function EligibleApprovers(t: Tables, now: int, orgId: Id, roleIds: seq<Id>): set<Id> {
    if roleIds == [] then set m | m in t.members && ActiveMember(t, orgId, m)
    else set a | a in t.assignments && t.assignments[a].roleId in roleIds && t.assignments[a].status.Active?
                 && ActiveMember(t, orgId, t.assignments[a].memberId) && InWindow(t.assignments[a], now)
           :: t.assignments[a].memberId
  }

  /**
   * Who may approve, row by row: the active members of the organisation, and if roles are named, of these only the
   * members who hold one of them now.
   */
  lemma EligibleMeaning(t: Tables, now: int, orgId: Id, roleIds: seq<Id>, m: Id)
    ensures m in EligibleApprovers(t, now, orgId, roleIds) <==>
            && m in t.members && t.members[m].active && t.members[m].orgId == orgId
            && (roleIds == [] || exists a: Id :: HoldsNow(t, now, a, m, roleIds))
  {
    if roleIds != [] {
      if m in EligibleApprovers(t, now, orgId, roleIds) {
        var a :| a in t.assignments && t.assignments[a].memberId == m && t.assignments[a].roleId in roleIds
                 && t.assignments[a].status.Active? && ActiveMember(t, orgId, m) && InWindow(t.assignments[a], now);
        assert HoldsNow(t, now, a, m, roleIds);
      }
      if a: Id :| HoldsNow(t, now, a, m, roleIds) {
        assert a in t.assignments && t.assignments[a].memberId == m;
      }
    }
  }

  // Assignment a gives member m one of the roles at the instant.
  predicate HoldsNow(t: Tables, now: int, a: Id, m: Id, roleIds: seq<Id>) {
    && a in t.assignments && t.assignments[a].memberId == m && t.assignments[a].roleId in roleIds
    && t.assignments[a].status == Active && t.assignments[a].startsAt <= now
    && (t.assignments[a].endsAt == None || now < t.assignments[a].endsAt.value)
  }

  // ---- Single-row writes ----

  function PutRequestStatus(t: Tables, requestId: Id, status: RequestStatus): Tables {
    if requestId in t.requests
    then t.(requests := t.requests[requestId := t.requests[requestId].(status := status)])
    else t
  }

  function PutIntent(t: Tables, intentId: Id, intent: Intent): Tables {
    t.(intents := t.intents[intentId := intent])
  }

  function PutIntentStatus(t: Tables, intentId: Id, status: IntentStatus): Tables {
    if intentId in t.intents then PutIntent(t, intentId, t.intents[intentId].(status := status)) else t
  }

  function PutDecision(t: Tables, requestId: Id, memberId: Id, vote: Vote): Tables {
    t.(decisions := t.decisions[(requestId, memberId) := vote])
  }

  // ---- Counting ----

  lemma OneMoreApproval(decisions: Decisions, requestId: Id, memberId: Id)
    requires (requestId, memberId) !in decisions
    ensures var more := decisions[(requestId, memberId) := Approve];
            && CountApprovals(more, requestId) == CountApprovals(decisions, requestId) + 1
            && RejectersOf(more, requestId) == RejectersOf(decisions, requestId)
  {
    hide ApproversOf, RejectersOf;
    var more := decisions[(requestId, memberId) := Approve];
    assert ApproversOf(more, requestId) == ApproversOf(decisions, requestId) + {memberId};
  }

  lemma OneMoreRejection(decisions: Decisions, requestId: Id, memberId: Id)
    requires (requestId, memberId) !in decisions
    ensures var more := decisions[(requestId, memberId) := Reject];
            && RejectersOf(more, requestId) == RejectersOf(decisions, requestId) + {memberId}
            && ApproversOf(more, requestId) == ApproversOf(decisions, requestId)
  {
  }

  lemma OtherRequestsUnaffected(decisions: Decisions, requestId: Id, memberId: Id, vote: Vote, other: Id)
    requires other != requestId
    ensures var more := decisions[(requestId, memberId) := vote];
            && ApproversOf(more, other) == ApproversOf(decisions, other)
            && RejectersOf(more, other) == RejectersOf(decisions, other)
  {
  }

  lemma {:induction false} SubsetCount(a: set<Id>, b: set<Id>)
    requires a <= b
    ensures |a| <= |b|
  {
    if a != {} {
      var x :| x in a;
      SubsetCount(a - {x}, b - {x});
    }
  }

  ghost predicate DecisionsGrow(before: Decisions, after: Decisions) {
    forall k :: k in before ==> k in after && after[k] == before[k]
  }

  lemma MoreDecisionsMoreApprovals(before: Decisions, after: Decisions, requestId: Id)
    requires DecisionsGrow(before, after)
    ensures CountApprovals(before, requestId) <= CountApprovals(after, requestId)
  {
    SubsetCount(ApproversOf(before, requestId), ApproversOf(after, requestId));
  }
}
