/** The services as classes over one database, each method proved against the step it performs. */
module Services {
  import opened Prelude
  import opened PolicyEngine
  import opened IntentStateMachine
  import opened PolicyEvaluation
  import opened Store
  import opened Steps
  import SoloCalls
  import RateCounters

  // The tables and the statements the repositories run on them.
  class Database {
    var intents: map<Id, Intent>
    var requests: map<Id, Request>
    var decisions: Decisions
    var members: map<Id, Member>
    var assignments: map<Id, Assignment>

    constructor ()
      ensures Rows() == NO_ROWS
    {
      intents, requests, decisions, members, assignments := map[], map[], map[], map[], map[];
    }

    function Rows(): Tables
      reads this
    {
      Tables(intents, requests, decisions, members, assignments)
    }

    method UpdateRequestStatus(requestId: Id, status: RequestStatus)
      requires requestId in requests
      modifies this`requests
      ensures Rows() == PutRequestStatus(old(Rows()), requestId, status)
    {
      requests := requests[requestId := requests[requestId].(status := status)];
    }

    method UpdateIntentStatus(intentId: Id, status: IntentStatus)
      requires intentId in intents
      modifies this`intents
      ensures Rows() == PutIntentStatus(old(Rows()), intentId, status)
    {
      intents := intents[intentId := intents[intentId].(status := status)];
    }

    // Every stale row once, in some order.
    method FindExpiredPending(now: int) returns (stale: seq<Id>)
      ensures SoloCalls.Ids(stale) == StaleRequests(Rows(), now)
      ensures forall i, j :: 0 <= i < j < |stale| ==> stale[i] != stale[j]
    {
      stale := Enumerate(StaleRequests(Rows(), now));
    }

    // One update of all of a member's open intents.
    method CancelOpenIntents(memberId: Id)
      modifies this`intents
      ensures Rows() == CancelIntents(old(Rows()), {memberId})
    {
      intents := map i | i in intents ::
                   if intents[i].memberId == memberId && Cancellable(intents[i].status)
                   then intents[i].(status := Cancelled, failureReason := Some("access_revoked"))
                   else intents[i];
    }
  }

  method Enumerate(ids: set<Id>) returns (list: seq<Id>)
    ensures SoloCalls.Ids(list) == ids
    ensures forall i, j :: 0 <= i < j < |list| ==> list[i] != list[j]
  {
    list := [];
    var rest := ids;
    while rest != {}
      invariant SoloCalls.Ids(list) + rest == ids && SoloCalls.Ids(list) !! rest
      invariant forall i, j :: 0 <= i < j < |list| ==> list[i] != list[j]
      decreases rest
    {
      var id :| id in rest;
      assert SoloCalls.Ids(list + [id]) == SoloCalls.Ids(list) + {id};
      list, rest := list + [id], rest - {id};
    }
  }

  // Foreign key of the approval requests.
  ghost predicate RequestsHaveIntents(t: Tables) {
    forall r :: r in t.requests ==> t.requests[r].intentId in t.intents
  }

  const DEFAULT_EXPIRY_HOURS: int := 72

  class ApprovalService {
    const db: Database
    const expiryHours: int

    constructor (db: Database, expiryHours: int := DEFAULT_EXPIRY_HOURS)
      ensures this.db == db && this.expiryHours == expiryHours
    {
      this.db, this.expiryHours := db, expiryHours;
    }

    // The request expires the configured number of hours from now.
    method CreateForIntent(intentId: Id, requestId: Id, decision: PolicyDecision, now: int)
      requires intentId in db.intents && requestId !in db.requests
      modifies db
      ensures db.Rows() == Steps.CreateForIntent(old(db.Rows()), intentId, requestId, decision,
                                                 now + expiryHours * 3_600_000)
    {
      if !decision.decision.NeedApproval? || !decision.metadata.Approval? {
        return;
      }
      var approval := decision.metadata.approval;
      var roles := if approval.approverRoleIds.Some? then approval.approverRoleIds.value else [];
      var expiresAt := now + expiryHours * 60 * 60 * 1000;
      db.requests := db.requests[requestId := Request(intentId, approval.approverCount, roles, expiresAt, Pending)];
      db.UpdateIntentStatus(intentId, PendingApproval);
    }

    method ResolveEligibleApprovers(now: int, orgId: Id, roleIds: seq<Id>) returns (eligible: set<Id>)
      ensures eligible == EligibleApprovers(db.Rows(), now, orgId, roleIds)
    {
      if roleIds == [] {
        eligible := set m | m in db.members && db.members[m].orgId == orgId && db.members[m].active;
        return;
      }
      eligible := set a | a in db.assignments
                          && db.assignments[a].roleId in roleIds
                          && db.assignments[a].status == Active
                          && db.assignments[a].memberId in db.members
                          && db.members[db.assignments[a].memberId].orgId == orgId
                          && db.members[db.assignments[a].memberId].active
                          && db.assignments[a].startsAt <= now
                          && (db.assignments[a].endsAt == None || db.assignments[a].endsAt.value > now)
                    :: db.assignments[a].memberId;
    }

    method RecordDecision(now: int, requestId: Id, memberId: Id, vote: Vote) returns (result: Result<Request, Error>)
      requires RequestsHaveIntents(db.Rows())
      modifies db
      ensures db.Rows() == Steps.RecordDecision(old(db.Rows()), now, requestId, memberId, vote)
      ensures var error := DecisionError(old(db.Rows()), now, requestId, memberId);
              match result
              case Ok(request) => error.None? && requestId in db.requests && request == db.requests[requestId]
              case Err(e) => error == Some(e)
    {
      if requestId !in db.requests {
        return Err(ApprovalNotFound);
      }
      var request := db.requests[requestId];
      if request.status != Pending {
        return Err(ApprovalNotPending);
      }
      var intentId := request.intentId;
      var eligible := ResolveEligibleApprovers(now, db.intents[intentId].orgId, request.approverRoleIds);
      if memberId !in eligible {
        return Err(NotEligibleApprover);
      }
      if (requestId, memberId) in db.decisions {
        return Err(ApprovalAlreadyDecided);
      }
      db.decisions := db.decisions[(requestId, memberId) := vote];
      if vote == Reject {
        db.UpdateRequestStatus(requestId, Rejected);
        db.UpdateIntentStatus(intentId, StatusAfter(PendingApproval, ApprovalRejected));
        return Ok(db.requests[requestId]);
      }
      var approvalCount := CountApprovals(db.decisions, requestId);
      if approvalCount >= request.requiredCount {
        db.UpdateRequestStatus(requestId, Fulfilled);
        db.UpdateIntentStatus(intentId, StatusAfter(PendingApproval, ApprovalCompleted));
      }
      return Ok(db.requests[requestId]);
    }

    method ExpireRequest(requestId: Id)
      requires RequestsHaveIntents(db.Rows())
      modifies db
      ensures db.Rows() == Steps.ExpireRequest(old(db.Rows()), requestId)
      ensures RequestsHaveIntents(db.Rows())
    {
      if requestId !in db.requests || db.requests[requestId].status != Pending {
        return;
      }
      var intentId := db.requests[requestId].intentId;
      db.UpdateRequestStatus(requestId, Expired);
      db.UpdateIntentStatus(intentId, StatusAfter(PendingApproval, ApprovalExpired));
    }

    // Expires every pending request whose time is over, and nothing else.
    method ExpireStaleRequests(now: int) returns (count: nat)
      requires RequestsHaveIntents(db.Rows())
      modifies db
      ensures db.Rows() == ExpireRequests(old(db.Rows()), StaleRequests(old(db.Rows()), now))
      ensures count == |StaleRequests(old(db.Rows()), now)|
    {
      hide ExpireRequests, Steps.ExpireRequest;
      var stale := db.FindExpiredPending(now);
      ghost var before := db.Rows();
      SoloCalls.ExpireNone(before);
      assert SoloCalls.Ids(stale[..0]) == {};
      for i := 0 to |stale|
        invariant RequestsHaveIntents(db.Rows())
        invariant db.Rows() == ExpireRequests(before, SoloCalls.Ids(stale[..i]))
      {
        assert stale[i] in SoloCalls.Ids(stale);
        OneMoreExpired(before, SoloCalls.Ids(stale[..i]), stale[i]);
        ExpireRequest(stale[i]);
        assert SoloCalls.Ids(stale[..i + 1]) == SoloCalls.Ids(stale[..i]) + {stale[i]};
      }
      assert stale[..|stale|] == stale;
      DistinctCount(stale);
      count := |stale|;
    }
  }

  lemma OneMoreExpired(t: Tables, done: set<Id>, r: Id)
    requires RequestsHaveIntents(t) && r in t.requests && t.requests[r].status.Pending? && r !in done
    ensures Steps.ExpireRequest(ExpireRequests(t, done), r) == ExpireRequests(t, done + {r})
  {
    var u, v := ExpireRequests(t, done), ExpireRequests(t, done + {r});
    assert IntentsOf(t, done + {r}) == IntentsOf(t, done) + {t.requests[r].intentId};
    assert Steps.ExpireRequest(u, r).requests == v.requests;
    assert Steps.ExpireRequest(u, r).intents == v.intents;
  }

  lemma {:induction false} DistinctCount(list: seq<Id>)
    requires forall i, j :: 0 <= i < j < |list| ==> list[i] != list[j]
    ensures |SoloCalls.Ids(list)| == |list|
  {
    if list != [] {
      var front, last := list[..|list| - 1], list[|list| - 1];
      DistinctCount(front);
      assert SoloCalls.Ids(list) == SoloCalls.Ids(front) + {last};
    }
  }

  // ---- Evaluating and creating intents ----

  const ZERO_ADDRESS := "0x0000000000000000000000000000000000000000"

  // What a caller asks for. `native` is None when the amount does not parse as a finite number.
  datatype CreateIntentDto = CreateIntentDto(
    walletId: Id,
    action: IntentAction,
    tokenAddress: string,
    native: Option<real>)

  // A deployment has no token and moves nothing.
  function Normalised(dto: CreateIntentDto): CreateIntentDto {
    if dto.action.Deploy? then dto.(tokenAddress := ZERO_ADDRESS, native := Some(0.0)) else dto
  }

  // What an evaluation looks at, the counters as just read.
  function EvaluationOf(orgId: Id, memberId: Id, dto: CreateIntentDto, rules: seq<PolicyRule>, price: Price,
                        readings: RateCounters.Counters): Evaluation
  {
    Evaluation(EvaluationContext(orgId, memberId, dto.walletId, dto.tokenAddress, None, readings.dailyUsdSpent,
                                 readings.txCountLastHour.Floor, Some(dto.action)),
               rules, price, dto.native)
  }

  // The spend and the number of transactions recorded in the day and hour of the instant; zeros without Redis.
  function Readings(connected: bool, log: seq<RateCounters.Stamped>, orgId: Id, memberId: Id, now: nat)
    : RateCounters.Counters
  {
    if connected
    then RateCounters.Counters(
           RateCounters.Ledger(log, RateCounters.DailyKey(orgId, memberId, RateCounters.DayOf(now))),
           RateCounters.Ledger(log, RateCounters.HourlyKey(orgId, memberId, RateCounters.HourOf(now))))
    else RateCounters.Counters(0.0, 0.0)
  }

  class PolicyEvaluationService {
    const counters: RateCounters.RateCounterService

    constructor (counters: RateCounters.RateCounterService)
      ensures this.counters == counters
    {
      this.counters := counters;
    }

    // Without a price the counters are not even read. `rules` are those of the member's roles.
    method EvaluateIntent(orgId: Id, memberId: Id, dto: CreateIntentDto, rules: seq<PolicyRule>, price: Price, now: nat)
      returns (decision: PolicyDecision)
      requires counters.Valid() && counters.UpTo(now)
      ensures var readings := Readings(counters.connected, counters.log, orgId, memberId, now);
              decision == PolicyEvaluation.EvaluateIntent(EvaluationOf(orgId, memberId, dto, rules, price, readings))
    {
      hide Evaluate, RateCounters.Ledger;
      var amountUsd := None;
      match price {
        case Unavailable =>
          return PolicyDecision(Deny, ["POLICY_DENIED_PRICE_UNAVAILABLE"], [], FailClosed);
        case Quoted(usd) =>
          amountUsd := if dto.native.Some? then Some(dto.native.value * usd) else None;
      }
      var snapshot := counters.GetCounters(orgId, memberId, now);
      var context := EvaluationContext(orgId, memberId, dto.walletId, dto.tokenAddress, amountUsd,
                                       snapshot.dailyUsdSpent, snapshot.txCountLastHour.Floor, Some(dto.action));
      SameAmount(price, dto.native, amountUsd);
      decision := EvaluatePolicy(context, rules);
    }

    // None stands for an unavailable price or an amount that is no number.
    method ResolveAmountUsd(price: Price, native: Option<real>) returns (amountUsd: Option<real>)
      ensures amountUsd.Some? <==> price.Quoted? && native.Some?
      ensures amountUsd.Some? ==> amountUsd.value == native.value * price.usd
    {
      match price {
        case Unavailable => return None;
        case Quoted(usd) => return if native.Some? then Some(native.value * usd) else None;
      }
    }
  }

  lemma SameAmount(price: Price, native: Option<real>, amountUsd: Option<real>)
    requires price.Quoted? && (amountUsd.Some? <==> native.Some?)
    requires amountUsd.Some? ==> amountUsd.value == native.value * price.usd
    ensures amountUsd == AmountUsd(price, native)
  {
    var other := AmountUsd(price, native);
    if native.Some? {
      assert amountUsd.value == other.value;
    } else {
      assert amountUsd == None && other == None;
    }
  }

  // The amount a creation counts and records: zero for a deployment, else by a second look-up of the price.
  ghost predicate CountedAmount(dto: CreateIntentDto, priceAgain: Price, amount: Option<real>) {
    if dto.action.Deploy? then amount == Some(0.0)
    else (amount.Some? <==> priceAgain.Quoted? && dto.native.Some?)
         && (amount.Some? ==> amount.value == dto.native.value * priceAgain.usd)
  }

  class IntentService {
    const db: Database
    const evaluation: PolicyEvaluationService
    const approvals: ApprovalService
    const counters: RateCounters.RateCounterService

    constructor (db: Database, evaluation: PolicyEvaluationService, approvals: ApprovalService,
                 counters: RateCounters.RateCounterService)
      requires approvals.db == db && evaluation.counters == counters
      ensures this.db == db && this.evaluation == evaluation && this.approvals == approvals && this.counters == counters
    {
      this.db, this.evaluation, this.approvals, this.counters := db, evaluation, approvals, counters;
    }

    // A denied intent is stored before the call fails. Only allowed intents with a known amount are counted: the
    // amount in the day and the transaction in the hour in which the two increments are performed.
    method Create(intentId: Id, requestId: Id, orgId: Id, memberId: Id, walletInOrg: bool, dto: CreateIntentDto,
                  rules: seq<PolicyRule>, price: Price, priceAgain: Price, times: CreateTimes)
      returns (result: Result<Id, Error>, ghost amount: Option<real>)
      requires approvals.db == db && evaluation.counters == counters
      requires intentId !in db.intents && requestId !in db.requests
      requires counters.Valid() && counters.UpTo(times.read) && InOrder(times)
      modifies db, counters
      ensures CountedAmount(dto, priceAgain, amount)
      ensures var readings := Readings(counters.connected, old(counters.log), orgId, memberId, times.read);
              var d := PolicyEvaluation.EvaluateIntent(
                         EvaluationOf(orgId, memberId, Normalised(dto), rules, price, readings));
              && db.Rows() == (if !walletInOrg then old(db.Rows())
                               else CreateIntent(old(db.Rows()), intentId, requestId, orgId, memberId, d,
                                                 times.requested + approvals.expiryHours * 3_600_000))
              && result == (if !walletInOrg then Err(WalletNotFound)
                            else if d.decision.Deny? then Err(PolicyDenied(intentId))
                            else Ok(intentId))
              && counters.Valid()
              && var counts := walletInOrg && counters.connected && d.decision.Allow? && amount.Some?;
                 && counters.log == old(counters.log)
                                    + (if counts then Counted(orgId, memberId, amount.value, times) else [])
                 && forall key :: RateCounters.Ledger(counters.log, key) == RateCounters.Ledger(old(counters.log), key)
                      + (if counts then CountedIn(key, orgId, memberId, amount.value, times) else 0.0)
    {
      hide PolicyEvaluation.EvaluateIntent, RateCounters.Chronological, RateCounters.Replay, RateCounters.Ledger;
      hide CreateIntent, Steps.CreateForIntent;
      var asked := Normalised(dto);
      if !walletInOrg {
        amount := if dto.action.Deploy? then Some(0.0)
                  else if priceAgain.Quoted? && dto.native.Some? then Some(dto.native.value * priceAgain.usd) else None;
        return Err(WalletNotFound), amount;
      }
      var decision := evaluation.EvaluateIntent(orgId, memberId, asked, rules, price, times.read);
      var amountUsd: Option<real> := Some(0.0);
      if dto.action != Deploy {
        amountUsd := evaluation.ResolveAmountUsd(priceAgain, asked.native);
      }
      amount := amountUsd;
      var status := StatusAfter(Draft, PolicyEvent(decision.decision));
      db.intents := db.intents[intentId := Intent(orgId, memberId, status, decision, None, None, None)];
      if decision.decision == Allow && amountUsd.Some? {
        counters.IncrementDailyUsd(orgId, memberId, amountUsd.value, times.usd, times.usdKept);
        counters.IncrementHourlyTx(orgId, memberId, times.tx, times.txKept);
      }
      Stored(old(db.Rows()), intentId, requestId, orgId, memberId, decision,
             times.requested + approvals.expiryHours * 3_600_000);
      if decision.decision == Deny {
        return Err(PolicyDenied(intentId)), amount;
      }
      if decision.decision == NeedApproval {
        approvals.CreateForIntent(intentId, requestId, decision, times.requested);
      }
      return Ok(intentId), amount;
    }

    method CancelByMember(memberId: Id)
      modifies db
      ensures db.Rows() == CancelIntents(old(db.Rows()), {memberId})
    {
      db.CancelOpenIntents(memberId);
    }
  }

  // When the counters are read, when the four commands that count an allowed creation are performed, and when the
  // approval request is made.
  datatype CreateTimes = CreateTimes(read: nat, usd: nat, usdKept: nat, tx: nat, txKept: nat, requested: int)

  predicate InOrder(times: CreateTimes) {
    times.read <= times.usd <= times.usdKept <= times.tx <= times.txKept
  }

  function Counted(orgId: Id, memberId: Id, amount: real, times: CreateTimes): seq<RateCounters.Stamped> {
    RateCounters.UsdCommands(orgId, memberId, amount, times.usd, times.usdKept)
    + RateCounters.TxCommands(orgId, memberId, times.tx, times.txKept)
  }

  // What a counted creation adds to the record of each day and hour.
  function CountedIn(key: RateCounters.Key, orgId: Id, memberId: Id, amount: real, times: CreateTimes): real {
    if key == RateCounters.DailyKey(orgId, memberId, times.usd / 86_400_000) then amount
    else if key == RateCounters.HourlyKey(orgId, memberId, times.tx / 3_600_000) then 1.0
    else 0.0
  }

  // A denied or allowed intent is all that a creation stores; otherwise the request comes on top.
  lemma Stored(t: Tables, i: Id, r: Id, org: Id, m: Id, d: PolicyDecision, expiresAt: int)
    ensures var s := t.(intents := t.intents[i := Intent(org, m, InitialStatus(d.decision), d, None, None, None)]);
            CreateIntent(t, i, r, org, m, d, expiresAt) ==
            if d.decision == NeedApproval then Steps.CreateForIntent(s, i, r, d, expiresAt) else s
  {
  }

  class IntentExecutionService {
    const db: Database

    constructor (db: Database)
      ensures this.db == db
    {
      this.db := db;
    }

    // `encodable` says that the transfer could be encoded; `answer` is the Safe service's.
    method Propose(intentId: Id, walletExists: bool, encodable: bool, answer: SafeAnswer)
      returns (result: Result<Intent, Error>)
      modifies db
      ensures db.Rows() == Steps.Propose(old(db.Rows()), intentId, walletExists && encodable, answer)
      ensures match ProposalError(old(db.Rows()), intentId, walletExists && encodable)
              case Some(NotPrepared) => result == Err(if walletExists then NotPrepared else WalletNotFound)
              case Some(error) => result == Err(error)
              case None => match answer
                           case SafeAccepted(_) => intentId in db.intents && result == Ok(db.intents[intentId])
                           case SafeRejected(_) => result == Err(SafeApiError)
                           case SafeRetry => result == Err(SafeApiRetryable)
    {
      if intentId !in db.intents {
        return Err(IntentNotFound);
      }
      var intent := db.intents[intentId];
      if intent.status != ReadyToSign {
        return Err(IntentNotReady);
      }
      if !walletExists {
        return Err(WalletNotFound);
      }
      if !encodable {
        return Err(NotPrepared);
      }
      match answer {
        case SafeAccepted(hash) =>
          var submitted := StatusAfter(ReadyToSign, Proposed);
          db.intents := db.intents[intentId := db.intents[intentId].(status := submitted, safeTxHash := Some(hash))];
          return Ok(db.intents[intentId]);
        case SafeRejected(reason) =>
          db.intents := db.intents[intentId := db.intents[intentId].(status := Failed, failureReason := Some(reason))];
          return Err(SafeApiError);
        case SafeRetry =>
          return Err(SafeApiRetryable);
      }
    }
  }

  class TxStatusProcessor {
    const db: Database

    constructor (db: Database)
      ensures this.db == db
    {
      this.db := db;
    }

    // `again` reports the error that makes the queue retry the job.
    method Handle(intentId: Id, answer: ChainAnswer, attempt: nat) returns (again: bool)
      modifies db
      ensures db.Rows() == Poll(old(db.Rows()), intentId, answer, attempt)
      ensures again <==> intentId in old(db.intents) && old(db.intents)[intentId].status.Submitted?
                         && answer.ChainError? && answer.retryable && attempt < 60
    {
      if intentId !in db.intents || db.intents[intentId].status != Submitted {
        return false;
      }
      var intent := db.intents[intentId];
      match answer {
        case ChainExecuted(hash) =>
          db.intents := db.intents[intentId :=
            intent.(status := StatusAfter(Submitted, OnchainSuccess), txHash := Some(hash))];
          return false;
        case ChainFailed(reason) =>
          db.intents := db.intents[intentId :=
            intent.(status := StatusAfter(Submitted, OnchainFailed), failureReason := Some(reason))];
          return false;
        case ChainError(retryable, reason) =>
          if !retryable || attempt >= 60 {
            db.intents := db.intents[intentId := intent.(status := Failed, failureReason := Some(reason))];
            return false;
          }
          return true;
        case ChainPending =>
          if attempt >= 60 {
            db.intents := db.intents[intentId :=
              intent.(status := Failed, failureReason := Some("tx_status_poll_timeout"))];
          }
          return false;
      }
    }
  }

  class RoleAssignmentService {
    const db: Database
    const intents: IntentService

    constructor (db: Database, intents: IntentService)
      requires intents.db == db
      ensures this.db == db && this.intents == intents
    {
      this.db, this.intents := db, intents;
    }

    method Assign(now: int, assignmentId: Id, grant: Grant) returns (result: Result<Assignment, Error>)
      requires assignmentId !in db.assignments
      modifies db
      ensures db.Rows() == Steps.Assign(old(db.Rows()), now, assignmentId, grant)
      ensures match AssignError(old(db.Rows()), now, grant)
              case Some(error) => result == Err(error)
              case None => assignmentId in db.assignments && result == Ok(db.assignments[assignmentId])
    {
      if grant.memberId !in db.members || !db.members[grant.memberId].active
         || db.members[grant.memberId].orgId != grant.orgId {
        return Err(MemberNotFound);
      }
      if !grant.roleInOrg {
        return Err(RoleNotFound);
      }
      if grant.walletId.Some? && !grant.walletInOrg {
        return Err(WalletNotFound);
      }
      var startsAt := if grant.startsAt.Some? then grant.startsAt.value else now;
      if grant.endsAt.Some? && grant.endsAt.value <= startsAt {
        return Err(InvalidAccessWindow);
      }
      if exists a :: a in db.assignments && Live(db.assignments[a])
                     && SameGrant(db.assignments[a], grant.memberId, grant.roleId, grant.walletId) {
        return Err(RoleAlreadyAssigned);
      }
      var status := if startsAt > now then Scheduled else Active;
      var row := Assignment(grant.memberId, grant.roleId, grant.walletId, startsAt, grant.endsAt, status);
      db.assignments := db.assignments[assignmentId := row];
      return Ok(row);
    }

    method Revoke(now: int, orgId: Id, memberId: Id, assignmentId: Id) returns (result: Result<Assignment, Error>)
      requires intents.db == db
      modifies db
      ensures db.Rows() == Steps.Revoke(old(db.Rows()), now, orgId, memberId, assignmentId)
      ensures match RevokeError(old(db.Rows()), orgId, memberId, assignmentId)
              case Some(error) => result == Err(error)
              case None => assignmentId in db.assignments && result == Ok(db.assignments[assignmentId])
    {
      if assignmentId !in db.assignments || db.assignments[assignmentId].memberId != memberId
         || memberId !in db.members || db.members[memberId].orgId != orgId || !Live(db.assignments[assignmentId]) {
        return Err(AssignmentNotFound);
      }
      var revoked := db.assignments[assignmentId].(status := Revoked, endsAt := Some(now));
      db.assignments := db.assignments[assignmentId := revoked];
      intents.CancelByMember(memberId);
      return Ok(revoked);
    }

    method PromoteScheduled(now: int)
      modifies db
      ensures db.Rows() == Promote(old(db.Rows()), now)
    {
      db.assignments := map a | a in db.assignments ::
                          if db.assignments[a].status == Scheduled && db.assignments[a].startsAt <= now
                          then db.assignments[a].(status := Active) else db.assignments[a];
    }

    // One assignment after the other, each followed by the cancellation of its holder's open intents.
    method ExpireActive(now: int) returns (count: nat)
      requires intents.db == db
      modifies db
      ensures db.Rows() == EndAssignments(old(db.Rows()), Due(old(db.Rows()), now))
      ensures count == |Due(old(db.Rows()), now)|
    {
      ghost var before := db.Rows();
      var due := Enumerate(Due(db.Rows(), now));
      NoneEnded(before);
      for i := 0 to |due|
        invariant db.Rows() == EndAssignments(before, SoloCalls.Ids(due[..i]))
      {
        assert due[i] in SoloCalls.Ids(due);
        var row := db.assignments[due[i]];
        db.assignments := db.assignments[due[i] := row.(status := Ended)];
        intents.CancelByMember(row.memberId);
        OneMoreEnded(before, SoloCalls.Ids(due[..i]), due[i]);
        assert SoloCalls.Ids(due[..i + 1]) == SoloCalls.Ids(due[..i]) + {due[i]};
      }
      assert due[..|due|] == due;
      DistinctCount(due);
      count := |due|;
    }
  }

  lemma NoneEnded(t: Tables)
    ensures EndAssignments(t, {}) == t
  {
    assert EndAssignments(t, {}).assignments == t.assignments;
    assert EndAssignments(t, {}).intents == t.intents;
  }

  lemma OneMoreEnded(t: Tables, done: set<Id>, a: Id)
    requires a in t.assignments
    ensures var u := EndAssignments(t, done);
            CancelIntents(u.(assignments := u.assignments[a := u.assignments[a].(status := Ended)]),
                          {u.assignments[a].memberId})
            == EndAssignments(t, done + {a})
  {
    var u, v := EndAssignments(t, done), EndAssignments(t, done + {a});
    var w := CancelIntents(u.(assignments := u.assignments[a := u.assignments[a].(status := Ended)]),
                           {u.assignments[a].memberId});
    assert Holders(t, done + {a}) == Holders(t, done) + {t.assignments[a].memberId};
    assert w.assignments == v.assignments;
    assert w.intents == v.intents;
  }

  class AccessExpiryProcessor {
    const assignments: RoleAssignmentService

    constructor (assignments: RoleAssignmentService)
      ensures this.assignments == assignments
    {
      this.assignments := assignments;
    }

    method Handle(cron: bool, promoteAt: int, expireAt: int)
      requires assignments.intents.db == assignments.db
      modifies assignments.db
      ensures assignments.db.Rows() == if cron then Sweep(old(assignments.db.Rows()), promoteAt, expireAt)
                                       else old(assignments.db.Rows())
    {
      if !cron {
        return;
      }
      assignments.PromoteScheduled(promoteAt);
      var expired := assignments.ExpireActive(expireAt);
    }
  }
}
