# Verification of the treasury policy platform

A Dafny model of how a transaction intent is authorised and of the algorithms around it, with proofs over every
input, every run and every interleaving. `dafny verify dfyconfig.toml` checks the project.

## What is modelled

**Policy engine** (`PolicyEngine`, `NormalForm`, `PolicyEvaluation`). Seven rule handlers and the merge loop. The
merge is a least upper bound in the order ALLOW < REQUIRE_APPROVAL(n) < DENY, and all its laws follow from that: what
a decision means in terms of the rules, homomorphism, independence of order and repetition, monotonicity in spending,
and a normal form that keeps one rule per type. `DecisionRecord` says what a decision records: reasons, numbers and
approvers. `PolicyResolver` collects the rules that apply to an intent from assignments and policies.

**Intent authorisation** (`IntentStateMachine`, `Store`, `Steps`, `Services`). An intent is created from a decision;
approvers decide on its request, a worker expires requests, a lost role cancels intents, `propose` submits and a
poller settles. `Steps` says what each call does to the tables, `Services` holds the classes whose methods do it step
by step and are proved equal to it, and `CallEffects` says row by row what each call accepts and writes. Two
granularities:

- *Whole calls* (`AtomicRuns`, `StatusChanges`): the joint invariant of requests, decisions and intents, and a measure
  that bounds the number of status changes, with a run that attains the bound.
- *Interleaved statements* (`Interleaving`): any number of calls in flight, broken at their awaits. Authorisation
  safety (`AuthorisationSafety`) and no lost quorum (`NoLostQuorum`) hold for every interleaving. Calls run one after
  the other do what whole calls do (`SoloCalls`, `WholeCalls`), and the joint invariant still holds if only calls on
  the same intent do not overlap (`NonOverlapping`). Executed and failed intents can change exactly while a call on
  them is in flight at one of the listed places (`Finality`); `Races` has reachable runs that show what breaks.

**Counters** (`RateCounters`, `SpendBound`, `CountedCreates`). Redis keys with a time to live, refining a ledger; and
the bound that check-then-increment gives with k creates in flight, with a run that attains it. A creation of an intent
is proved to be one of these creates.

**Access and policies over time** (`AccessWindows`, `PolicyHistory`). Stored assignment statuses against windows and
clock; policy rows as an append-only history under a partial unique index.

**Algorithms** (`RateLimiter`, `Lockout`, `CsvWriter`, `AuditPaging`). Two fixed-window limiters as one bucket, the
login lockout, the CSV export with a reader, and cursor paging.

## Where the code differs from what one would expect

The model follows the code.

- A decision never looks at the request's expiry time; only the sweep does
  (`AtomicRuns.OverdueVoteAcceptedIffNotSwept`).
- A completed quorum moves a cancelled intent to ready to sign, because the transition starts from the literal status
  pending_approval (`AtomicRuns.CancelledIsLeftOnlyByLateQuorum`).
- A refused proposal moves an intent from ready_to_sign to failed, which the transition table does not list
  (`AtomicRuns.OffTableIff`).
- Interleaved, a rejection and a quorum overwrite each other, and a second proposal overwrites a later status
  (`Races`, `Finality.FinalIsLeftIffLiveCall`).
- packages/shared/src/policy/rule-types.ts:54 says that without role ids any organization admin may approve; the code
  lets every active member approve.
- docs/developer/policy-dsl.md:35 calls the daily counter rolling; it is a counter of the UTC day.
- A poll that finds the transaction still pending returns without an error, so only errors make the queue retry
  (`Services.TxStatusProcessor.Handle`).
- A successful login clears the failure count under the email as typed, while failures are counted under the
  lower-case email (`Lockout.SuccessClearsIffLowerCase`).
- A limit of L requests per window allows 2L - 1 in some intervals of that length
  (`RateLimiter.SlidingWindowBoundIsAttained`).
- Version numbers do not identify policy rows: a policy created after an archived one starts again at version 1, and
  an update that read its row before another change repeats a version (`PolicyHistory.VersionsIdentifyRowsIff`).
- Twice the daily cap can be spent within 24 hours (`SpendBound.AnyDayBoundIsAttained`).
- The price is looked up once to evaluate an amount and again to count it. If it moves in between, one create at a time
  can exceed the daily cap by that much; if the second look-up fails, an allowed intent is not counted at all
  (`SpendBound.DailyBoundIsAttained`, `Services.IntentService.Create`).
- packages/shared/src/policy/reason-codes.ts:10 names a denial for the lack of an active policy; nothing gives it, and
  a member whom no policy governs is allowed every intent that has a price (`PolicyResolver.UngovernedIsAllowed`).
- A role granted for one wallet brings its policies to every wallet: which rules apply does not depend on the wallet of
  the assignment (`PolicyResolver.PolicyResolverService.GetApplicablePolicies`).
- Paging orders by createdAt alone; if the database may return rows of one instant in a different order each time, a
  page that ends inside such a group loses or repeats rows (`AuditPaging.CursorSurvivesRearrangementIff`).

## Assumptions

Each database statement is atomic and sees every earlier one, rows are never deleted, new rows get fresh identifiers,
and stored approval rules ask for at least one approver. Clocks do not run backwards. Amounts are exact real numbers,
and where spending is bounded they are not negative.

## Model

| member | source | states |
|---|---|---|
| PolicyEngine.MergeResults | packages/policy-engine/src/merge-strategy.ts:4-49 | The merge is the first denial's metadata with every reason, or else the reasons and rules position by position with the strictest approval: the highest count, and the last role list that is named |
| PolicyEngine.MergeWithoutDeny | packages/policy-engine/src/merge-strategy.ts:18-37 | Without a denial the loop pairs results with rules as far as both reach and folds every approval asked for into one requirement |
| PolicyEngine.StrictestOfOneMore | packages/policy-engine/src/merge-strategy.ts:51-62 | Picking the stricter approval one at a time is the maximum count and the last named role list of the whole list |
| PolicyEngine.EvaluatePolicy | packages/policy-engine/src/policy-evaluator.ts:9-27 | The evaluator as it runs agrees with the evaluation all laws below are about; an empty rule list allows |
| PolicyEngine.RefusedIffBroken | packages/policy-engine/src/handlers/token-allowlist.handler.ts:9-21 | Each handler denies exactly when the condition its rule puts on the intent is broken; token addresses are compared ignoring case, unknown types are always broken |
| PolicyEngine.DecisionMeaning | packages/policy-engine/src/policy-evaluator.ts:14-26 | An intent is denied iff some rule is broken, and needs approval iff none is, it moves a known positive value and some rule asks for approval |
| PolicyEngine.EvaluateIsLeastUpperBound | packages/policy-engine/src/merge-strategy.ts:8-48 | The verdict of a rule list is the least upper bound of the verdicts of its rules in the order allow, approval by n, deny |
| PolicyEngine.MergeIsHomomorphism | packages/policy-engine/src/policy-evaluator.ts:9-27 | Evaluating a concatenation is the join of evaluating its parts, with the empty list as bottom |
| PolicyEngine.OrderAndRepetitionIrrelevant | packages/policy-engine/src/merge-strategy.ts:8-48 | Decision and approver count depend only on which rules occur |
| PolicyEngine.PermutationInvariant | packages/policy-engine/src/merge-strategy.ts:8-48 | Decision and approver count are the same for every permutation of the rules |
| PolicyEngine.MoreRulesNeverLoosen | packages/policy-engine/src/merge-strategy.ts:8-48 | Adding rules anywhere never loosens the outcome |
| PolicyEngine.RuleMonotoneInSpend | packages/policy-engine/src/handlers/max-usd-per-day.handler.ts:12-32 | One rule never gets looser when amount, daily spend or hourly count grow |
| PolicyEngine.MonotoneInSpend | packages/policy-engine/src/handlers/require-approval.handler.ts:9-26 | For fixed rules, raising a known amount, the daily spend or the hourly count only moves the outcome up and never lowers the approver count |
| PolicyEngine.UnknownAmountNeverAsksApproval | packages/policy-engine/src/handlers/max-usd-per-tx.handler.ts:12-20 | With an unknown amount the outcome is deny or allow, never approval; every dollar cap denies |
| PolicyEngine.ApprovalCountDominates | packages/policy-engine/src/merge-strategy.ts:51-62 | An approval outcome records all rules and exactly the highest count any approval rule asks for |
| DecisionRecord.OneReasonPerObjection | packages/policy-engine/src/handlers/max-usd-per-day.handler.ts:12-32 | A rule that is broken, or asks for approval of a positive value, gives exactly its own reason code; any other gives none |
| DecisionRecord.ReasonsFollowTheRules | packages/policy-engine/src/merge-strategy.ts:9-15 | The reasons of a list are those of its parts in order, none left out, and every rule evaluated is recorded |
| DecisionRecord.ReasonsMeaning | packages/policy-engine/src/merge-strategy.ts:21-29 | A code is among the reasons iff some rule objects with it, denied or not |
| DecisionRecord.DenialReportsFirstBroken | packages/policy-engine/src/merge-strategy.ts:8-15 | A denial reports the numbers of the first broken rule; the remainder of a daily cap is the most that could still be moved |
| DecisionRecord.ApproversOfLastRule | packages/policy-engine/src/merge-strategy.ts:51-62 | The approver roles of an approval outcome are those of the last approval rule that names any, and none if no rule does |
| DecisionRecord.SchemaAdmitsIff | packages/shared/src/policy/policy.schema.ts:4-70 | The schema admits a rule iff some intent that moves value can meet it, an approval rule asks for someone from roles that are not an empty list, and a token list holds addresses that differ by more than case |
| Prelude.LowerIgnoresCase | packages/policy-engine/src/handlers/token-allowlist.handler.ts:11-13 | Lower-casing identifies exactly the texts that differ in case only |
| NormalForm.NormalFormPreservesMeaning | apps/api/src/policy/policy-resolver.service.ts:29-36 | In every context the canonical list (intersected allowlists, smallest caps, highest approver count) has the decision and approver count of the original list |
| NormalForm.NormalFormHasOneRulePerType | packages/policy-engine/src/policy-evaluator.ts:14-24 | The canonical list has at most one rule of each type, and exactly the types of the original |
| IntentStateMachine.Transition | packages/shared/src/intent/intent-state-machine.ts:25-65 | The transition table; every listed transition comes strictly closer to the end, so the table has no cycles |
| IntentStateMachine.FinalStatuses | packages/shared/src/intent/intent-state-machine.ts:25-54 | The table has no way out of exactly denied, executed, failed and cancelled |
| IntentStateMachine.TableByEvent | packages/shared/src/intent/intent-state-machine.ts:25-65 | Each event leads to one status, from exactly the stages that list it |
| PolicyEvaluation.EvaluationMeaning | apps/api/src/policy/policy-evaluation.service.ts:24-73 | An evaluation denies iff the price is unavailable or some rule is broken by the native amount times the price; it needs approval iff nothing is broken, that product is known and positive and some rule asks for approval |
| PolicyEvaluation.NotDeniedMeansNothingBroken | apps/api/src/policy/policy-evaluation.service.ts:39-49 | What is not denied was evaluated with a quoted price and breaks no rule |
| PolicyEvaluation.ApprovalRequirementCovers | apps/api/src/policy/policy-evaluation.service.ts:24-73 | An approval outcome asks for at least one approver and for no fewer than any approval rule evaluated |
| PolicyEvaluation.CollectRules | apps/api/src/policy/policy-resolver.service.ts:29-36 | The loop concatenates the rule lists of all policies, skipping rows whose rules are not a list |
| PolicyEvaluation.MostRestrictiveOfRoles | apps/api/src/policy/policy-resolver.service.ts:14-37 | The outcome over several roles is within a bound iff the outcome of each policy alone is |
| PolicyResolver.PolicyResolverService.GetApplicablePolicies | apps/api/src/policy/policy-resolver.service.ts:14-37 | Collects exactly the rules of the active policies, for all wallets or this one, of the roles an active member holds now by an active assignment in its window |
| PolicyResolver.PolicyResolverService.GetApplicablePoliciesForOrg | apps/api/src/policy/policy-resolver.service.ts:39-51 | A member of another organization has no rules |
| PolicyResolver.VerdictIsDetermined | apps/api/src/policy/policy-resolver.service.ts:20-36 | Decision and approver count do not depend on the order in which the database returns assignments and policies |
| PolicyResolver.MoreRolesNeverLoosen | apps/api/src/policy/policy-resolver.service.ts:14-37 | Further assignments and policies never loosen the outcome for any intent of the member |
| PolicyResolver.UngovernedIsAllowed | packages/policy-engine/src/policy-evaluator.ts:10-12 | A member whom no policy governs is allowed every intent with a quoted price |
| Store.OneMoreApproval | apps/api/src/approval/approval.repository.ts:69-73 | A member's first approval raises the count by exactly one and leaves the rejections alone |
| Store.EligibleMeaning | apps/api/src/approval/approval.service.ts:84-108 | A member may approve iff active in the organization and, when roles are named, holding one of them by an active assignment that has started and not ended |
| Store.MoreDecisionsMoreApprovals | apps/api/src/approval/approval.repository.ts:69-73 | Approvals are never lost while decisions are only added |
| Services.Database.FindExpiredPending | apps/api/src/approval/approval.repository.ts:43-51 | Lists each pending request whose expiry time has passed exactly once, and nothing else |
| Services.ApprovalService.CreateForIntent | apps/api/src/approval/approval.service.ts:32-82 | Opens one pending request with the decision's count and roles that expires the configured number of hours from now, and only for an approval outcome |
| Services.ApprovalService.ResolveEligibleApprovers | apps/api/src/approval/approval.service.ts:84-108 | Eligible are all active members of the organization, or the active in-window holders of a named role |
| Services.ApprovalService.RecordDecision | apps/api/src/approval/approval.service.ts:110-171 | The four checks in order with their errors, then the stored vote and, on a rejection or a quorum, the closed request and its intent's new status; nothing else changes |
| Services.ApprovalService.ExpireRequest | apps/api/src/approval/approval.service.ts:185-200 | Expires a pending request and cancels its intent; any other request is left alone |
| Services.ApprovalService.ExpireStaleRequests | apps/api/src/approval/approval.service.ts:202-208 | The loop expires every overdue pending request, cancels their intents, touches nothing else and returns their number |
| Services.PolicyEvaluationService.EvaluateIntent | apps/api/src/policy/policy-evaluation.service.ts:24-73 | Denies without reading the counters when the price is unavailable, else evaluates with the spend and the transactions recorded in the current day and hour |
| Services.PolicyEvaluationService.ResolveAmountUsd | apps/api/src/policy/policy-evaluation.service.ts:75-90 | The amount is known iff the price is quoted and the native amount is a number, and is their product |
| Services.IntentService.Create | apps/api/src/intent/intent.service.ts:34-147 | Stores the decision and its status, opens the request for an approval outcome and fails after storing a denied one; only an allowed intent of known amount adds that amount to the record of the day and one to that of the hour, and no other record changes |
| Services.IntentService.CancelByMember | apps/api/src/intent/intent.service.ts:177-194 | Cancels exactly the member's open intents and no others |
| Services.IntentExecutionService.Propose | apps/api/src/intent/intent-execution.service.ts:28-102 | Submits, fails or leaves a ready intent by the Safe service's answer, with the error of each refused case |
| Services.TxStatusProcessor.Handle | apps/api/src/worker/processors/tx-status.processor.ts:20-77 | Settles a submitted intent by chain status and attempt number; the job is retried exactly on a retryable error before the last attempt |
| Services.RoleAssignmentService.Assign | apps/api/src/roles/role-assignment.service.ts:32-119 | The checks in order with their errors, then one new row, scheduled if it starts later than now |
| Services.RoleAssignmentService.Revoke | apps/api/src/roles/role-assignment.service.ts:121-164 | Revokes a live assignment of the member now and cancels the member's open intents |
| Services.RoleAssignmentService.PromoteScheduled | apps/api/src/roles/role-assignment.service.ts:166-176 | Activates exactly the scheduled assignments whose start has come |
| Services.RoleAssignmentService.ExpireActive | apps/api/src/roles/role-assignment.service.ts:178-208 | The loop ends every active assignment that is over, cancels the open intents of their holders and changes nothing else |
| Services.AccessExpiryProcessor.Handle | apps/api/src/worker/processors/access-expiry.processor.ts:11-20 | Promotes at one clock reading, then expires at a later one, and does nothing without the cron flag |
| CallEffects.DecisionIsAcceptedIff | apps/api/src/approval/approval.service.ts:110-135 | A decision is accepted iff the request is pending, the member is eligible now and has not decided; the error names the first condition that fails |
| CallEffects.DecisionWrites | apps/api/src/approval/approval.service.ts:137-162 | An accepted vote is stored; a rejection rejects the request and cancels the intent; an approval that, with those of other members, reaches the required number fulfils the request and makes the intent ready; nothing else changes |
| CallEffects.SweepWrites | apps/api/src/approval/approval.service.ts:185-208 | Exactly the pending requests past their time expire and exactly their intents are cancelled |
| CallEffects.CreationWrites | apps/api/src/intent/intent.service.ts:86-142 | The new intent is the member's, with the decision and the status that follows from it, and an approval outcome adds one pending request with the number, roles and time decided |
| CallEffects.CancellationWrites | apps/api/src/intent/intent.service.ts:177-194 | An intent is cancelled iff its member is named and it is evaluated, pending approval or ready to sign |
| CallEffects.ProposalWrites | apps/api/src/intent/intent-execution.service.ts:28-102 | Each error of a proposal, and what the Safe service's answer writes to the intent alone |
| CallEffects.PollWrites | apps/api/src/worker/processors/tx-status.processor.ts:20-77 | A poll rewrites only a submitted intent, by the chain's answer, and gives up at the sixtieth attempt |
| CallEffects.GrantIsMadeIff | apps/api/src/roles/role-assignment.service.ts:32-90 | A role is granted iff member, role and wallet belong to the organization, the window is not empty and no scheduled or active assignment gives the same; the error names the first condition that fails |
| CallEffects.GrantWrites | apps/api/src/roles/role-assignment.service.ts:66-101 | The new row has the member, role, wallet and end asked for, starts when asked or now, and is scheduled iff that is later than now; nothing else changes |
| CallEffects.RevocationWrites | apps/api/src/roles/role-assignment.service.ts:121-164 | A scheduled or active assignment of a member of the organization is ended now as revoked and the member's open intents are cancelled; anything else is refused and changes nothing |
| AtomicRuns.StepKeepsJointInvariant | apps/api/src/approval/approval.service.ts:110-200 | Every service call keeps the joint invariant of requests, decisions and intents |
| AtomicRuns.JointInvariantHolds | apps/api/src/approval/approval.service.ts:110-200 | After every run: a pending request has too few approvals, no rejection, and an intent pending or cancelled; a fulfilled one exactly the required approvals, no rejection, and an intent past approval or cancelled; a rejected one exactly one rejection and a cancelled intent; an expired one no rejection and a cancelled intent |
| AtomicRuns.StatusChangesDescend | packages/shared/src/intent/intent-state-machine.ts:25-65 | Every status change strictly lowers a measure of status and pending request, and is a transition of the table or one of two others; OffTableIff says exactly when the others happen |
| AtomicRuns.OffTableIff | apps/api/src/intent/intent-execution.service.ts:81-92 | A call changes a status against the table iff it is a proposal of a ready intent that passes its checks and is refused by the Safe service, or an accepted approval completing the quorum of the request a cancellation left pending |
| AtomicRuns.FinalStatusesStay | packages/shared/src/intent/intent-state-machine.ts:36-52 | Denied, executed and failed are never left |
| AtomicRuns.CancelledIsLeftOnlyByLateQuorum | apps/api/src/approval/approval.service.ts:155-161 | A cancelled intent changes status iff an accepted approval completes the quorum of the request that cancellation left pending, and then becomes ready to sign |
| AtomicRuns.OverdueVoteAcceptedIffNotSwept | apps/api/src/approval/approval.service.ts:116-135 | Once a pending request is overdue and nobody else decides on it, the vote of an eligible undecided member is accepted iff no expiry sweep ran since |
| AtomicRuns.AtMostFourChanges | apps/api/src/intent/intent.service.ts:177-194 | From any moment of any run, an intent's status changes at most four more times |
| StatusChanges.FourChangesHappen | apps/api/src/approval/approval.service.ts:155-161 | A run from empty tables in which an intent changes status four times: cancelled, revived, submitted, executed |
| AuthorisationSafety.InvariantHolds | apps/api/src/approval/approval.service.ts:137-161 | In every interleaving, stored terms come from stored decisions and each call in flight may rely on what it has read |
| AuthorisationSafety.ApproversWereEligible | apps/api/src/approval/approval.service.ts:124-137 | In every interleaving, each vote that is stored or on its way belongs to a call that casts this very vote and whose own eligibility query found the member eligible at that moment |
| AuthorisationSafety.DecisionsComeFromCreation | apps/api/src/intent/intent.service.ts:67-113 | Every intent was created in the run, and its stored decision is that of the evaluation at its creation |
| AuthorisationSafety.AuthorisationSafety | apps/api/src/intent/intent-execution.service.ts:28-65 | In every interleaved run, an intent ready to sign, submitted, executed or failed was created from an evaluation with a quoted price and no broken rule, which allowed it, or one of its requests has at least the required number of distinct approvers, each found eligible by the check of an approving call, and that number covers every approval rule of that evaluation |
| AuthorisationSafety.AuthorisationIsStable | apps/api/src/approval/approval.service.ts:46-54 | Authorisation is never withdrawn: decisions are only added, and decision snapshots and request terms are never rewritten |
| NoLostQuorum.WatchedHolds | apps/api/src/approval/approval.service.ts:137-162 | In every interleaving, a pending request with a rejection or a quorum has a call in flight that will close it |
| NoLostQuorum.QuorumIsNeverLost | apps/api/src/approval/approval.service.ts:137-162 | While no decision call is between its insert and its end, a pending request has fewer approvals than required and no rejection |
| SoloCalls.DecideAloneIsAtomic | apps/api/src/approval/approval.service.ts:110-171 | The broken-up decision call run alone does what the whole call does |
| SoloCalls.ProposeAloneIsAtomic | apps/api/src/intent/intent-execution.service.ts:28-102 | The broken-up proposal run alone does what the whole call does |
| SoloCalls.PollAloneIsAtomic | apps/api/src/worker/processors/tx-status.processor.ts:20-77 | The broken-up poll run alone does what the whole call does |
| SoloCalls.CreateAloneIsAtomic | apps/api/src/intent/intent.service.ts:86-142 | The broken-up creation run alone does what the whole call does |
| SoloCalls.SweepAloneIsAtomic | apps/api/src/approval/approval.service.ts:202-208 | The broken-up expiry sweep, in any order of the stale requests, run alone expires all of them at once |
| WholeCalls.SerialRunsAreAtomic | apps/api/src/approval/approval.service.ts:110-208 | A run of statements in which each call ends before the next starts, whatever identifiers calls get and in whatever order sweeps go on, ends with the tables of the run of whole calls |
| WholeCalls.SerialRunsKeepJointInvariant | apps/api/src/approval/approval.service.ts:110-200 | So the joint invariant holds at every call boundary of such a run |
| NonOverlapping.QuietRequestsAreConsistent | apps/api/src/approval/approval.service.ts:110-200 | If no two calls on the same intent are ever in flight together, every request that no call in flight works on agrees with its decisions and its intent, whatever calls on other intents do |
| NonOverlapping.JointInvariantWithoutOverlap | apps/api/src/approval/approval.service.ts:110-200 | In such a run the whole joint invariant holds whenever nothing is in flight |
| Finality.RunsAreOrderly | apps/api/src/approval/approval.service.ts:46-56 | In every interleaving an intent has at most one approval request, and none that is pending once it is past approval |
| Finality.FinalIsLeftIffLiveCall | apps/api/src/approval/approval.repository.ts:81-90 | In every interleaving, some continuation changes the status of an executed or failed intent iff a call in flight on it stands at a listed place; otherwise every continuation keeps it |
| Finality.DeniedIsNeverLeft | apps/api/src/intent/intent.service.ts:86-113 | In every interleaving a denied intent stays denied, whatever is in flight |
| Races.OverwrittenIffWritePending | apps/api/src/approval/approval.repository.ts:81-90 | A status that cancellation leaves alone is overwritten by the very next statement iff a call in flight has a different status write for that intent pending; Finality.FinalIsLeftIffLiveCall is the statement about whole continuations |
| Races.RejectedYetReady | apps/api/src/approval/approval.service.ts:142-161 | From any state with two eligible voters and a request for one approval, an interleaving ends with the request rejected and its intent ready to sign |
| Races.RejectedYetReadyIsReachable | apps/api/src/approval/approval.service.ts:142-161 | Such a run exists from empty tables; by NonOverlapping.QuietRequestsAreConsistent its two calls on one intent have to overlap |
| Races.ExecutedThenSubmittedAgain | apps/api/src/intent/intent-execution.service.ts:33-65 | From any state with an intent ready to sign, a second proposal in flight can mark the executed intent submitted again |
| Races.ExecutedThenSubmittedIsReachable | apps/api/src/intent/intent-execution.service.ts:33-65 | Such a run exists from empty tables |
| RateCounters.RateCounterService.IncrementDailyUsd | apps/api/src/policy/rate-counter.service.ts:19-27 | Adds the amount to the record of the UTC day of the increment and to no other, and refreshes that day's key; without Redis nothing happens |
| RateCounters.RateCounterService.IncrementHourlyTx | apps/api/src/policy/rate-counter.service.ts:29-37 | Adds one to the record of the UTC hour of the increment and to no other, and refreshes that hour's key; without Redis nothing happens |
| RateCounters.RateCounterService.GetCounters | apps/api/src/policy/rate-counter.service.ts:39-52 | Returns exactly the spend recorded in the current UTC day and the number of transactions recorded in the current UTC hour, zero without Redis |
| RateCounters.ReplayIsFaithful | apps/api/src/policy/rate-counter.service.ts:9-37 | Over every monotone run, each key holds the sum of its bucket's increments and cannot expire inside its bucket, even if other commands run between an increment and its refresh |
| RateCounters.CountersReadTheLedger | apps/api/src/policy/rate-counter.service.ts:39-52 | The counters read at any instant are exactly the amounts and transactions recorded in that instant's UTC day and hour |
| RateCounters.BucketLengths | apps/api/src/policy/rate-counter.service.ts:9-17 | Buckets are the UTC days and hours, of 86,400,000 and 3,600,000 milliseconds |
| RateCounters.RefreshedKeyLivesFor | apps/api/src/policy/rate-counter.service.ts:19-37 | A refreshed key lives for exactly 25 hours (daily) or one hour (hourly) from then |
| CountedCreates.CreateIsASlot | apps/api/src/intent/intent.service.ts:67-118 | A creation is one slot of the spending bound: both evaluate the same, and it sends exactly the commands the slot sends from its evaluation to its end, at the same instants |
| CountedCreates.CreationIsDeniedIff | apps/api/src/intent/intent.service.ts:52-75 | A creation is denied iff the price is unavailable or its request does not obey some rule: token, wallet, amount and action as asked for (none for a deployment), and the day's spend and hour's transactions on record |
| SpendBound.ConcurrentDailyCap | apps/api/src/intent/intent.service.ts:67-118 | With at most k creates in flight, the daily counter plus amounts allowed but not yet counted never exceeds the daily cap plus (k - 1) times the transaction cap, each cap raised by what the price moves between its two look-ups, and no day's record does |
| SpendBound.ConcurrentHourlyCap | packages/policy-engine/src/handlers/max-tx-per-hour.handler.ts:9-20 | Likewise the hourly count plus allowed creates not yet counted stays within maxCount + k - 1 |
| SpendBound.SequentialDailyCap | packages/policy-engine/src/handlers/max-usd-per-day.handler.ts:21-22 | One create at a time keeps each day's recorded spend within the daily cap plus one move of the price between its two look-ups |
| SpendBound.DailyBoundIsAttained | apps/api/src/intent/intent.service.ts:67-118 | For all positive caps, the daily one at least the other, every move of the price and every k some run records exactly that bound on one day |
| SpendBound.AnyDayBound | apps/api/src/policy/rate-counter.service.ts:9-12 | In every interval of 24 hours at most twice the daily bound is recorded, with at most k creates in flight |
| SpendBound.AnyDayBoundIsAttained | apps/api/src/policy/rate-counter.service.ts:9-12 | One create at a time records twice the daily cap, each raised by the move of a price, within 24 hours around midnight |
| AccessWindows.AccessInvariantHolds | apps/api/src/roles/role-assignment.service.ts:66-101 | After every run each member, role and wallet has at most one scheduled or active assignment, windows are proper, active ones have started and ended ones are over |
| AccessWindows.SweepStatuses | apps/api/src/worker/processors/access-expiry.processor.ts:15-16 | What a sweep with two clock readings leaves every assignment as, revoked ones untouched |
| AccessWindows.GrantEndsOnTime | apps/api/src/roles/role-assignment.service.ts:66-208 | After a sweep that promotes at or after a grant's start, whatever happened since, the assignment has the member, role and wallet granted and, unless revoked, is active while the end asked for is ahead and over once it is not |
| AccessWindows.SweepAgreesWithClock | apps/api/src/roles/role-assignment.service.ts:166-208 | Right after promote-then-expire at one instant, each non-revoked status is the function of its window and the clock |
| AccessWindows.QueryIsWindowMinusUnpromoted | apps/api/src/roles/role-assignment.repository.ts:9-21 | Between sweeps the query returns, for an active member, exactly the non-revoked assignments inside their window, less those not yet promoted |
| AccessWindows.FinalAssignmentsStay | apps/api/src/roles/role-assignment.service.ts:121-208 | Expired and revoked assignments never change again |
| AccessWindows.LostAccessCancelsIntents | apps/api/src/roles/role-assignment.service.ts:188-196 | Right after a revocation or a sweep, no member who lost an assignment has an intent evaluated, pending approval or ready to sign |
| AccessWindows.OthersKeepIntents | apps/api/src/intent/intent.service.ts:177-194 | Members who lose no assignment keep their intents unchanged |
| PolicyHistory.CreationIsRefusedIff | apps/api/src/policy/policy.service.ts:25-46 | A creation goes through iff role and wallet are the organization's, the rules are a non-empty list the schema admits and no active policy covers the scope; each error has its exact condition |
| PolicyHistory.UpdateIsRefusedIff | apps/api/src/policy/policy.service.ts:72-82 | An update goes through iff the row is active and of the organization and the rules are a non-empty list the schema admits; each error has its exact condition |
| PolicyHistory.InsertionMeaning | apps/api/prisma/migrations/20250520100000_policies/migration.sql:23-27 | The index lets a row in iff no active row has its role and wallet; the row is stored as given, active, and no other changes |
| PolicyHistory.PolicyService.CreateForRole | apps/api/src/policy/policy.service.ts:25-64 | The four checks in order with their errors, then version 1 in a scope that had no active policy |
| PolicyHistory.PolicyService.UpdatePolicy | apps/api/src/policy/policy.service.ts:66-105 | The three checks in order with their errors, then the row archived and the next version added |
| PolicyHistory.PolicyService.ArchivePolicy | apps/api/src/policy/policy.service.ts:144-163 | Archives a row of the organization, changes nothing if it is archived already |
| PolicyHistory.HistoryIsAppendOnly | apps/api/src/policy/policy.repository.ts:40-61 | Over every run of statements, however stale the checks before them, a row keeps rules, role, wallet and version, and its status only goes from active to archived |
| PolicyHistory.HistoryInvariant | apps/api/prisma/migrations/20250520100000_policies/migration.sql:23-27 | Each role and wallet scope has at most one active row, and every later version an archived predecessor |
| PolicyHistory.SnapshotResolves | apps/api/src/policy/policy-resolver.service.ts:54-82 | Over every run of policy changes and intent creations, the policy an intent named is a row that was active and applicable to its member and wallet, and still has the rules it had then |
| PolicyHistory.UpdateMakesNextVersion | apps/api/src/policy/policy.repository.ts:40-61 | The update transaction goes through iff no other row of the scope is active; it archives one row and adds one active row of the same organization and scope with the new rules, one version up |
| PolicyHistory.CreationRepeatsVersionIff | apps/api/src/policy/policy.repository.ts:27-38 | A creation repeats version 1 of its scope iff the scope was used before |
| PolicyHistory.UpdateRepeatsVersionIff | apps/api/src/policy/policy.repository.ts:40-61 | An update of a row, stale or not, repeats a version of its scope iff the row is not the newest there |
| PolicyHistory.VersionsIdentifyRowsIff | apps/api/src/policy/policy.service.ts:66-105 | After every run, stale updates included, versions in a scope are pairwise distinct iff no creation came after the first and every update that went through was of the newest row at that time |
| PolicyHistory.FreshVersionsIdentifyRowsIff | apps/api/src/policy/policy.service.ts:72-90 | When every update finds its row active, versions in a scope are pairwise distinct iff at most one creation went through there |
| PolicyHistory.StaleUpdateRepeatsVersion | apps/api/src/policy/policy.service.ts:72-90 | Create, update, archive, and an update that read the first row while it was active, give two rows of version 2 after a single creation |
| PolicyHistory.VersionsRestartAfterArchive | apps/api/src/policy/policy.repository.ts:27-38 | Create, archive, create gives two rows of version 1 in one scope |
| RateLimiter.GlobalRateLimitGuard.CanActivate | apps/api/src/common/guards/global-rate-limit.guard.ts:17-39 | Answers and moves the address's bucket as the shared fixed-window bucket does, other addresses untouched |
| RateLimiter.ApiKeyAuthGuard.EnforceRateLimit | apps/api/src/auth/guards/api-key-auth.guard.ts:99-111 | The second representation answers and moves as the same bucket, with limit 60 |
| RateLimiter.EachBucketKeepsItsLimit | apps/api/src/common/guards/global-rate-limit.guard.ts:24-38 | Each bucket accepts at most L requests (one if L is 0) |
| RateLimiter.BucketStartsAreAWindowApart | apps/api/src/auth/guards/api-key-auth.guard.ts:102-106 | Later requests of a key fall in the same bucket or in one starting at least a window later |
| RateLimiter.SlidingWindowBound | apps/api/src/common/guards/global-rate-limit.guard.ts:24-38 | For monotone request times, every half-open interval of one window holds at most 2L - 1 accepted requests of a key |
| RateLimiter.LimitsInUse | apps/api/src/auth/guards/api-key-auth.guard.ts:13-111 | An API key passes at most 60 times per bucket and 119 times in any minute; an address 300 and 599 times by default |
| RateLimiter.SlidingWindowBoundIsAttained | apps/api/src/common/guards/global-rate-limit.guard.ts:24-38 | For every limit some run reaches 2L - 1 |
| RateLimiter.KeysAreIndependent | apps/api/src/common/guards/global-rate-limit.guard.ts:24-31 | A key's bucket and all its answers are those of a run without the other keys |
| Lockout.AuthService.AssertNotLocked | apps/api/src/auth/auth.service.ts:180-188 | Refuses exactly while the lower-case email's lock lasts |
| Lockout.AuthService.RecordFailedLogin | apps/api/src/auth/auth.service.ts:190-198 | Raises the lower-case email's count by one and, from the tenth on, locks it for fifteen minutes from now; other emails untouched |
| Lockout.AuthService.Login | apps/api/src/auth/auth.service.ts:44-66 | Lock check, then a recorded failure or a cleared entry under the email as typed |
| Lockout.EntryIsDeterminedByFailures | apps/api/src/auth/auth.service.ts:190-198 | The stored count and lock are a function of the failures recorded since the last clearing |
| Lockout.LockedIff | apps/api/src/auth/auth.service.ts:180-198 | An email in any case is refused iff at least ten failures are recorded and fewer than fifteen minutes have passed since the last |
| Lockout.FailureCountsInAnyCase | apps/api/src/auth/auth.service.ts:49-62 | A failed attempt is recorded under its lower-case email at its second clock reading; other emails keep theirs |
| Lockout.LockoutBound | apps/api/src/auth/auth.service.ts:49-66 | In every sequential run the (10 + m)-th recorded failure comes at least m times fifteen minutes after the tenth, so at most 10 + t / 900000 are recorded up to t milliseconds after it |
| Lockout.SuccessClearsIffLowerCase | apps/api/src/auth/auth.service.ts:66-66 | A successful login resets the count iff the email was typed in lower case or nothing was counted |
| Lockout.CapitalisedSuccessDoesNotClear | apps/api/src/auth/auth.service.ts:66-66 | A capitalised success leaves an earlier failure counted |
| CsvWriter.CreateAuditCsvStream | apps/api/src/audit/csv-stream.writer.ts:20-49 | One chunk per line; reading the text by section 2 of RFC 4180 gives back the header and, under the column each belongs to, every row's time, event type, email and summary, whatever characters they hold |
| CsvWriter.FeedEscaped | apps/api/src/audit/csv-stream.writer.ts:5-10 | From the start of a field, an escaped value leaves exactly that value in the reader's open field |
| CsvWriter.LinesReadBack | apps/api/src/audit/csv-stream.writer.ts:36-46 | Any list of records of at least one field is read back from its lines, header included |
| CsvWriter.LinesAreInjective | apps/api/src/audit/csv-stream.writer.ts:36-46 | Equal texts come from equal records |
| CsvWriter.SummaryGrows | apps/api/src/audit/csv-stream.writer.ts:12-18 | A payload summary lists key=value entries in order, separated, up to the sixth, and ignores the rest |
| AuditPaging.SelectedIsTheOrderedMatches | apps/api/src/audit/audit-query.service.ts:24-56 | A query without cursor selects, each exactly once and by time in the asked direction, the rows of the organization that meet every filter and bound given |
| AuditPaging.PageOf | apps/api/src/audit/audit-query.service.ts:46-60 | Asking for one row more: the page is the next stretch, there is more iff it does not reach the end, and its last row is the cursor that continues right after it |
| AuditPaging.PageSize | apps/api/src/audit/audit-query.service.ts:23-23 | The page size asked for, capped at 100, and 50 when none is asked for |
| AuditPaging.YieldPage | apps/api/src/audit/audit-query.service.ts:114-136 | Each row of a page is yielded in order with its own actor's email, or none |
| AuditPaging.StreamForExport | apps/api/src/audit/audit-query.service.ts:84-144 | For every batch size of at least one the loop ends and yields, oldest first, exactly the rows of the organization in the range, each with its own actor's email, as many as countInRange counts |
| AuditPaging.PagesAreTheWholeList | apps/api/src/audit/audit-query.service.ts:46-72 | Following nextCursor from the start joins to exactly the rows of the organization that meet every filter and bound, newest first, each once; all pages but the last are full, and only the last has no cursor |
| AuditPaging.CursorSurvivesRearrangementIff | apps/api/src/audit/audit-query.service.ts:46-60 | A cursor continues with exactly the rows after its page, however the database arranges rows of one instant in the next query, iff no other row shares the instant of the page's last row |

## Left out

- Services.IntentService.Create: the rules that apply are an input, collected by PolicyResolver; calldata, target address and the policy version named are not stored.
- PolicyResolver.PolicyResolverService.GetApplicablePolicies: stored rules are lists; a row that holds none is left to PolicyEvaluation.CollectRules.
- Services.RoleAssignmentService.Assign: one clock reading stands for the two in the code.
- Services.IntentExecutionService.Propose: a failure of the audit log or the queue after the status write, which the code handles like a Safe error, is not modelled.
- Services.TxStatusProcessor.Handle: a failure of the audit log after the status write, which the code handles like a failed poll and which at the last attempt writes failed over executed, is not modelled.
- AtomicRuns.FinalStatusesStay: the audit failure just named is not among its calls.
- SpendBound.ConcurrentDailyCap: intents that pass through approval are not counted, because the code does not count them; negative amounts, which would lower the counter, are not modelled.
- AuditPaging.PagesAreTheWholeList: rows of one instant come in the same order in every query; rows added while paging are not modelled.
- AuditPaging.StreamForExport: rows of one instant come in the same order in every query; rows added during the export are not modelled.
- PolicyHistory.SnapshotResolves: which of several applicable rows is the most recently updated one is left open.
- Lockout.LockoutBound: sequential calls only, because concurrent ones pass the check together; lower-casing is that of ASCII text.
- Services.ApprovalService.ExpireRequest: the audit entry is not modelled.
- CsvWriter.CreateAuditCsvStream: values arrive as text, so rendering dates and payload values is not modelled.
- Prisma, Redis and BullMQ: maps with atomic operations and unique keys; a poll may run at any time with any attempt number; cascading deletes are not modelled.
- Redis being down during an increment or a read, apart from having no client at all.
- Price oracle, Safe service and chain: inputs of the calls; errors other than an unavailable price leave no trace and are not modelled.
- Floating point and token decimals: amounts are real numbers in dollars.
- Notifications, audit entries, sessions, metrics and logging.
- JWT, passwords, multi-factor codes, API-key secrets, refresh tokens and wallet signatures.
- RolesService, invites, wallet sync, reminders, idempotency middleware, dashboards and the web application: thin, or outside the protocol.
- Deriving the address from request headers in the global rate limiter, and a limit that is not a number.
