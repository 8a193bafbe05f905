# Verified model of the defensive AI gateway's durable core

This project models the parts of the gateway that must not lose, duplicate or
mis-order security work, and proves what they promise over every input and every
run. It covers:

* the durable alert inbox: the intake contract, admission, dispatch, leases, retries, deferral, release,
  stale recovery and purge, with its incremental capacity triggers;
* the case / approval / response-task machine: quorum votes, terminal-case cascades,
  compensating rollbacks, and the retention purge, over runs of the whole relational
  history;
* the reentrant transaction owner over one shared connection;
* the parsers and bounded scans: the JSON nesting scanner and value budget, the
  indentation-stack YAML subset, the JSON Pointer catalog, and the row- and
  byte-bounded correlation scan with its single-alert lookup;
* three smaller companions: the evidence-pack builder with its validator, the
  action-plan normaliser, and the fixed-window rate limiter.

Objects whose methods update state are classes (`Inbox.AlertInbox`,
`Dispatcher.Gateway`, `CaseGovernance.GovernanceStore`, `Retention.HistoryStore`,
`Transactions.Repository`, `Transactions.Transaction`, `RateLimiter.Limiter`); loops
are methods with invariants, each proved equal to a function whose meaning the lemmas
beside it establish. A run of a state machine is a sequence of stamped events, so a
statement about runs covers every interleaving. The `Laws` modules say, for every status and
column, exactly which statements lead into it from which state, in literal values of the
schema. The clock is an explicit
argument, nondecreasing in runs of the inbox.

| file | content |
|---|---|
| `Common`, `PyText`, `JsonValue`, `Sorting` | shared: options, Python string operations, numerals, JSON values, stable sorting |
| `AlertIdentity`, `Intake` | evidence identity of an alert and the receipt scrub; the contract every submission meets |
| `InboxModel`, `Inbox`, `Dispatcher` | rows and row functions; the table class with its triggers; the gateway that drives it |
| `InboxRuns`, `InboxLaws`, `InboxBudget`, `InboxFairness`, `InboxAdmission`, `InboxLease` | runs of the inbox, why each row changes, and what holds of all runs |
| `GovernanceModel`, `CaseGovernance`, `GovernanceRuns`, `GovernanceLaws` | case, approval and task tables; their class; their runs; why each row changes |
| `Retention`, `HistoryRuns` | the retention purge, statement by statement; runs of the whole history |
| `Transactions` | nested blocks, atomicity, serialisability |
| `JsonSafety`, `SimpleYaml`, `YamlScalars`, `JsonCatalog`, `Correlation`, `CorrelationLaws` | parsers, scanners, bounded scans |
| `EvidencePack`, `EvidenceLaws`, `ActionPlan`, `RateLimiter` | the companions |

## Findings

Where a promise fails for the code as it is, the model keeps the code, shows an input
and states exactly when the promise holds.

* A `recovered` answer weighs the incoming copy but queues the stored one, so it can
  exceed the byte capacity: exactly when the stored copy does not fit
  (`InboxAdmission.RecoveredFitsIffStoredFits`), and for every capacity that can be
  configured a run from the empty inbox gets there (`InboxAdmission.RecoveredCanOverflow`).
* A finish call without `require_active_case` keeps compensation safety only for the
  argument combinations of `GovernanceRuns.SafeCall`, and the executor's calls are
  among them (`GovernanceRuns.SafeCallIsExact`, `GovernanceRuns.ExecutorCallsAreSafe`).
* A write that commits by itself inside a transaction block survives the block's
  exception (`Transactions.AtomicBlock`, `Transactions.CommittingWriteBreaksRollback`).
* The configuration parser cuts the line at `#` before it looks at quotes, so no string
  value can hold one (`SimpleYaml.QuotedReadsBackExactly`).
* The rate limiter reads the minute before it takes the lock; calls that overtake each
  other across a minute boundary restart the window (`RateLimiter.LateCallRestartsTheWindow`).
  An answer is exact if and only if nothing forgot the window since its first request
  (`RateLimiter.AnswerIsExactIffUndisturbed`); a refusal is always right.
* A worker can lose its claim once its lease thread is late by as much as the interval
  leaves of the limit, and below that it never does (`InboxLease.LateLeaseIsLost`,
  `InboxLease.LeaseHolds`).
* A printed integer of more than 4300 digits comes back as a string, because `int` refuses
  it (`SimpleYaml.ParseNumber`).

## Model

| member | source | states |
|---|---|---|
| `AlertIdentity.ScrubIdempotent` | defensive_ai_gateway/database.py:3845-3865 | scrubbing collector receipts from a scrubbed payload changes nothing, at any nesting |
| `AlertIdentity.ScrubDecidesSameEvidence` | defensive_ai_gateway/database.py:3845-3865 | two scrubbed payloads are equal exactly when the payloads agree outside receipt members, by a definition that never scrubs |
| `AlertIdentity.IdentityDecidesEvidence` | defensive_ai_gateway/database.py:3831-3878 | two alerts share an identity exactly when their headers normalise alike and their payloads agree up to receipts |
| `Intake.ValidateEstablishes` | defensive_ai_gateway/log_adapter.py:249-290 | whatever intake accepts has a supported product, a known severity, trimmed bounded fields, a non-empty id and an object payload, and keeps the submitted id and evidence |
| `Intake.AcceptedExactly` | defensive_ai_gateway/log_adapter.py:249-290 | exactly which submissions are accepted, field by field with the limits, and what they become |
| `Intake.ValidateAgain` | defensive_ai_gateway/log_adapter.py:249-290 | an accepted alert passes the contract again unchanged, as long as its time reads as one |
| `Intake.RawCopyKeepsIdentity` | defensive_ai_gateway/app.py:936-948 | the raw copy that processing stores of an accepted alert has the identity of its submission |
| `Inbox.AlertInbox.Write` | defensive_ai_gateway/database.py:778-800 | inserting or updating a row with the insert and update triggers keeps both counters equal to a full recount of unfinished rows and their bytes |
| `Inbox.AlertInbox.Delete` | defensive_ai_gateway/database.py:801-812 | deleting a row keeps the counters a full recount although the trigger clamps at zero; a finished row leaves them alone |
| `Inbox.AlertInbox.EnqueueBounded` | defensive_ai_gateway/database.py:3954-4025 | the answer of a bounded submission in the order of the checks (no id, identity conflict, duplicate, full, recovered, inserted) and the table it leaves; refusals change nothing |
| `Inbox.AlertInbox.NextClaim` | defensive_ai_gateway/database.py:4072-4085 | finds a due row that no due row precedes by age or severity, preferred product, due time and arrival; none only if nothing is due |
| `Inbox.AlertInbox.Claim` | defensive_ai_gateway/database.py:4054-4102 | claims that row: processing, one more attempt, claim time now, every other row untouched |
| `Inbox.AlertInbox.ClaimById` | defensive_ai_gateway/database.py:4063-4070 | with an alert id, claims exactly a due row with it |
| `Inbox.AlertInbox.Renew` | defensive_ai_gateway/database.py:4104-4118 | moves the claim time of a processing row only |
| `Inbox.AlertInbox.SendToDeadLetter` | defensive_ai_gateway/database.py:4120-4140 | buries a processing row with its error; anything else is refused unchanged |
| `Inbox.AlertInbox.Complete` | defensive_ai_gateway/database.py:4142-4155 | completes a processing row; anything else is refused unchanged |
| `Inbox.AlertInbox.Fail` | defensive_ai_gateway/database.py:4157-4184 | a processing row with attempts left waits for another try from exactly the delay on, one without is buried, and nothing else of it changes but the error, cut to 2000 characters, and the claim |
| `Inbox.AlertInbox.Defer` | defensive_ai_gateway/database.py:4186-4224 | defers a processing row, gives its attempt back and stamps the releasable error |
| `Inbox.AlertInbox.ReleaseBatch` | defensive_ai_gateway/database.py:4242-4275 | chooses a batch of releasable rows of the limited size that no other releasable row precedes |
| `Inbox.AlertInbox.Release` | defensive_ai_gateway/database.py:4226-4306 | puts exactly that batch back with a fresh budget and counts deferred and dead rows in it |
| `Inbox.AlertInbox.RecoverStale` | defensive_ai_gateway/database.py:4308-4324 | takes exactly the processing rows whose claim is older than the cutoff, to retry or, without budget, to the dead letters |
| `Inbox.AlertInbox.PurgeCompleted` | defensive_ai_gateway/database.py:4440-4452 | removes exactly the completed rows finished before the cutoff and leaves the counters alone |
| `Dispatcher.Gateway.Submit` | defensive_ai_gateway/app.py:1470-1511 | a submission is refused exactly when it breaks the intake contract, paused exactly when admission is and the alert is new, and otherwise offered as validated, as one step of the run model; refusals change nothing |
| `Dispatcher.Gateway.DispatchOnce` | defensive_ai_gateway/app.py:950-983 | one pass claims for the product whose turn it is, rotates only after a claim, and is one or two steps of the run model; when the executor is full the claimed row waits for another try 250 ms after the later clock reading, or is buried if that was its last attempt |
| `Dispatcher.Gateway.ClaimFor` | defensive_ai_gateway/app.py:957-972 | the turn passes on exactly when the claim succeeded |
| `Dispatcher.Gateway.PersistDeadLetter` | defensive_ai_gateway/app.py:1003-1016 | a non-retryable failure buries the row, any other failure goes through the retry budget |
| `Dispatcher.Gateway.PersistDeferred` | defensive_ai_gateway/app.py:1025-1038 | a remote-model outage is a deferral step of the run model |
| `InboxRuns.StepMoves` | defensive_ai_gateway/database.py:3954-4324 | in every step each row that stays moves only in the listed ways, only finished rows disappear, and only an inserted submission adds a row |
| `InboxRuns.ReachedIsOrderly` | defensive_ai_gateway/app.py:1470-1511 | in every state of every run each row holds an accepted alert under its own id, for one of the products that the dispatcher rotates over |
| `InboxLaws.WhyBuried` | defensive_ai_gateway/database.py:4120-4324 | a row is buried exactly when its worker says it cannot be retried, or when it fails or loses its claim with its budget spent |
| `InboxLaws.WhyRetried` | defensive_ai_gateway/database.py:4157-4324 | a row waits for another try exactly when it fails or loses its claim with budget left, or is released |
| `InboxLaws.WhyTakenOrEnded` | defensive_ai_gateway/database.py:4054-4224 | a row is processed exactly after a claim while waiting and due, and completed, deferred or pending again exactly by its worker or by recovery |
| `InboxLaws.WhyAttemptsChange` | defensive_ai_gateway/database.py:4054-4306 | a claim spends an attempt, a deferral gives it back, release and recovery give all back, and nothing else changes the count |
| `InboxLaws.WhyDueChanges` | defensive_ai_gateway/database.py:4157-4324 | a failed or deferred row is due after its delay, a swept, released or recovered one at once |
| `InboxLaws.WhyClaimTimeChanges` | defensive_ai_gateway/database.py:4087-4324 | a claim is dated when taken or renewed and forgotten when lost; a completion keeps it and is dated itself |
| `InboxLaws.WhyErrorChanges` | defensive_ai_gateway/database.py:4120-4324 | which text is recorded as the last error, with its prefix and length limit |
| `InboxLaws.WhyRowGoes` | defensive_ai_gateway/database.py:4440-4452 | a row is removed exactly if it was completed before the cutoff, or is finished and its history is purged |
| `InboxLaws.WhyRowIsNew` | defensive_ai_gateway/database.py:3926-3952 | a new row waits from now on with its whole budget, for the product and with the priority of its severity |
| `InboxLaws.WhyAnswered` | defensive_ai_gateway/database.py:3954-4025 | which answer a submission gets: conflict, duplicate, full, recovered or inserted, each if and only if |
| `InboxLaws.WhyReleased` | defensive_ai_gateway/database.py:4242-4275 | a release takes only rows deferred, or buried for the model's sake, all of them unless 500 or the limit are reached, and then buried and earliest ones first |
| `InboxLaws.DeferralErrorsAre` | defensive_ai_gateway/database.py:4226-4241 | the LIKE filters hold of exactly the errors that begin with, or contain, the wording, ASCII case ignored and an underscore standing for any character |
| `InboxLaws.SizeIsEncoded` | defensive_ai_gateway/database.py:3976-4007 | a document's size is the number of bytes of an encoding that can be read back |
| `InboxLaws.DispatchIsUrgent` | defensive_ai_gateway/database.py:4028-4085 | wherever a run has led, the dispatcher takes an urgent row if one is due, else the most severe, then the product whose turn it is, then the earliest |
| `InboxBudget.RunKeepsBudgets` | defensive_ai_gateway/database.py:4054-4324 | in every state of every run waiting and deferred rows have attempts left and processing rows have used between one and all of them |
| `InboxBudget.ClaimsBounded` | defensive_ai_gateway/database.py:4054-4306 | over any run one alert is claimed at most its remaining budget plus the maximum per admission, recovery or release |
| `InboxBudget.ClaimsWithinGrants` | defensive_ai_gateway/database.py:4054-4306 | from an empty inbox: at most max_attempts claims per granted budget, although deferral returns attempts |
| `InboxBudget.RunKeepsDeferrals` | defensive_ai_gateway/database.py:4186-4275 | every deferred row of every run carries an error that the release filter selects |
| `InboxBudget.ForcedReleaseDrains` | defensive_ai_gateway/database.py:4226-4306 | a forced release whose limit covers the releasable rows leaves no deferred row |
| `InboxFairness.StepSpendsPatience` | defensive_ai_gateway/database.py:4072-4085 | no step lets a row get ahead of an overdue aged one, and each dispatcher claim of another row uses up one of its turns |
| `InboxFairness.BoundedOvertaking` | defensive_ai_gateway/app.py:957-972 | wherever a run from the empty inbox has led, an overdue row at least 300 seconds old is claimed within five successful dispatcher claims per same-product row at or ahead of it, whatever else happens |
| `InboxAdmission.BacklogBounded` | defensive_ai_gateway/database.py:3976-4025 | with one capacity the unfinished rows never exceed it by more than the dead letters that release put back |
| `InboxAdmission.InsertedFits` | defensive_ai_gateway/database.py:3989-4007 | an inserted answer leaves the backlog bytes within the byte capacity |
| `InboxAdmission.RecoveredFitsIffStoredFits` | defensive_ai_gateway/database.py:3989-4018 | a recovered answer leaves them within it exactly when the stored copy fits |
| `InboxAdmission.RecoveredCanOverflow` | defensive_ai_gateway/database.py:3989-4018 | for every configurable byte capacity, a run of five steps from the empty inbox whose recovered answer leaves the bytes over it, the two copies of the alert being the same occurrence |
| `InboxAdmission.AcceptedShareIdentity` | defensive_ai_gateway/database.py:3880-3912 | wherever a run has led, while an alert is on record every accepted submission of its id carries the identity on record |
| `InboxAdmission.AcceptedOccurrencesAgree` | defensive_ai_gateway/database.py:3880-3912 | any two accepted submissions of an id in a run, with the alert on record in between, differ in receipts at most |
| `InboxLease.IntervalIsAThird` | defensive_ai_gateway/app.py:908-914 | the renewal interval is positive and at most a third of every configurable stale limit |
| `InboxLease.ThirdNeedsTheClamp` | defensive_ai_gateway/config.py:428 | the one-third rule holds exactly from 30 seconds on, which the configuration clamp guarantees |
| `InboxLease.LeaseHolds` | defensive_ai_gateway/app.py:907-934 | if the renewals of a claim come at most `late` seconds after their interval, and that is less than what the interval leaves of the limit, no stale sweep of any run takes the row, and its claim time is the last renewal |
| `InboxLease.ConfiguredLeaseHolds` | defensive_ai_gateway/app.py:907-934 | for every configured limit the thread may be late by two thirds of it |
| `InboxLease.LateLeaseIsLost` | defensive_ai_gateway/database.py:4308-4324 | a thread that may be later than the bound can lose its claim although it is in time |
| `CaseGovernance.GovernanceStore.StoreIsGoverned` | defensive_ai_gateway/database.py:2157-3751 | whatever calls were made, the tables keep quorum, validation gate, authorisation and compensation safety |
| `CaseGovernance.GovernanceStore.UpsertCase` | defensive_ai_gateway/database.py:2157-2214 | a new case is open; on conflict only a provisional status is replaced and only then the closing time cleared |
| `CaseGovernance.GovernanceStore.EnsureProvisionalCase` | defensive_ai_gateway/database.py:2216-2274 | creates an analysing case or moves a provisional one back, and never touches one that an analyst controls |
| `CaseGovernance.GovernanceStore.UpdateProvisionalStatus` | defensive_ai_gateway/database.py:2276-2304 | moves a provisional case between machine states; another target state is an error without effect |
| `CaseGovernance.GovernanceStore.InsertValidation` | defensive_ai_gateway/database.py:2330-2350 | stores a validation of an existing case under a new id, otherwise fails without effect |
| `CaseGovernance.GovernanceStore.CreateReviewResolution` | defensive_ai_gateway/database.py:2368-2418 | continues exactly an eligible review of this case and event, once per validation, and returns the continuation on record |
| `CaseGovernance.GovernanceStore.FindValidation` | defensive_ai_gateway/database.py:2425-2447 | finds the named validation, or the latest of the case and event when none is named |
| `CaseGovernance.GovernanceStore.InsertApproval` | defensive_ai_gateway/database.py:2420-2511 | an approval is inserted exactly for a non-terminal case whose named, or else latest, validation of that case and event passed, or is a review with its continuation, under a new id |
| `CaseGovernance.GovernanceStore.Vote` | defensive_ai_gateway/database.py:2513-2568 | a vote counts once per actor and only while pending; a rejection rejects, a cancellation cancels, an approval approves exactly when it completes the quorum, and only status, votes and decider change |
| `CaseGovernance.GovernanceStore.DecideApproval` | defensive_ai_gateway/app.py:3408-3477 | the same for the analyst's decision, with exactly the planned task beside an approval; when the automation fails, neither happens |
| `CaseGovernance.GovernanceStore.CreateTask` | defensive_ai_gateway/database.py:2833-2877 | a task is created exactly under a free id for an approval that has none, and it is an error exactly when the id is taken and the approval still has none |
| `CaseGovernance.GovernanceStore.CancelPendingApprovals` | defensive_ai_gateway/database.py:7014-7039 | exactly the pending approvals of the case, but for the kept event, are cancelled |
| `CaseGovernance.GovernanceStore.UpdateCaseStatus` | defensive_ai_gateway/database.py:6980-7012 | the case row, then its pending approvals, then its tasks: shielded if they may be live, cancelled if they never ran |
| `CaseGovernance.GovernanceStore.QueueTerminalRollbacks` | defensive_ai_gateway/database.py:3679-3711 | queues exactly the owed rollbacks; after a sweep over all cases compensation safety holds and nothing is owed |
| `CaseGovernance.GovernanceStore.ClaimTask` | defensive_ai_gateway/database.py:3504-3528 | claims the first due task, for rollback or execution, and spends an attempt |
| `CaseGovernance.GovernanceStore.FinishTask` | defensive_ai_gateway/database.py:3530-3590 | a finish applies exactly from the expected status and, if required, to an active case; with safe arguments it is a step of the run model |
| `CaseGovernance.GovernanceStore.RecordRuleId` | defensive_ai_gateway/database.py:3592-3640 | a rule id reaches a running task; on a terminal case its rollback is queued with it |
| `CaseGovernance.GovernanceStore.QueueTask` | defensive_ai_gateway/database.py:3417-3449 | queues execution or rollback exactly from the allowed statuses |
| `CaseGovernance.GovernanceStore.BindConnector` | defensive_ai_gateway/database.py:3451-3474 | binds a connector exactly to an unbound task that waits for configuration |
| `CaseGovernance.GovernanceStore.ResumePausedTasks` | defensive_ai_gateway/database.py:3476-3502 | resumes exactly the paused tasks with a connector, to dispatch or queue as its mode says |
| `CaseGovernance.GovernanceStore.PauseQueuedTasks` | defensive_ai_gateway/database.py:2798-2807 | a disabled policy pauses exactly the queued and retrying tasks |
| `CaseGovernance.GovernanceStore.QueueExpiredTasks` | defensive_ai_gateway/database.py:3665-3677 | queues and counts exactly the verified tasks past their expiry |
| `CaseGovernance.GovernanceStore.RecoverStaleTasks` | defensive_ai_gateway/database.py:3713-3731 | returns and counts exactly the running tasks claimed before the cutoff |
| `CaseGovernance.GovernanceStore.PurgeCases` | defensive_ai_gateway/database.py:4571-4736 | removes exactly the selected cases with everything recorded under them, and no task that may still stand for a live rule |
| `GovernanceRuns.StepKeepsGoverned` | defensive_ai_gateway/database.py:3417-3751 | every step keeps quorum, validation grounds, task authorisation and compensation safety together |
| `GovernanceRuns.TogetherOrNotAtAll` | defensive_ai_gateway/app.py:3422-3474 | after a decision nothing changed if an approved vote found no playbook or a taken task id, and otherwise the approval has a task exactly if it is now approved and one was planned |
| `GovernanceRuns.VoteDecides` | defensive_ai_gateway/database.py:2540-2548 | what the vote of a new actor makes of a pending approval, status by status |
| `GovernanceRuns.RunKeepsGoverned` | defensive_ai_gateway/database.py:2420-4736 | so does every run of intake, decisions, lifecycle, executor, maintenance and retention steps |
| `GovernanceRuns.QuorumInEveryRun` | defensive_ai_gateway/database.py:2513-2568 | pending: no vote against and fewer approvers than required; approved: exactly the required distinct approvers; rejected: by a vote of its decider; closed case: nothing pending |
| `GovernanceRuns.TasksInEveryRun` | defensive_ai_gateway/database.py:2833-2877 | every task executes its own approved approval, one task per approval, and on a terminal case what may be live is shielded |
| `GovernanceRuns.DecisionsAreFinal` | defensive_ai_gateway/database.py:2513-2568 | a decided approval never changes until its case is purged |
| `GovernanceRuns.StepKeepsDecisions` | defensive_ai_gateway/database.py:4571-4736 | a step changes a decided approval in exactly one way: it goes with its purged case |
| `GovernanceRuns.NoLiveRuleIsForgotten` | defensive_ai_gateway/database.py:4571-4736 | no step of any run loses a task that is not shadowed, failed, cancelled or rolled back, or one with a remote rule that is neither rolled back nor shadowed |
| `GovernanceLaws.WhyApprovalIsDecided` | defensive_ai_gateway/database.py:2513-2568 | a pending approval is approved, rejected or cancelled exactly by these votes, a newer event or the closing of its case, and nothing else of it changes |
| `GovernanceLaws.WhyApprovalIsNew` | defensive_ai_gateway/database.py:2420-2511 | an approval is inserted exactly for an open case on a cleared validation, named or latest, pending and with a quorum between one and five |
| `GovernanceLaws.GateInEveryRun` | defensive_ai_gateway/database.py:2447-2475 | in every state of every run each approval rests on a validation of its case and event that passed, or on a continuation of its review |
| `GovernanceLaws.WhyTaskIsNew` | defensive_ai_gateway/response_automation.py:594-670 | a task is created exactly by the vote that completes the quorum of an approval with a planned task |
| `GovernanceLaws.WhyRollbackIsQueued` | defensive_ai_gateway/database.py:3417-3711 | a rollback is queued exactly by an analyst, by expiry, by closing the case or its sweep while a rule may be live, by a rule arriving on a closed case, or by the executor |
| `GovernanceLaws.WhyTaskIsCancelled` | defensive_ai_gateway/database.py:3733-3790 | closing a case cancels exactly its tasks that wait and have no rule |
| `GovernanceLaws.WhyTaskWaits` | defensive_ai_gateway/database.py:3417-3502 | exactly what pauses, queues or hands out a task |
| `GovernanceLaws.WhyTaskRuns` | defensive_ai_gateway/database.py:3504-3528 | work starts exactly by a claim from the queue or for another try |
| `GovernanceLaws.WhyTaskRetries` | defensive_ai_gateway/database.py:3713-3731 | a task is tried again exactly after a stale claim or by the executor, on the side it was on |
| `GovernanceLaws.OutcomesAreFinished` | defensive_ai_gateway/database.py:3530-3590 | only the executor's finish call reports an outcome, and it always takes effect from the expected status |
| `GovernanceLaws.WhyTaskColumnsChange` | defensive_ai_gateway/database.py:3504-3640 | attempts, rule, expiry and connector change exactly by claim, rule arrival, verification and binding; identity never |
| `GovernanceLaws.ClaimsAreFair` | defensive_ai_gateway/database.py:3504-3528 | the claimed task is due and no due one comes before it |
| `GovernanceLaws.WhyCaseChanges` | defensive_ai_gateway/database.py:2157-2304 | the machine moves a case only while it is provisional, the analyst always, and it has a closing time exactly when closed |
| `GovernanceLaws.WhyReviewIsContinued` | defensive_ai_gateway/database.py:2368-2418 | a review is continued at most once and only by a resolution of its own case and event |
| `GovernanceRuns.SafeCallIsExact` | defensive_ai_gateway/database.py:3530-3590 | a finish call keeps compensation safety in every state exactly when its arguments pass a check made before the call |
| `GovernanceRuns.ExecutorCallsAreSafe` | defensive_ai_gateway/database.py:3530-3590 | the finish calls of the response executor pass that check |
| `GovernanceRuns.SweepReconciles` | defensive_ai_gateway/database.py:3679-3711 | from any tables one sweep establishes compensation safety and a second one changes nothing |
| `GovernanceRuns.OwedIffUnsafe` | defensive_ai_gateway/database.py:3679-3711 | the sweep has nothing to do exactly when compensation safety holds |
| `GovernanceRuns.LifecycleKeepsGoverned` | defensive_ai_gateway/database.py:6980-7012 | closing or reopening a case keeps the invariant |
| `GovernanceRuns.VoteKeepsQuorum` | defensive_ai_gateway/database.py:2513-2568 | a vote keeps the quorum rules of its approval |
| `Retention.PurgeKeepsSound` | defensive_ai_gateway/database.py:4640-4736 | purging one case leaves no dangling foreign key and no unanchored row |
| `Retention.ErasingKeepsKeys` | defensive_ai_gateway/database.py:4647-4701 | the deletes of one case go child first, so every statement finds the keys valid |
| `Retention.BatchPurged` | defensive_ai_gateway/database.py:4571-4736 | a batch loses exactly its cases with their rows; exactly the events only they were linked to; exactly the raw alerts only they were linked to and no event is left of; exactly the finished inbox rows of their alerts |
| `Retention.BatchDetails` | defensive_ai_gateway/database.py:4646-4690 | attempts, evaluations and reports go exactly with their tasks and sessions |
| `Retention.BatchIsExact` | defensive_ai_gateway/database.py:4571-4586 | a batch holds closed or false-positive cases past the cutoff whose tasks are all shadowed, failed, cancelled or rolled back, every one unless it is full, and then those due longest |
| `Retention.PurgeIsLocal` | defensive_ai_gateway/database.py:4571-4736 | one purge loses at most a batch of due cases, misses none unless the batch is full, and loses exactly the evidence nothing else needs |
| `Retention.PurgeIsGoverned` | defensive_ai_gateway/database.py:4571-4736 | seen from the governance tables the purge is one step of their runs: it keeps their invariant and erases settled tasks only, none of them with a rule that was not rolled back |
| `Retention.HistoryStore.PurgeCase` | defensive_ai_gateway/database.py:4640-4736 | the statements for one case, each run only when nothing depends on its rows, compose to that purge |
| `Retention.HistoryStore.PurgeHistory` | defensive_ai_gateway/database.py:4571-4736 | exactly the batch disappears: due cases only, and all of them unless as many as the limit, at most 1000, are due |
| `Retention.HistoryStore.Candidates` | defensive_ai_gateway/database.py:4571-4586 | selects the longest-closed purgeable cases, up to the batch size |
| `HistoryRuns.StepKeepsIntact` | defensive_ai_gateway/database.py:2069-4736 | every repository write of intake, analysis, governance, investigation and retention keeps foreign keys, anchors and the governance invariant together |
| `HistoryRuns.RetentionInEveryRun` | defensive_ai_gateway/database.py:4454-4736 | from the empty database, wherever such writes in any order have led, the history is intact, and a purge loses exactly a batch of due cases with what only they needed, stays intact and forgets no live rule |
| `Transactions.Repository.Put` | defensive_ai_gateway/database.py:2069-2094 | a repository write runs under the lock and is durable at once unless its commit is deferred |
| `Transactions.Transaction.Enter` | defensive_ai_gateway/database.py:10100-10105 | a block takes the lock, goes one deeper, and owns the commit exactly at depth zero |
| `Transactions.Transaction.Exit` | defensive_ai_gateway/database.py:10107-10117 | leaving undoes that, and only the owner commits or rolls back |
| `Transactions.RunKeepsConsistent` | defensive_ai_gateway/database.py:10084-10117 | in every interleaving only the lock holder is inside a block, the lock count is its depth, and only its outermost block owns the commit |
| `Transactions.ProgramsBalance` | defensive_ai_gateway/database.py:859-871 | exceptions caught or escaping, every program of nested blocks closes what it opened |
| `Transactions.NothingLeaksBeforeExit` | defensive_ai_gateway/database.py:859-871 | before the outermost exit the durable state is unchanged |
| `Transactions.AtomicBlock` | defensive_ai_gateway/database.py:859-871 | a clean exit makes every executed write durable; an escaping exception leaves nothing exactly when no inner write committed by itself; depth and lock count return to zero |
| `Transactions.CommittingWriteBreaksRollback` | defensive_ai_gateway/database.py:859-871 | a concrete block whose self-committing write survives its exception |
| `Transactions.Serialisable` | defensive_ai_gateway/database.py:10084-10117 | the shared steps of any interleaving are a sequence of whole single-thread units whose serial execution gives the durable state; an open unit is the lock holder's and has no effect |
| `Transactions.ScheduleIsSerial` | defensive_ai_gateway/database.py:10084-10117 | the same for schedules with steps outside the repository |
| `JsonSafety.ValidateNesting` | defensive_ai_gateway/json_safety.py:13-34 | accepts a text exactly when the deepest bracket level outside strings stays within 64 |
| `JsonSafety.PrintRises` | defensive_ai_gateway/json_safety.py:13-34 | on a JSON text, any whitespace and any escapes, the scanner rises exactly as deep as the value is nested and returns |
| `JsonSafety.NestingExact` | defensive_ai_gateway/json_safety.py:13-34 | so a JSON text is accepted exactly when its value is at most 64 deep |
| `JsonSafety.ValidateNodeBudget` | defensive_ai_gateway/json_safety.py:37-49 | the work stack accepts exactly the values with at most 20000 nodes |
| `JsonSafety.LoadsBounded` | defensive_ai_gateway/json_safety.py:52-57 | a decoded value is returned exactly when text and value pass both bounds |
| `SimpleYaml.StepKeepsGood` | defensive_ai_gateway/config.py:247-265 | for every line the stack keeps the root at the bottom, strictly increasing indents, one key per level, and its innermost map exists |
| `SimpleYaml.PopKeepsGood` | defensive_ai_gateway/config.py:257-259 | popping stops at a shallower frame and never removes the root |
| `SimpleYaml.ParseSimpleYaml` | defensive_ai_gateway/config.py:241-266 | the loop computes the parse of the text |
| `SimpleYaml.RefusedExactly` | defensive_ai_gateway/config.py:250-256 | a file is refused exactly when a line that is neither blank nor a comment has no colon |
| `SimpleYaml.ParsePrintScalar` | defensive_ai_gateway/config.py:220-238 | every printed integer of readable length, boolean, quoted string and list is read back |
| `SimpleYaml.ParseNumber` | defensive_ai_gateway/config.py:235-238 | a printed integer is read back exactly up to 4300 digits, and otherwise becomes a string |
| `YamlScalars.ScalarIs` | defensive_ai_gateway/config.py:220-238 | what a scalar is by its trimmed text: truth value, integer, quoted text, list in brackets, or the text itself |
| `YamlScalars.NaturalIs` | defensive_ai_gateway/config.py:235-238 | a text is a natural number exactly if it is digits in groups parted by single underscores, 4300 at most |
| `YamlScalars.LinesEnd` | defensive_ai_gateway/config.py:249 | a line ends at a Unicode line boundary |
| `SimpleYaml.ParsePrint` | defensive_ai_gateway/config.py:241-266 | a printed file, whatever its indentation steps, comments and blank lines, parses to what its items mean |
| `SimpleYaml.TreeRoundTrip` | defensive_ai_gateway/config.py:241-266 | parsing undoes printing for every tree of nested maps, empty ones included |
| `SimpleYaml.NoStringHoldsHash` | defensive_ai_gateway/config.py:250 | no string value of any file contains the comment sign |
| `SimpleYaml.QuotedReadsBackExactly` | defensive_ai_gateway/config.py:232-250 | a quoted one-line string reads back exactly when it has no comment sign |
| `JsonCatalog.Catalog` | defensive_ai_gateway/database.py:4974-5027 | the stack walk emits the document-order listing up to the entry limit |
| `JsonCatalog.EscapeInjective` | defensive_ai_gateway/database.py:5016 | the pointer escaping of two member names is equal exactly when the names are |
| `JsonCatalog.PointerEvaluates` | defensive_ai_gateway/database.py:5014-5022 | evaluating a printed pointer by section 4 of RFC 6901 reaches what its path reaches |
| `JsonCatalog.PointersAreExact` | defensive_ai_gateway/database.py:4974-5027 | every pointer evaluates to the node its entry describes, at most max_depth tokens down |
| `JsonCatalog.PointersAreDistinct` | defensive_ai_gateway/database.py:4974-5027 | no two entries share a pointer |
| `JsonCatalog.CatalogIsComplete` | defensive_ai_gateway/database.py:5011-5026 | every node reached through the first 200 members and 50 items per level within the depth has an entry |
| `JsonCatalog.MembersAre` | defensive_ai_gateway/database.py:5013-5018 | of an object the first 200 members by name are shown, each with its value |
| `Correlation.ScoreIsWeighted` | defensive_ai_gateway/database.py:5126-5149 | the score is the sum of field weights times shared values, four at most per field |
| `CorrelationLaws.ScoreIs` | defensive_ai_gateway/database.py:5126-5149 | the points of each shared field, with four values of a field at most |
| `CorrelationLaws.ScanIsOldestFirst` | defensive_ai_gateway/database.py:6715-6740 | the scan reads the candidates in the order of their time, oldest first, up to the row bound |
| `CorrelationLaws.ReportIs` | defensive_ai_gateway/database.py:6741-6800 | a reported alert is unlinked, near, of a wanted product, scores five points or more and is reported with its points and its distance |
| `CorrelationLaws.ReportIsOrdered` | defensive_ai_gateway/database.py:6806-6813 | the report is ordered by points, distance, time and id |
| `Correlation.CandidatesAre` | defensive_ai_gateway/database.py:6715-6740 | the candidate rows are the alerts in the window and product filter, each once |
| `Correlation.Scan` | defensive_ai_gateway/database.py:6741-6800 | the loop reads a prefix of the rows within both limits, counts it exactly, and reports each limit exactly when it cut something off |
| `Correlation.QueryRelated` | defensive_ai_gateway/database.py:6697-6835 | a page of the sorted matches with exact totals, counters within their limits and exact truncation flags |
| `Correlation.PagesAreComplete` | defensive_ai_gateway/database.py:6814-6822 | following next_offset from zero puts all matches together |
| `Correlation.CompleteScanIsExact` | defensive_ai_gateway/database.py:6697-6835 | an untruncated scan without product filter lists exactly the unlinked in-window alerts scoring at least 5, each once, best first |
| `Correlation.LookUpAgrees` | defensive_ai_gateway/database.py:6837-6903 | for an unlinked alert the single lookup answers exactly if such a scan lists it |
| `Correlation.ReportedCanBeLookedUp` | defensive_ai_gateway/database.py:6837-6903 | whatever was cut off or filtered, a reported alert can be looked up with the same score |
| `EvidencePack.ListEventRefs` | defensive_ai_gateway/case_response.py:65-105 | the loop with its cap computes the first eight references by priority |
| `EvidencePack.IdentifiedExactly` | defensive_ai_gateway/case_response.py:65-105 | an event has a citable reference exactly if its id is not blank or an evidence item has one |
| `EvidencePack.ShownRefsAreBest` | defensive_ai_gateway/case_response.py:79-105 | the references shown are distinct, ordered by priority, eight or all there are, and none left out has a better priority |
| `EvidencePack.TimelineOrdered` | defensive_ai_gateway/case_response.py:283-537 | the timeline is ordered by occurrence, recording, kind and id, and holds every entry up to its limit |
| `EvidencePack.TimelineFromEvents` | defensive_ai_gateway/case_response.py:283-537 | every timeline entry cites one event of the case or nothing, and has a server time basis |
| `EvidenceLaws.ToldTells` | defensive_ai_gateway/case_response.py:283-500 | behind every timeline entry stands a record of the case, told with its id, time, time basis and the references of its event |
| `EvidenceLaws.EveryRecordIsTold` | defensive_ai_gateway/case_response.py:283-500 | every event, run, validation, approval, decision, vote, task, change of a task, attempt and audit of the case is told |
| `EvidenceLaws.TimelineIsFirst` | defensive_ai_gateway/case_response.py:503-537 | the timeline is ordered by time, recording, kind and id, and nothing left out is before anything shown |
| `EvidenceLaws.LatestIsAbout` | defensive_ai_gateway/case_response.py:762-776 | which event a response pack is about |
| `EvidenceLaws.FactsAre` | defensive_ai_gateway/case_response.py:778-803 | which findings and events are shown as facts, and on which references |
| `EvidenceLaws.PlaybookIs` | defensive_ai_gateway/case_response.py:935-993 | the playbook holds the verification and every other action once, twelve steps at most |
| `EvidenceLaws.ContainmentIs` | defensive_ai_gateway/case_response.py:847-933 | when containment is offered, when it may be routed, and that the finer candidate never may |
| `EvidenceLaws.TasksAreReported` | defensive_ai_gateway/case_response.py:995-1036 | for every task status, the one list of the response pack that reports it |
| `EvidenceLaws.SimulationsAreNotActions` | defensive_ai_gateway/case_response.py:1034-1036 | a simulation is never reported as an action taken, and nothing in two lists |
| `EvidenceLaws.ChecksAsk` | defensive_ai_gateway/case_response.py:1118-1172 | what each check asks of any response pack |
| `EvidenceLaws.StatusFollows` | defensive_ai_gateway/case_response.py:1174-1187 | when a response pack passes and when it is for review, for any outcome of the checks |
| `EvidencePack.PackCollects` | defensive_ai_gateway/case_response.py:1083-1094 | the citation walk finds exactly the references of the response pack's records |
| `EvidencePack.CitationsResolve` | defensive_ai_gateway/case_response.py:1078-1138 | every citation anywhere in a response pack is a reference of an event of the case, and the manifest lists exactly the cited ones |
| `EvidencePack.PackCitesExactly` | defensive_ai_gateway/case_response.py:1121-1145 | a response pack cites something exactly when its latest event, a shown entry or a listed task's event has a reference |
| `EvidencePack.BuilderPassesValidator` | defensive_ai_gateway/case_response.py:1111-1193 | for any events whatever, eight checks hold of every built response pack, the other two exactly when something is cited, and the status follows |
| `EvidencePack.EmptyCaseIsBlocked` | defensive_ai_gateway/case_response.py:1176-1178 | without events the response pack is blocked whatever the validation says |
| `EvidencePack.CasePassesIffItHasEvents` | defensive_ai_gateway/case_response.py:754-1193 | a case, its events having the ids they are stored under, passes all ten checks exactly when it has an event, and then its latest validation alone decides the status |
| `ActionPlan.NormalizeActionText` | defensive_ai_gateway/action_plan.py:27-35 | marker stripping terminates because the text gets shorter, and yields the text no marker can be stripped from |
| `ActionPlan.NormalTextTwice` | defensive_ai_gateway/action_plan.py:27-35 | a normalised text is its own normal form |
| `ActionPlan.StageIsFirstAnswer` | defensive_ai_gateway/action_plan.py:38-52 | an action is of the stage of the first question whose words its text contains, and a verification if of none |
| `ActionPlan.CompactDropsSeparators` | defensive_ai_gateway/action_plan.py:59 | the key of an action drops exactly blanks and the listed separators, character by character |
| `ActionPlan.NormalizeActionPlan` | defensive_ai_gateway/action_plan.py:55-80 | the loop computes the first action per key, sorted by stage |
| `ActionPlan.FirstIsKept` | defensive_ai_gateway/action_plan.py:58-64 | for every key the first action with it is the one kept |
| `ActionPlan.EveryKeyRepresented` | defensive_ai_gateway/action_plan.py:58-64 | every action with any text is represented by one with its key |
| `ActionPlan.SortIsStable` | defensive_ai_gateway/action_plan.py:79-80 | the sort is by stage, keeps the source order within a stage and loses nothing |
| `ActionPlan.PlanIsStable` | defensive_ai_gateway/action_plan.py:55-80 | a plan has distinct keys, ordered stages, and normalising it again changes nothing |
| `RateLimiter.Limiter.Allow` | defensive_ai_gateway/app.py:5271-5283 | in whatever order calls take the lock: a refusal means the key's requests of the minute exceed the limit, and if nothing forgot the window the answer says exactly whether they do |
| `RateLimiter.AnswerIsExactIffUndisturbed` | defensive_ai_gateway/app.py:5271-5283 | over any sequence of calls the counter never exceeds the unbounded log's count, and equals it if and only if since the first such request no request of another minute had the same key or evicted the table |
| `RateLimiter.AnswersAreExact` | defensive_ai_gateway/app.py:5271-5283 | over any serialised sequence of calls the counter equals the unbounded log's count, however often the table is evicted |
| `RateLimiter.LateCallRestartsTheWindow` | defensive_ai_gateway/app.py:5272-5277 | a call that takes the lock after one from a later minute restarts the count |

## Left out

- SQLite, schema migrations, indexes and connections: tables are maps and sets, triggers and foreign keys are explicit code and predicates, and a candidate query is the ordered set of rows it selects.
- JSON rendering and hashing: a stored document is its text, an identity is the record that would be rendered; rendered sizes enter as given numbers.
- Clock, randomness and generated identifiers: parameters. The clock never runs backwards in a run of the inbox.
- Threads: interleavings are runs of atomic repository calls; inside one call only the transaction model looks at single steps.
- Memory entries, episodes and report files that a retention purge also expires: not among the modelled tables.
- Votes live inside their approval row instead of a table of their own; audit rows are not modelled.
- Non-ASCII case folding in products and severities, and non-ASCII digits in YAML integers: only ASCII letters and digits are folded or read.
- Response automation, response agent, orchestrator, memory and validation internals: only the repository steps they take, in any order, with the side conditions stated.
- The unbounded `enqueue_alert` called directly and the synchronous submit path: they bypass the capacity that admission is about.
- InboxFairness.BoundedOvertaking: counts successful dispatcher claims only, because a claim by alert id of another row does not pass the turn on.
- InboxLease.LeaseHolds: how punctual the lease thread is, as no scheduler is modelled; the punctuality of its renewals is the hypothesis.
- CaseGovernance: table rows carry the columns that decide; the texts of actions, reasons and findings, the priority and deadline columns and the playbook choice are not modelled, and a plan is an argument.
- HistoryRuns: inbox rows change status freely here; their own steps are those of InboxRuns.
- The retry back-off arithmetic and its jitter: the delay of a failed attempt is a parameter.
- Transactions: a write with a deferred commit outside any block, which leaves the connection uncommitted, and a commit that itself fails.
- JsonSafety.LoadsBounded: decoding is the JSON library's; its result, or its error, is an argument.
- SimpleYaml.TreeRoundTrip: list parts hold no comma, comment sign, outer blanks or outer quotes, and a list of one empty part is excluded, because the syntax cannot express them; integers have at most 4300 digits; reading the file and newline translation happen before.
- SimpleYaml.ParseSimpleYaml: the nested dictionaries are one value updated along the path that the stack remembers, instead of dictionary objects shared between the stack and the tree.
- JsonCatalog.Catalog: the byte size of an item is given by a function of the item.
- Correlation: how indicators are collected from payloads and entities, the limit of sixteen displayed matches, the normalisation of the product filter and the lookup of the case itself.
- EvidencePack: texts without citations, the order of playbook steps, the filtering of analysis findings and the containment compiler; their results are inputs; so is the later redaction of the stored content.
- ActionPlan.NormalizeActionText: one round of marker removal is an abstract function that only shrinks; idempotence assumes that it treats all whitespace alike.
- Agent profiles, playbooks, user management, list and count queries, HTTP handlers, Syslog listeners and static files: they would only add easy members.
