/** Cases, approvals with their votes, and response tasks: rows, statements as
    functions of the tables, and the invariant that couples the tables. */
module GovernanceModel {
  import opened Common

  type CaseId = string
  type EventId = string
  type ApprovalId = string
  type TaskId = string
  type ValidationId = string
  type ResolutionId = string
  type Actor = string

  datatype CaseStatus =
    | Analyzing | AnalysisDeferred | AnalysisFailed
    | Open | UnderReview | ConfirmedAttack | Closed | FalsePositive

  datatype Case = Case(status: CaseStatus, updatedAt: int, closedAt: Option<int>)

  datatype ValidationStatus = Passed | Review | Blocked

  /** `continuable` is whether a review may be continued by hand. */
  datatype Validation = Validation(
    caseId: CaseId, eventId: EventId, status: ValidationStatus, continuable: bool, createdAt: int)

  datatype Resolution = Resolution(validationId: ValidationId, caseId: CaseId, eventId: EventId)

  datatype Decision = Approve | Reject | Cancel

  datatype ApprovalStatus = Pending | Approved | Rejected | Cancelled

  datatype Approval = Approval(
    caseId: CaseId,
    eventId: EventId,
    validationId: ValidationId,
    resolutionId: ResolutionId,
    status: ApprovalStatus,
    required: int,
    votes: map<Actor, Decision>,
    decidedBy: Actor)

  datatype TaskStatus =
    | WaitingConfiguration | WaitingDispatch | Paused | Queued | Running | RetryWait
    | Verified | Shadowed | Failed | TaskCancelled
    | RollbackQueued | RollbackRunning | RollbackRetry | RolledBack | RollbackFailed

  datatype Mode = Shadow | Manual | Auto

  datatype Task = Task(
    approvalId: ApprovalId,
    caseId: CaseId,
    eventId: EventId,
    status: TaskStatus,
    attempts: nat,
    availableAt: int,
    createdAt: int,
    claimedAt: Option<int>,
    ruleId: string,
    expiresAt: Option<int>,
    duration: int,
    connector: Option<Mode>)

  datatype Tables = Tables(
    cases: map<CaseId, Case>,
    validations: map<ValidationId, Validation>,
    resolutions: map<ResolutionId, Resolution>,
    approvals: map<ApprovalId, Approval>,
    tasks: map<TaskId, Task>)

  predicate Terminal(s: CaseStatus) { s.Closed? || s.FalsePositive? }

  predicate Provisional(s: CaseStatus) { s.Analyzing? || s.AnalysisDeferred? || s.AnalysisFailed? }

  predicate CaseTerminal(cases: map<CaseId, Case>, c: CaseId) { c in cases && Terminal(cases[c].status) }

  // ---- the invariant -----------------------------------------------------

  /** Quorum: votes so far decide nothing while pending, approval takes exactly the
      required number of distinct approvers, and rejection a vote against it. */
  predicate QuorumOk(a: Approval) {
    && 1 <= a.required <= 5
    && (a.status.Pending? ==> (forall v :: v in a.votes ==> a.votes[v].Approve?) && |a.votes| < a.required)
    && (a.status.Approved? ==> (forall v :: v in a.votes ==> a.votes[v].Approve?) && |a.votes| == a.required)
    && (a.status.Approved? || a.status.Rejected? ==> a.decidedBy in a.votes)
    && (a.status.Rejected? ==> a.votes[a.decidedBy].Reject?)
  }

  /** Every approval rests on a validation of the same case and event that
      passed, or on an analyst's continuation of its review. */
  predicate Grounded(t: Tables, a: Approval) {
    && a.validationId in t.validations
    && var v := t.validations[a.validationId];
       && v.caseId == a.caseId && v.eventId == a.eventId
       && (|| (v.status.Passed? && a.resolutionId == "")
           || (v.status.Review? && a.resolutionId != "" && a.resolutionId in t.resolutions
               && t.resolutions[a.resolutionId] == Resolution(a.validationId, a.caseId, a.eventId)))
  }

  predicate ApprovalOk(t: Tables, a: Approval) {
    && QuorumOk(a) && Grounded(t, a) && a.caseId in t.cases
    && (a.status.Pending? ==> !CaseTerminal(t.cases, a.caseId))
  }

  /** A rule may be installed remotely for this task. */
  predicate Exposed(k: Task) { k.status.Verified? || k.ruleId != "" }

  /** The task only simulated, or is being or has been rolled back. */
  predicate Shielded(s: TaskStatus) {
    || s.Shadowed? || s.RollbackQueued? || s.RollbackRunning? || s.RollbackRetry? || s.RolledBack? || s.RollbackFailed?
  }

  /** Compensation safety of one task. */
  predicate SafeTask(cases: map<CaseId, Case>, k: Task) {
    CaseTerminal(cases, k.caseId) && Exposed(k) ==> Shielded(k.status)
  }

  predicate Compensated(t: Tables) {
    forall id :: id in t.tasks ==> SafeTask(t.cases, t.tasks[id])
  }

  /** The task executes an approved approval of its own case and event. */
  predicate Authorized(t: Tables, k: Task) {
    && k.caseId in t.cases
    && k.approvalId in t.approvals
    && t.approvals[k.approvalId].status.Approved?
    && t.approvals[k.approvalId].caseId == k.caseId && t.approvals[k.approvalId].eventId == k.eventId
  }

  predicate OneTaskPerApproval(tasks: map<TaskId, Task>) {
    forall i, j :: i in tasks && j in tasks && tasks[i].approvalId == tasks[j].approvalId ==> i == j
  }

  predicate ApprovalsOk(t: Tables) {
    forall id :: id in t.approvals ==> ApprovalOk(t, t.approvals[id])
  }

  predicate TasksOk(t: Tables) {
    && (forall id :: id in t.tasks ==> Authorized(t, t.tasks[id]))
    && OneTaskPerApproval(t.tasks)
  }

  predicate Governed(t: Tables) { ApprovalsOk(t) && TasksOk(t) && Compensated(t) }

  // ---- retention ---------------------------------------------------------

  predicate Settled(s: TaskStatus) { s.Shadowed? || s.Failed? || s.TaskCancelled? || s.RolledBack? }

  function ClosedSince(k: Case): int { if k.closedAt.Some? then k.closedAt.value else k.updatedAt }

  /** Terminal since before the cutoff, with every response task settled. */
  predicate Purgeable(t: Tables, c: CaseId, before: int) {
    && CaseTerminal(t.cases, c) && ClosedSince(t.cases[c]) < before
    && forall k :: k in t.tasks && t.tasks[k].caseId == c ==> Settled(t.tasks[k].status)
  }

  function KeptValidations(rows: map<ValidationId, Validation>, gone: set<CaseId>): map<ValidationId, Validation> {
    map v | v in rows && rows[v].caseId !in gone :: rows[v]
  }

  function KeptResolutions(rows: map<ResolutionId, Resolution>, gone: set<CaseId>): map<ResolutionId, Resolution> {
    map r | r in rows && rows[r].caseId !in gone :: rows[r]
  }

  function KeptApprovals(rows: map<ApprovalId, Approval>, gone: set<CaseId>): map<ApprovalId, Approval> {
    map a | a in rows && rows[a].caseId !in gone :: rows[a]
  }

  function KeptTasks(rows: map<TaskId, Task>, gone: set<CaseId>): map<TaskId, Task> {
    map k | k in rows && rows[k].caseId !in gone :: rows[k]
  }

  /** The tables without the cases in `gone` and everything recorded under them. */
  function Purged(t: Tables, gone: set<CaseId>): Tables {
    Tables(t.cases - gone, KeptValidations(t.validations, gone), KeptResolutions(t.resolutions, gone),
           KeptApprovals(t.approvals, gone), KeptTasks(t.tasks, gone))
  }

  // ---- cases -------------------------------------------------------------

  /** `upsert_case`: a new case is open; only a provisional status is replaced. */
  function UpsertedCases(cases: map<CaseId, Case>, c: CaseId, now: int): map<CaseId, Case> {
    if c !in cases then cases[c := Case(Open, now, None)]
    else if Provisional(cases[c].status) then cases[c := Case(Open, now, None)]
    else cases[c := cases[c].(updatedAt := now)]
  }

  /** `ensure_provisional_case` and `update_provisional_case_status`. */
  function ProvisionedCases(cases: map<CaseId, Case>, c: CaseId, s: CaseStatus, insert: bool, now: int): map<CaseId, Case> {
    if c !in cases then (if insert then cases[c := Case(Analyzing, now, None)] else cases)
    else if Provisional(cases[c].status) then cases[c := Case(s, now, None)]
    else cases
  }

  // ---- validations and their review --------------------------------------

  predicate IsFor(v: Validation, c: CaseId, e: EventId) { v.caseId == c && v.eventId == e }

  /** The validation an approval request names, or the latest of its case and event when
      it names none (`ORDER BY created_at_ms DESC LIMIT 1`, ties left open). */
  ghost predicate IsFound(validations: map<ValidationId, Validation>, c: CaseId, e: EventId, named: ValidationId,
                          found: Option<ValidationId>)
  {
    if named != "" then found == if named in validations then Some(named) else None
    else
      && (found.None? ==> forall v :: v in validations ==> !IsFor(validations[v], c, e))
      && (found.Some? ==> && found.value in validations && IsFor(validations[found.value], c, e)
                          && forall v :: v in validations && IsFor(validations[v], c, e) ==>
                               validations[v].createdAt <= validations[found.value].createdAt)
  }

  predicate Resolved(resolutions: map<ResolutionId, Resolution>, vid: ValidationId) {
    exists r :: r in resolutions && resolutions[r].validationId == vid
  }

  /** Only the review of this very case and event that is marked so can be continued. */
  predicate Continuable(t: Tables, vid: ValidationId, c: CaseId, e: EventId) {
    && vid in t.validations && IsFor(t.validations[vid], c, e)
    && t.validations[vid].status.Review? && t.validations[vid].continuable
  }

  /** `INSERT OR IGNORE` under the unique keys on resolution and validation. */
  function ContinuedResolutions(resolutions: map<ResolutionId, Resolution>, rid: ResolutionId, r: Resolution)
    : map<ResolutionId, Resolution>
  {
    if rid in resolutions || Resolved(resolutions, r.validationId) then resolutions else resolutions[rid := r]
  }

  // ---- approvals ---------------------------------------------------------

  /** Whether the validation gate lets an approval of this case and event in. */
  predicate Admissible(t: Tables, c: CaseId, e: EventId, found: Option<ValidationId>, r: ResolutionId) {
    && c in t.cases && !Terminal(t.cases[c].status)
    && found.Some? && found.value in t.validations && IsFor(t.validations[found.value], c, e)
    && (|| (t.validations[found.value].status.Passed? && r == "")
        || (t.validations[found.value].status.Review? && r != "" && r in t.resolutions
            && t.resolutions[r] == Resolution(found.value, c, e)))
  }

  function NewApproval(c: CaseId, e: EventId, v: ValidationId, r: ResolutionId, required: int): Approval {
    Approval(c, e, v, r, Pending, Max(1, Min(required, 5)), map[], "")
  }

  function InsertedApprovals(t: Tables, a: ApprovalId, c: CaseId, e: EventId, found: Option<ValidationId>,
                             r: ResolutionId, required: int): map<ApprovalId, Approval>
  {
    if Admissible(t, c, e, found, r) && a !in t.approvals
    then t.approvals[a := NewApproval(c, e, found.value, r, required)] else t.approvals
  }

  function Approvers(a: Approval): set<Actor> {
    set v | v in a.votes && a.votes[v].Approve?
  }

  /** One vote on a pending approval; a second vote by the same actor is ignored. */
  function Voted(a: Approval, actor: Actor, decision: Decision): Approval {
    if !a.status.Pending? || actor in a.votes then a
    else
      var b := a.(votes := a.votes[actor := decision]);
      match decision
      case Reject => b.(status := Rejected, decidedBy := actor)
      case Cancel => b.(status := Cancelled, decidedBy := actor)
      case Approve => if |Approvers(b)| >= b.required then b.(status := Approved, decidedBy := actor) else b
  }

  function PendingIds(approvals: map<ApprovalId, Approval>, c: CaseId, keep: Option<EventId>): set<ApprovalId> {
    set id | id in approvals && approvals[id].caseId == c && approvals[id].status.Pending?
             && keep != Some(approvals[id].eventId)
  }

  function WithdrawnAmong(approvals: map<ApprovalId, Approval>, ids: set<ApprovalId>, actor: Actor): map<ApprovalId, Approval> {
    map id | id in approvals ::
      if id in ids then approvals[id].(status := Cancelled, decidedBy := actor) else approvals[id]
  }

  function WithdrawnApprovals(approvals: map<ApprovalId, Approval>, c: CaseId, keep: Option<EventId>, actor: Actor)
    : map<ApprovalId, Approval>
  {
    WithdrawnAmong(approvals, PendingIds(approvals, c, keep), actor)
  }

  // ---- response tasks ----------------------------------------------------

  function NewTask(a: ApprovalId, approval: Approval, s: TaskStatus, duration: int, connector: Option<Mode>, now: int): Task {
    Task(a, approval.caseId, approval.eventId, s, 0, now, now, None, "", None, duration, connector)
  }

  /** The statuses a new task can start in. */
  predicate StartStatus(s: TaskStatus) {
    s.Failed? || s.WaitingConfiguration? || s.WaitingDispatch? || s.Paused? || s.Queued?
  }

  predicate HasTask(tasks: map<TaskId, Task>, a: ApprovalId) { exists id :: id in tasks && tasks[id].approvalId == a }

  /** `INSERT OR IGNORE` under the unique keys on task and approval. */
  ghost function CreatedTasks(tasks: map<TaskId, Task>, id: TaskId, k: Task): map<TaskId, Task> {
    if id in tasks || HasTask(tasks, k.approvalId) then tasks else tasks[id := k]
  }

  predicate Queueable(k: Task, rollback: bool) {
    if rollback then
      k.status.Verified? || k.status.Shadowed? || k.status.RollbackFailed? || (k.status.Failed? && k.ruleId != "")
    else k.status.WaitingDispatch? || k.status.Paused? || k.status.RetryWait?
  }

  function QueuedTask(k: Task, rollback: bool, now: int): Task {
    if Queueable(k, rollback)
    then k.(status := if rollback then RollbackQueued else Queued, availableAt := now, claimedAt := None)
    else k
  }

  function BoundTask(k: Task, mode: Mode): Task {
    if k.status.WaitingConfiguration? && k.connector.None?
    then k.(connector := Some(mode), status := WaitingDispatch) else k
  }

  function ResumedTask(k: Task, now: int): Task {
    if k.status.Paused? && k.connector.Some?
    then k.(status := if k.connector.value.Manual? then WaitingDispatch else Queued, availableAt := now)
    else k
  }

  function PausedTask(k: Task): Task {
    if k.status.Queued? || k.status.RetryWait? then k.(status := Paused, claimedAt := None) else k
  }

  predicate Claimable(k: Task, now: int) {
    (k.status.Queued? || k.status.RetryWait? || k.status.RollbackQueued? || k.status.RollbackRetry?) && k.availableAt <= now
  }

  function ClaimedTask(k: Task, now: int): Task {
    k.(status := if k.status.RollbackQueued? || k.status.RollbackRetry? then RollbackRunning else Running,
       attempts := k.attempts + 1, claimedAt := Some(now))
  }

  predicate TaskLeq(a: Task, b: Task) {
    a.availableAt < b.availableAt || (a.availableAt == b.availableAt && a.createdAt <= b.createdAt)
  }

  ghost predicate IsNextTask(tasks: map<TaskId, Task>, id: TaskId, now: int) {
    && id in tasks && Claimable(tasks[id], now)
    && forall other :: other in tasks && Claimable(tasks[other], now) ==> TaskLeq(tasks[id], tasks[other])
  }

  /** The arguments of `finish_response_task`. */
  datatype FinishCall = FinishCall(status: TaskStatus, expected: TaskStatus, ruleId: string, delay: int, requireActive: bool)

  predicate FinishApplies(cases: map<CaseId, Case>, k: Task, f: FinishCall) {
    k.status == f.expected && (f.requireActive ==> k.caseId in cases && !Terminal(cases[k.caseId].status))
  }

  function FinishedTask(cases: map<CaseId, Case>, k: Task, f: FinishCall, now: int): Task {
    if FinishApplies(cases, k, f) then
      k.(status := f.status,
         ruleId := if f.ruleId != "" then f.ruleId else k.ruleId,
         availableAt := now + Max(0, f.delay), claimedAt := None,
         expiresAt := if f.status.Verified? then Some(now + Max(60, k.duration) * 1000) else k.expiresAt)
    else k
  }

  function RuledTask(cases: map<CaseId, Case>, k: Task, rule: string, now: int): Task {
    if !k.status.Running? then k
    else if CaseTerminal(cases, k.caseId)
    then k.(ruleId := rule, status := RollbackQueued, availableAt := now, claimedAt := None)
    else k.(ruleId := rule)
  }

  predicate Expired(k: Task, now: int) { k.status.Verified? && k.expiresAt.Some? && k.expiresAt.value <= now }

  function ExpiredTask(k: Task, now: int): Task {
    if Expired(k, now) then k.(status := RollbackQueued, availableAt := now) else k
  }

  predicate Stale(k: Task, cutoff: int) {
    (k.status.Running? || k.status.RollbackRunning?) && k.claimedAt.Some? && k.claimedAt.value < cutoff
  }

  function StaleTask(k: Task, cutoff: int, now: int): Task {
    if Stale(k, cutoff)
    then k.(status := if k.status.RollbackRunning? then RollbackRetry else RetryWait, availableAt := now, claimedAt := None)
    else k
  }

  /** A task the terminal-case reconciliation must roll back. */
  predicate Owed(cases: map<CaseId, Case>, k: Task, only: Option<CaseId>) {
    && CaseTerminal(cases, k.caseId) && !Shielded(k.status) && Exposed(k)
    && (only.Some? ==> k.caseId == only.value)
  }

  function OwedIds(cases: map<CaseId, Case>, tasks: map<TaskId, Task>, only: Option<CaseId>): set<TaskId> {
    set id | id in tasks && Owed(cases, tasks[id], only)
  }

  function SweptTask(cases: map<CaseId, Case>, k: Task, only: Option<CaseId>, now: int): Task {
    if Owed(cases, k, only) then k.(status := RollbackQueued, availableAt := now, claimedAt := None) else k
  }

  function DroppedTask(k: Task, c: CaseId): Task {
    if k.caseId == c && k.ruleId == "" &&
       (k.status.WaitingConfiguration? || k.status.WaitingDispatch? || k.status.Paused? || k.status.Queued? || k.status.RetryWait?)
    then k.(status := TaskCancelled) else k
  }

  function SweptTasks(cases: map<CaseId, Case>, tasks: map<TaskId, Task>, only: Option<CaseId>, now: int): map<TaskId, Task> {
    map id | id in tasks :: SweptTask(cases, tasks[id], only, now)
  }

  /** `transition_case_response_tasks`: roll back what may be live, cancel what never ran. */
  function TransitionedTasks(cases: map<CaseId, Case>, tasks: map<TaskId, Task>, c: CaseId, now: int): map<TaskId, Task> {
    map id | id in tasks :: DroppedTask(SweptTask(cases, tasks[id], Some(c), now), c)
  }

  /** `update_case_status` with its cascades. */
  function StatusSet(t: Tables, c: CaseId, s: CaseStatus, now: int): Tables {
    if c !in t.cases then t
    else
      var cases := t.cases[c := Case(s, now, if Terminal(s) then Some(now) else None)];
      if Terminal(s) then
        t.(cases := cases,
           approvals := WithdrawnApprovals(t.approvals, c, None, "case-lifecycle"),
           tasks := TransitionedTasks(cases, t.tasks, c, now))
      else t.(cases := cases)
  }
}
