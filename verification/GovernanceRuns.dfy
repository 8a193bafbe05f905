/** Whole runs of the governance tables: any interleaving of intake, analyst
    decisions, case lifecycle, executor calls and maintenance. */
module GovernanceRuns {
  import opened Common
  import opened GovernanceModel

  /** What the response automation plans for an approved action: nothing, a task, or an
      error because no playbook matches. */
  datatype Plan =
    | NoTask
    | NewTaskPlan(id: TaskId, status: TaskStatus, duration: int, connector: Option<Mode>)
    | NoPlaybook

  datatype Event =
    | AddValidation(vid: ValidationId, v: Validation)
    | Continue(rid: ResolutionId, vid: ValidationId, c: CaseId, e: EventId)
    | UpsertCase(c: CaseId)
    | ProvisionCase(c: CaseId, s: CaseStatus, insert: bool)
    | SetCaseStatus(c: CaseId, s: CaseStatus)
    | InsertApproval(a: ApprovalId, c: CaseId, e: EventId, named: ValidationId, found: Option<ValidationId>,
                     rid: ResolutionId, required: int)
    | WithdrawPending(c: CaseId, keep: Option<EventId>, actor: Actor)
    | Decide(a: ApprovalId, actor: Actor, decision: Decision, plan: Plan)
    | QueueTask(id: TaskId, rollback: bool)
    | BindConnector(id: TaskId, mode: Mode)
    | ResumePaused
    | PauseQueued
    | ClaimTask(id: TaskId)
    | Finish(id: TaskId, call: FinishCall)
    | RecordRule(id: TaskId, rule: string)
    | QueueExpired
    | Sweep(only: Option<CaseId>)
    | RecoverStale(cutoff: int)
    | Purge(gone: set<CaseId>, before: int)

  const EMPTY := Tables(map[], map[], map[], map[], map[])

  predicate EditsTasks(ev: Event) {
    || ev.QueueTask? || ev.BindConnector? || ev.ResumePaused? || ev.PauseQueued? || ev.ClaimTask?
    || ev.Finish? || ev.RecordRule? || ev.QueueExpired? || ev.Sweep? || ev.RecoverStale?
  }

  /** One task row over one task statement. */
  function EditedTask(cases: map<CaseId, Case>, id: TaskId, k: Task, ev: Event, now: int): Task
    requires EditsTasks(ev)
  {
    match ev
    case QueueTask(i, rollback) => if i == id then QueuedTask(k, rollback, now) else k
    case BindConnector(i, mode) => if i == id then BoundTask(k, mode) else k
    case ResumePaused => ResumedTask(k, now)
    case PauseQueued => PausedTask(k)
    case ClaimTask(i) => if i == id then ClaimedTask(k, now) else k
    case Finish(i, call) => if i == id then FinishedTask(cases, k, call, now) else k
    case RecordRule(i, rule) => if i == id then RuledTask(cases, k, rule, now) else k
    case QueueExpired => ExpiredTask(k, now)
    case Sweep(only) => SweptTask(cases, k, only, now)
    case RecoverStale(cutoff) => StaleTask(k, cutoff, now)
  }

  function EditedTasks(t: Tables, ev: Event, now: int): map<TaskId, Task>
    requires EditsTasks(ev)
  {
    map id | id in t.tasks :: EditedTask(t.cases, id, t.tasks[id], ev, now)
  }

  /** A finish call that compensation safety survives, judged from its arguments. */
  predicate SafeCall(f: FinishCall) {
    || f.requireActive
    || Shielded(f.status)
    || (!Shielded(f.expected) && (f.expected.Verified? || (!f.status.Verified? && f.ruleId == "")))
  }

  ghost function PlannedTasks(tasks: map<TaskId, Task>, a: ApprovalId, approval: Approval, plan: Plan, now: int)
    : map<TaskId, Task>
  {
    if approval.status.Approved? && plan.NewTaskPlan?
    then CreatedTasks(tasks, plan.id, NewTask(a, approval, plan.status, plan.duration, plan.connector, now))
    else tasks
  }

  /** The automation raises: no playbook, or the task id belongs to another approval. */
  predicate PlanFails(tasks: map<TaskId, Task>, a: ApprovalId, approval: Approval, plan: Plan) {
    && approval.status.Approved?
    && (plan.NoPlaybook? || (plan.NewTaskPlan? && plan.id in tasks && !HasTask(tasks, a)))
  }

  predicate PlanStarts(plan: Plan) { plan.NewTaskPlan? ==> StartStatus(plan.status) }

  /** `GatewayState.decide_approval`: the vote and the task it authorises in one
      transaction, which an error in the automation takes back. */
  ghost predicate DecideStep(t: Tables, ev: Event, t': Tables, now: int)
    requires ev.Decide?
  {
    && ev.a in t.approvals && t.approvals[ev.a].status.Pending? && PlanStarts(ev.plan)
    && var b := Voted(t.approvals[ev.a], ev.actor, ev.decision);
       t' == if PlanFails(t.tasks, ev.a, b, ev.plan) then t
             else t.(approvals := t.approvals[ev.a := b], tasks := PlannedTasks(t.tasks, ev.a, b, ev.plan, now))
  }

  ghost predicate Step(t: Tables, ev: Event, t': Tables, now: int) {
    match ev
    case AddValidation(vid, v) =>
      vid !in t.validations && v.caseId in t.cases && t' == t.(validations := t.validations[vid := v])
    case Continue(rid, vid, c, e) =>
      && Continuable(t, vid, c, e)
      && t' == t.(resolutions := ContinuedResolutions(t.resolutions, rid, Resolution(vid, c, e)))
    case UpsertCase(c) => t' == t.(cases := UpsertedCases(t.cases, c, now))
    case ProvisionCase(c, s, insert) =>
      Provisional(s) && t' == t.(cases := ProvisionedCases(t.cases, c, s, insert, now))
    case SetCaseStatus(c, s) => t' == StatusSet(t, c, s, now)
    case InsertApproval(a, c, e, named, found, rid, required) =>
      && IsFound(t.validations, c, e, named, found)
      && t' == t.(approvals := InsertedApprovals(t, a, c, e, found, rid, required))
    case WithdrawPending(c, keep, actor) => t' == t.(approvals := WithdrawnApprovals(t.approvals, c, keep, actor))
    case Decide(_, _, _, _) => DecideStep(t, ev, t', now)
    case ClaimTask(id) => IsNextTask(t.tasks, id, now) && t' == t.(tasks := EditedTasks(t, ev, now))
    case Finish(_, call) => SafeCall(call) && t' == t.(tasks := EditedTasks(t, ev, now))
    case Purge(gone, before) => (forall c :: c in gone ==> Purgeable(t, c, before)) && t' == Purged(t, gone)
    case _ => t' == t.(tasks := EditedTasks(t, ev, now))
  }

  // ---- every step keeps the coupled invariant ----------------------------

  predicate SameDuty(k: Task, k': Task) {
    k'.approvalId == k.approvalId && k'.caseId == k.caseId && k'.eventId == k.eventId
  }

  lemma EditKeepsTask(cases: map<CaseId, Case>, id: TaskId, k: Task, ev: Event, now: int)
    requires EditsTasks(ev) && (ev.Finish? ==> SafeCall(ev.call)) && (ev.ClaimTask? && ev.id == id ==> Claimable(k, now))
    requires SafeTask(cases, k)
    ensures SafeTask(cases, EditedTask(cases, id, k, ev, now))
    ensures SameDuty(k, EditedTask(cases, id, k, ev, now))
  {
  }

  /** Validations and resolutions are only added, and no case disappears. */
  predicate Extends(t: Tables, t': Tables) {
    && t.cases.Keys <= t'.cases.Keys
    && (forall v :: v in t.validations ==> v in t'.validations && t'.validations[v] == t.validations[v])
    && (forall r :: r in t.resolutions ==> r in t'.resolutions && t'.resolutions[r] == t.resolutions[r])
  }

  lemma ApprovalStaysOk(t: Tables, t': Tables, a: Approval)
    requires ApprovalOk(t, a) && Extends(t, t')
    requires a.status.Pending? ==> !CaseTerminal(t'.cases, a.caseId)
    ensures ApprovalOk(t', a)
  {
  }

  lemma TaskStaysAuthorized(t: Tables, t': Tables, k: Task, k': Task)
    requires Authorized(t, k) && SameDuty(k, k') && Extends(t, t')
    requires k.approvalId in t'.approvals && t'.approvals[k.approvalId] == t.approvals[k.approvalId]
    ensures Authorized(t', k')
  {
  }

  /** Changing tasks alone keeps the invariant if each stays safe and on duty. */
  lemma RewrittenTasksGoverned(t: Tables, tasks: map<TaskId, Task>)
    requires Governed(t) && tasks.Keys == t.tasks.Keys
    requires forall id :: id in tasks ==> SameDuty(t.tasks[id], tasks[id]) && SafeTask(t.cases, tasks[id])
    ensures Governed(t.(tasks := tasks))
  {
    hide QuorumOk, Grounded, SafeTask;
    var t' := t.(tasks := tasks);
    forall id | id in t'.approvals ensures ApprovalOk(t', t'.approvals[id]) {
      ApprovalStaysOk(t, t', t.approvals[id]);
    }
    forall id | id in t'.tasks ensures Authorized(t', t'.tasks[id]) {
      TaskStaysAuthorized(t, t', t.tasks[id], tasks[id]);
    }
  }

  lemma EditIsRewrite(t: Tables, ev: Event, t': Tables, now: int)
    requires EditsTasks(ev) && Step(t, ev, t', now)
    ensures t' == t.(tasks := EditedTasks(t, ev, now))
    ensures ev.Finish? ==> SafeCall(ev.call)
    ensures ev.ClaimTask? ==> forall id :: id in t.tasks && id == ev.id ==> Claimable(t.tasks[id], now)
  {
  }

  /** A task statement is a step. */
  lemma EditIsStep(t: Tables, ev: Event, now: int)
    requires EditsTasks(ev) && !ev.ClaimTask? && (ev.Finish? ==> SafeCall(ev.call))
    ensures Step(t, ev, t.(tasks := EditedTasks(t, ev, now)), now)
  {
    hide EditedTasks, SafeCall;
  }

  lemma GovernedRows(t: Tables)
    requires Governed(t)
    ensures forall id :: id in t.tasks ==> SafeTask(t.cases, t.tasks[id]) && Authorized(t, t.tasks[id])
    ensures forall id :: id in t.approvals ==> ApprovalOk(t, t.approvals[id])
  {
  }

  lemma EditKeepsGoverned(t: Tables, ev: Event, t': Tables, now: int)
    requires Governed(t) && EditsTasks(ev) && Step(t, ev, t', now)
    ensures Governed(t')
  {
    hide Step, EditedTask, SafeTask, SafeCall, Claimable, Governed, Authorized, ApprovalOk, SameDuty;
    EditIsRewrite(t, ev, t', now);
    GovernedRows(t);
    forall id | id in t.tasks
      ensures SameDuty(t.tasks[id], EditedTask(t.cases, id, t.tasks[id], ev, now))
      ensures SafeTask(t.cases, EditedTask(t.cases, id, t.tasks[id], ev, now))
    {
      EditKeepsTask(t.cases, id, t.tasks[id], ev, now);
    }
    RewrittenTasksGoverned(t, EditedTasks(t, ev, now));
  }

  lemma VoteKeepsQuorum(a: Approval, actor: Actor, decision: Decision)
    requires QuorumOk(a)
    ensures QuorumOk(Voted(a, actor, decision))
  {
    var b := a.(votes := a.votes[actor := decision]);
    if a.status.Pending? && actor !in a.votes {
      assert b.votes.Keys == a.votes.Keys + {actor};
      if decision.Approve? { assert Approvers(b) == b.votes.Keys; }
    }
  }

  lemma ApproversGrow(a: Approval, actor: Actor, decision: Decision)
    requires actor !in a.votes
    ensures |Approvers(a.(votes := a.votes[actor := decision]))| == |Approvers(a)| + if decision.Approve? then 1 else 0
  {
    var b := a.(votes := a.votes[actor := decision]);
    assert Approvers(b) == if decision.Approve? then Approvers(a) + {actor} else Approvers(a);
  }

  /** What the vote of a new actor decides on a pending approval: a rejection rejects, a
      cancellation cancels, and an approval approves exactly when it completes the quorum. */
  lemma VoteDecides(a: Approval, actor: Actor, decision: Decision)
    requires a.status.Pending? && actor !in a.votes
    ensures var b := Voted(a, actor, decision);
      && b == a.(status := b.status, votes := a.votes[actor := decision], decidedBy := b.decidedBy)
      && (b.status.Rejected? <==> decision.Reject?)
      && (b.status.Cancelled? <==> decision.Cancel?)
      && (b.status.Approved? <==> decision.Approve? && |Approvers(a)| + 1 >= a.required)
      && (QuorumOk(a) ==> (b.status.Approved? <==> decision.Approve? && |a.votes| + 1 == a.required))
      && b.decidedBy == if b.status.Pending? then a.decidedBy else actor
  {
    ApproversGrow(a, actor, decision);
    if QuorumOk(a) { assert Approvers(a) == a.votes.Keys; }
  }

  lemma VoteKeepsFoundation(t: Tables, a: Approval, actor: Actor, decision: Decision)
    requires ApprovalOk(t, a)
    ensures ApprovalOk(t, Voted(a, actor, decision))
  {
    VoteKeepsQuorum(a, actor, decision);
    hide QuorumOk;
  }

  /** Approvals may change while pending, tasks on decided approvals stay authorised. */
  lemma ApprovalsUpdated(t: Tables, t': Tables)
    requires Governed(t) && Extends(t, t') && t'.cases == t.cases && t'.tasks == t.tasks
    requires forall id :: id in t.approvals && !t.approvals[id].status.Pending? ==>
               id in t'.approvals && t'.approvals[id] == t.approvals[id]
    requires forall id :: id in t'.approvals ==> ApprovalOk(t', t'.approvals[id])
    ensures Governed(t')
  {
    hide ApprovalOk, SafeTask;
    forall id | id in t'.tasks ensures Authorized(t', t'.tasks[id]) {
      TaskStaysAuthorized(t, t', t.tasks[id], t.tasks[id]);
    }
  }

  lemma DecideIsStep(t: Tables, ev: Event, t': Tables, now: int)
    requires ev.Decide? && DecideStep(t, ev, t', now)
    ensures Step(t, ev, t', now)
  {
    hide DecideStep;
  }

  lemma VoteKeepsDuty(a: Approval, actor: Actor, decision: Decision)
    ensures var b := Voted(a, actor, decision); b.caseId == a.caseId && b.eventId == a.eventId
  {
  }

  lemma VoteKeepsGoverned(t: Tables, id: ApprovalId, actor: Actor, decision: Decision)
    requires Governed(t) && id in t.approvals && t.approvals[id].status.Pending?
    ensures Governed(t.(approvals := t.approvals[id := Voted(t.approvals[id], actor, decision)]))
  {
    var b := Voted(t.approvals[id], actor, decision);
    var t' := t.(approvals := t.approvals[id := b]);
    VoteKeepsFoundation(t, t.approvals[id], actor, decision);
    VoteKeepsDuty(t.approvals[id], actor, decision);
    hide Voted, QuorumOk, Grounded, SafeTask;
    forall i | i in t'.approvals ensures ApprovalOk(t', t'.approvals[i]) {
      ApprovalStaysOk(t, t', t'.approvals[i]);
    }
    ApprovalsUpdated(t, t');
  }

  lemma TaskPlanned(t: Tables, a: ApprovalId, plan: Plan, now: int)
    requires Governed(t) && a in t.approvals && PlanStarts(plan)
    ensures Governed(t.(tasks := PlannedTasks(t.tasks, a, t.approvals[a], plan, now)))
  {
    hide QuorumOk, Grounded;
    var t' := t.(tasks := PlannedTasks(t.tasks, a, t.approvals[a], plan, now));
    forall id | id in t'.approvals ensures ApprovalOk(t', t'.approvals[id]) {
      ApprovalStaysOk(t, t', t.approvals[id]);
    }
    forall id | id in t'.tasks ensures Authorized(t', t'.tasks[id]) && SafeTask(t'.cases, t'.tasks[id]) {
      if id in t.tasks { assert Authorized(t, t.tasks[id]); }
    }
  }

  lemma DecideKeepsGoverned(t: Tables, ev: Event, t': Tables, now: int)
    requires Governed(t) && ev.Decide? && DecideStep(t, ev, t', now)
    ensures Governed(t')
  {
    hide Governed, Voted, PlannedTasks, PlanFails;
    if t' != t {
      VoteKeepsGoverned(t, ev.a, ev.actor, ev.decision);
      TaskPlanned(t.(approvals := t.approvals[ev.a := Voted(t.approvals[ev.a], ev.actor, ev.decision)]), ev.a, ev.plan, now);
    }
  }

  /** A pending approval has no task yet. */
  lemma PendingHasNoTask(t: Tables, a: ApprovalId)
    requires TasksOk(t) && a in t.approvals && t.approvals[a].status.Pending?
    ensures !HasTask(t.tasks, a)
  {
    forall id | id in t.tasks ensures t.tasks[id].approvalId != a {
      assert Authorized(t, t.tasks[id]);
    }
  }

  lemma QuorumVote(a: Approval, actor: Actor, decision: Decision)
    requires a.status.Pending?
    ensures QuorumOk(a) && actor !in a.votes ==>
      (Voted(a, actor, decision).status.Approved? <==> decision.Approve? && |a.votes| + 1 == a.required)
  {
    if actor !in a.votes { VoteDecides(a, actor, decision); }
  }

  /** Vote and task happen together or not at all: nothing changes when the automation
      fails, and otherwise the approval has a task exactly when it is now approved. */
  lemma TogetherOrNotAtAll(t: Tables, ev: Event, t': Tables, now: int)
    requires Governed(t) && ev.Decide? && DecideStep(t, ev, t', now)
    ensures var b := Voted(t.approvals[ev.a], ev.actor, ev.decision);
      if b.status.Approved? && (ev.plan.NoPlaybook? || (ev.plan.NewTaskPlan? && ev.plan.id in t.tasks)) then t' == t
      else t'.approvals == t.approvals[ev.a := b]
           && (HasTask(t'.tasks, ev.a) <==> b.status.Approved? && ev.plan.NewTaskPlan?)
    ensures ev.actor !in t.approvals[ev.a].votes && ev.decision.Approve?
            && |t.approvals[ev.a].votes| + 1 == t.approvals[ev.a].required
            && ev.plan.NewTaskPlan? && ev.plan.id !in t.tasks ==>
      && t'.approvals[ev.a].status.Approved? && ev.plan.id in t'.tasks
      && t'.tasks[ev.plan.id].approvalId == ev.a && t'.tasks[ev.plan.id].status == ev.plan.status
  {
    QuorumVote(t.approvals[ev.a], ev.actor, ev.decision);
    assert ApprovalOk(t, t.approvals[ev.a]);
    hide Voted, ApprovalsOk, Compensated, TasksOk;
    var b := Voted(t.approvals[ev.a], ev.actor, ev.decision);
    PendingHasNoTask(t, ev.a);
    if t' != t && b.status.Approved? && ev.plan.NewTaskPlan? {
      assert t'.tasks[ev.plan.id].approvalId == ev.a;
    }
  }

  lemma InsertsExtend(t: Tables, ev: Event, t': Tables, now: int)
    requires Step(t, ev, t', now)
    requires ev.AddValidation? || ev.Continue? || ev.InsertApproval?
    ensures Extends(t, t') && t'.cases == t.cases && t'.tasks == t.tasks
    ensures forall id :: id in t.approvals ==> id in t'.approvals && t'.approvals[id] == t.approvals[id]
    ensures forall id :: id in t'.approvals && id !in t.approvals ==> ApprovalOk(t', t'.approvals[id])
  {
  }

  lemma InsertKeepsGoverned(t: Tables, ev: Event, t': Tables, now: int)
    requires Governed(t) && Step(t, ev, t', now)
    requires ev.AddValidation? || ev.Continue? || ev.InsertApproval?
    ensures Governed(t')
  {
    hide Step, QuorumOk, Grounded;
    InsertsExtend(t, ev, t', now);
    forall id | id in t'.approvals ensures ApprovalOk(t', t'.approvals[id]) {
      if id in t.approvals && t'.approvals[id] == t.approvals[id] { ApprovalStaysOk(t, t', t.approvals[id]); }
    }
    ApprovalsUpdated(t, t');
  }

  lemma WithdrawnStaysOk(t: Tables, a: Approval, actor: Actor)
    requires ApprovalOk(t, a)
    ensures ApprovalOk(t, a.(status := Cancelled, decidedBy := actor))
  {
  }

  lemma WithdrawKeepsGoverned(t: Tables, c: CaseId, keep: Option<EventId>, actor: Actor)
    requires Governed(t)
    ensures Governed(t.(approvals := WithdrawnApprovals(t.approvals, c, keep, actor)))
  {
    var t' := t.(approvals := WithdrawnApprovals(t.approvals, c, keep, actor));
    hide Grounded, QuorumOk;
    forall id | id in t'.approvals ensures ApprovalOk(t', t'.approvals[id]) {
      ApprovalStaysOk(t, t', t.approvals[id]);
      WithdrawnStaysOk(t', t.approvals[id], actor);
    }
    ApprovalsUpdated(t, t');
  }

  lemma IntakeKeepsGoverned(t: Tables, ev: Event, t': Tables, now: int)
    requires Governed(t) && Step(t, ev, t', now) && (ev.UpsertCase? || ev.ProvisionCase?)
    ensures Governed(t')
  {
    assert forall c :: c in t.cases ==> c in t'.cases && (CaseTerminal(t'.cases, c) <==> CaseTerminal(t.cases, c));
    assert t'.cases.Keys >= t.cases.Keys;
    forall id | id in t'.approvals ensures ApprovalOk(t', t'.approvals[id]) {
      ApprovalStaysOk(t, t', t.approvals[id]);
    }
    forall id | id in t'.tasks ensures Authorized(t', t'.tasks[id]) && SafeTask(t'.cases, t'.tasks[id]) {
      assert Authorized(t, t.tasks[id]);
    }
  }

  /** Both halves of the terminal cascade: what may be live is shielded, the
      rest never ran; other cases' tasks are untouched. */
  lemma CascadeKeepsTask(cases: map<CaseId, Case>, cases': map<CaseId, Case>, k: Task, c: CaseId, now: int)
    requires SafeTask(cases, k)
    requires forall d :: d != c ==> (CaseTerminal(cases', d) <==> CaseTerminal(cases, d))
    ensures SafeTask(cases', DroppedTask(SweptTask(cases', k, Some(c), now), c))
    ensures SameDuty(k, DroppedTask(SweptTask(cases', k, Some(c), now), c))
    ensures !CaseTerminal(cases', c) ==> SafeTask(cases', k)
  {
  }

  /** What `update_case_status` does to one task. */
  function LifecycleTask(cases: map<CaseId, Case>, k: Task, c: CaseId, s: CaseStatus, now: int): Task {
    if Terminal(s) then DroppedTask(SweptTask(cases, k, Some(c), now), c) else k
  }

  lemma LifecycleTasks(t: Tables, c: CaseId, s: CaseStatus, now: int)
    requires c in t.cases
    ensures var t' := StatusSet(t, c, s, now);
      && t'.cases == t.cases[c := t'.cases[c]] && t'.cases[c].status == s
      && t'.tasks == map id | id in t.tasks :: LifecycleTask(t'.cases, t.tasks[id], c, s, now)
  {
    hide SweptTask, DroppedTask, WithdrawnApprovals;
  }

  lemma LifecycleKeepsTask(cases: map<CaseId, Case>, k: Task, c: CaseId, s: CaseStatus, x: Case, now: int)
    requires SafeTask(cases, k) && x.status == s
    ensures var k' := LifecycleTask(cases[c := x], k, c, s, now); SameDuty(k, k') && SafeTask(cases[c := x], k')
  {
    CascadeKeepsTask(cases, cases[c := x], k, c, now);
    hide SweptTask, DroppedTask;
  }

  lemma LifecycleKeepsApproved(t: Tables, c: CaseId, s: CaseStatus, now: int)
    ensures var t' := StatusSet(t, c, s, now);
      && t'.tasks.Keys == t.tasks.Keys
      && forall a :: a in t.approvals && t.approvals[a].status.Approved? ==>
           a in t'.approvals && t'.approvals[a] == t.approvals[a]
  {
    hide SweptTask, DroppedTask;
  }

  lemma DutiesKept(t: Tables, t': Tables)
    requires TasksOk(t) && Extends(t, t') && t'.tasks.Keys == t.tasks.Keys
    requires forall id :: id in t.tasks ==> SameDuty(t.tasks[id], t'.tasks[id])
    requires forall a :: a in t.approvals && t.approvals[a].status.Approved? ==>
               a in t'.approvals && t'.approvals[a] == t.approvals[a]
    ensures TasksOk(t')
  {
    forall id | id in t'.tasks ensures Authorized(t', t'.tasks[id]) {
      TaskStaysAuthorized(t, t', t.tasks[id], t'.tasks[id]);
    }
  }

  lemma LifecycleApprovals(t: Tables, c: CaseId, s: CaseStatus, now: int)
    requires Governed(t) && c in t.cases
    ensures ApprovalsOk(StatusSet(t, c, s, now)) && Extends(t, StatusSet(t, c, s, now))
  {
    hide Governed, TransitionedTasks, QuorumOk, Grounded, SafeTask, Authorized;
    GovernedRows(t);
    var t' := StatusSet(t, c, s, now);
    forall id | id in t'.approvals ensures ApprovalOk(t', t'.approvals[id]) {
      var a := t.approvals[id];
      if t'.approvals[id] == a {
        ApprovalStaysOk(t, t', a);
      } else {
        WithdrawnStaysOk(t, a, "case-lifecycle");
        ApprovalStaysOk(t, t', t'.approvals[id]);
      }
    }
  }

  lemma LifecycleKeepsGoverned(t: Tables, c: CaseId, s: CaseStatus, now: int)
    requires Governed(t)
    ensures Governed(StatusSet(t, c, s, now))
  {
    if c in t.cases {
      var t' := StatusSet(t, c, s, now);
      LifecycleApprovals(t, c, s, now);
      LifecycleKeepsApproved(t, c, s, now);
      LifecycleTasks(t, c, s, now);
      GovernedRows(t);
      hide StatusSet, ApprovalOk, SafeTask, Extends, SameDuty, LifecycleTask;
      forall id | id in t'.tasks
        ensures SafeTask(t'.cases, t'.tasks[id]) && SameDuty(t.tasks[id], t'.tasks[id])
      {
        LifecycleKeepsTask(t.cases, t.tasks[id], c, s, t'.cases[c], now);
      }
      DutiesKept(t, t');
    }
  }

  lemma PurgedTasks(t: Tables, gone: set<CaseId>)
    ensures forall id :: id in Purged(t, gone).tasks ==> id in t.tasks && Purged(t, gone).tasks[id] == t.tasks[id]
  {
  }

  lemma PurgeKeepsTask(t: Tables, gone: set<CaseId>, id: TaskId)
    requires id in Purged(t, gone).tasks && Authorized(t, t.tasks[id]) && SafeTask(t.cases, t.tasks[id])
    ensures Authorized(Purged(t, gone), t.tasks[id]) && SafeTask(Purged(t, gone).cases, t.tasks[id])
  {
  }

  lemma PurgeKeepsApprovals(t: Tables, gone: set<CaseId>)
    requires ApprovalsOk(t)
    ensures ApprovalsOk(Purged(t, gone))
  {
    hide QuorumOk;
    var t' := Purged(t, gone);
    forall id | id in t'.approvals ensures ApprovalOk(t', t'.approvals[id]) {
      assert ApprovalOk(t, t.approvals[id]);
    }
  }

  /** Everything recorded under one case goes with it, so nothing is left without its ground. */
  lemma PurgeKeepsGoverned(t: Tables, gone: set<CaseId>)
    requires Governed(t)
    ensures Governed(Purged(t, gone))
  {
    hide Purged, ApprovalsOk;
    var t' := Purged(t, gone);
    PurgeKeepsApprovals(t, gone);
    PurgedTasks(t, gone);
    hide Authorized, SafeTask;
    forall id | id in t'.tasks ensures Authorized(t', t'.tasks[id]) && SafeTask(t'.cases, t'.tasks[id]) {
      PurgeKeepsTask(t, gone, id);
    }
  }

  lemma PurgeIsStep(t: Tables, gone: set<CaseId>, before: int, now: int)
    requires forall c :: c in gone ==> Purgeable(t, c, before)
    ensures Step(t, Purge(gone, before), Purged(t, gone), now)
  {
    hide Purged, Purgeable;
  }

  lemma StepKeepsGoverned(t: Tables, ev: Event, t': Tables, now: int)
    requires Governed(t) && Step(t, ev, t', now)
    ensures Governed(t')
  {
    if EditsTasks(ev) { EditKeepsGoverned(t, ev, t', now); }
    else if ev.Decide? { DecideKeepsGoverned(t, ev, t', now); }
    else if ev.SetCaseStatus? { LifecycleKeepsGoverned(t, ev.c, ev.s, now); }
    else if ev.UpsertCase? || ev.ProvisionCase? { IntakeKeepsGoverned(t, ev, t', now); }
    else if ev.Purge? { PurgeKeepsGoverned(t, ev.gone); }
    else if ev.WithdrawPending? { WithdrawKeepsGoverned(t, ev.c, ev.keep, ev.actor); }
    else { InsertKeepsGoverned(t, ev, t', now); }
  }

  // ---- runs --------------------------------------------------------------

  datatype Stamp = Stamp(ev: Event, now: int, after: Tables)

  ghost predicate Run(t: Tables, run: seq<Stamp>)
    decreases |run|
  {
    run == [] || (Step(t, run[0].ev, run[0].after, run[0].now) && Run(run[0].after, run[1..]))
  }

  function Final(t: Tables, run: seq<Stamp>): Tables {
    if run == [] then t else run[|run| - 1].after
  }

  /** Quorum, validation gate, authorisation and compensation safety hold in
      every state of every run. */
  lemma {:induction false} RunKeepsGoverned(t: Tables, run: seq<Stamp>)
    requires Run(t, run) && Governed(t)
    ensures Governed(Final(t, run))
    decreases |run|
  {
    hide Step, Governed;
    if run != [] {
      StepKeepsGoverned(t, run[0].ev, run[0].after, run[0].now);
      RunKeepsGoverned(run[0].after, run[1..]);
    }
  }

  lemma NothingUngoverned()
    ensures Governed(EMPTY)
  {
  }

  /** Quorum over whole runs: while an approval is pending nobody has voted against it
      and fewer approved it than required; an approved one has exactly the required
      number of distinct approvers; a rejected one was rejected by its decider; a closed
      case, false positive or not, has no pending approval. */
  lemma QuorumInEveryRun(run: seq<Stamp>, id: ApprovalId)
    requires Run(EMPTY, run) && id in Final(EMPTY, run).approvals
    ensures var t := Final(EMPTY, run);
      var a := t.approvals[id];
      && (a.status.Pending? ==> (forall v :: v in a.votes ==> a.votes[v].Approve?) && |Approvers(a)| < a.required)
      && 1 <= a.required <= 5
      && (a.status.Approved? ==> |Approvers(a)| == a.required && a.decidedBy in Approvers(a))
      && (a.status.Rejected? ==> a.decidedBy in a.votes && a.votes[a.decidedBy].Reject?)
      && a.caseId in t.cases
      && (t.cases[a.caseId].status in {Closed, FalsePositive} ==> !a.status.Pending?)
  {
    NothingUngoverned();
    RunKeepsGoverned(EMPTY, run);
    var a := Final(EMPTY, run).approvals[id];
    assert ApprovalOk(Final(EMPTY, run), a);
    hide Run, Final, Governed, Grounded;
    if a.status.Pending? || a.status.Approved? { assert Approvers(a) == a.votes.Keys; }
  }

  /** Every task of every run executes an approved approval of its own case and event,
      which no other task does, and on a terminal case what may be live is shielded. */
  lemma TasksInEveryRun(run: seq<Stamp>, id: TaskId, other: TaskId)
    requires Run(EMPTY, run) && id in Final(EMPTY, run).tasks && other in Final(EMPTY, run).tasks && other != id
    ensures var t := Final(EMPTY, run);
      var k := t.tasks[id];
      && k.approvalId in t.approvals && t.approvals[k.approvalId].status.Approved?
      && t.approvals[k.approvalId].caseId == k.caseId && t.approvals[k.approvalId].eventId == k.eventId
      && t.tasks[other].approvalId != k.approvalId
      && k.caseId in t.cases
      && (t.cases[k.caseId].status in {Closed, FalsePositive} && (k.status.Verified? || k.ruleId != "") ==>
            k.status in {Shadowed, RollbackQueued, RollbackRunning, RollbackRetry, RolledBack, RollbackFailed})
  {
    NothingUngoverned();
    RunKeepsGoverned(EMPTY, run);
    hide Run, Final, ApprovalsOk;
  }

  /** A decision that the automation does not undo, vote and task spelled out. */
  lemma DecisionOutcome(t: Tables, ev: Event, t': Tables, now: int)
    requires Governed(t) && ev.Decide? && DecideStep(t, ev, t', now)
    requires !PlanFails(t.tasks, ev.a, Voted(t.approvals[ev.a], ev.actor, ev.decision), ev.plan)
    ensures ev.a in t'.approvals && t' == t.(approvals := t.approvals[ev.a := t'.approvals[ev.a]], tasks := t'.tasks)
    ensures ev.actor in t.approvals[ev.a].votes ==> t' == t
    ensures ev.actor !in t.approvals[ev.a].votes ==>
      var was, row := t.approvals[ev.a], t'.approvals[ev.a];
      && row.votes == was.votes[ev.actor := ev.decision]
      && (row.status.Rejected? <==> ev.decision.Reject?)
      && (row.status.Cancelled? <==> ev.decision.Cancel?)
      && (row.status.Approved? <==> ev.decision.Approve? && |was.votes| + 1 == was.required)
      && t'.tasks == if row.status.Approved? && ev.plan.NewTaskPlan?
                     then t.tasks[ev.plan.id := Task(ev.a, was.caseId, was.eventId, ev.plan.status, 0, now, now, None, "", None,
                                                     ev.plan.duration, ev.plan.connector)]
                     else t.tasks
  {
    var was := t.approvals[ev.a];
    assert ApprovalOk(t, was);
    PendingHasNoTask(t, ev.a);
    if ev.actor !in was.votes {
      VoteDecides(was, ev.actor, ev.decision);
      VoteKeepsDuty(was, ev.actor, ev.decision);
      hide Voted;
    } else {
      assert t.approvals[ev.a := was] == t.approvals;
    }
    hide Governed, ApprovalOk;
  }

  predicate PurgesCase(ev: Event, c: CaseId) { ev.Purge? && c in ev.gone }

  predicate IsDecided(approvals: map<ApprovalId, Approval>, a: ApprovalId) {
    a in approvals && !approvals[a].status.Pending?
  }

  /** Withdrawing pending approvals leaves the decided ones alone. */
  lemma WithdrawKeepsDecided(t: Tables, ev: Event, t': Tables, now: int, a: ApprovalId)
    requires Step(t, ev, t', now) && (ev.SetCaseStatus? || ev.WithdrawPending?) && IsDecided(t.approvals, a)
    ensures a in t'.approvals && t'.approvals[a] == t.approvals[a]
  {
    hide TransitionedTasks;
  }

  lemma OthersKeepDecided(t: Tables, ev: Event, t': Tables, now: int, a: ApprovalId)
    requires Step(t, ev, t', now) && IsDecided(t.approvals, a)
    requires !ev.SetCaseStatus? && !ev.WithdrawPending? && !ev.Purge?
    ensures a in t'.approvals && t'.approvals[a] == t.approvals[a]
  {
    hide EditedTasks, PlannedTasks, Voted, Admissible, IsFound, NewApproval, PlanFails;
  }

  lemma PurgeTakesDecided(t: Tables, ev: Event, t': Tables, now: int, a: ApprovalId)
    requires Step(t, ev, t', now) && ev.Purge? && IsDecided(t.approvals, a)
    ensures a in t'.approvals <==> !PurgesCase(ev, t.approvals[a].caseId)
    ensures a in t'.approvals ==> t'.approvals[a] == t.approvals[a]
  {
    hide Purgeable;
  }

  /** A decided approval changes in exactly one way: it goes with its purged case. */
  lemma StepKeepsDecisions(t: Tables, ev: Event, t': Tables, now: int, a: ApprovalId)
    requires Step(t, ev, t', now) && IsDecided(t.approvals, a)
    ensures a in t'.approvals <==> !PurgesCase(ev, t.approvals[a].caseId)
    ensures a in t'.approvals ==> t'.approvals[a] == t.approvals[a]
  {
    hide Step;
    if ev.Purge? { PurgeTakesDecided(t, ev, t', now, a); }
    else if ev.SetCaseStatus? || ev.WithdrawPending? { WithdrawKeepsDecided(t, ev, t', now, a); }
    else { OthersKeepDecided(t, ev, t', now, a); }
  }

  /** Until its case is purged, a decided approval never changes: not its status, not its votes. */
  lemma {:induction false} DecisionsAreFinal(t: Tables, run: seq<Stamp>, a: ApprovalId)
    requires Run(t, run) && IsDecided(t.approvals, a)
    requires forall i :: 0 <= i < |run| ==> !PurgesCase(run[i].ev, t.approvals[a].caseId)
    ensures a in Final(t, run).approvals && Final(t, run).approvals[a] == t.approvals[a]
    decreases |run|
  {
    hide Step, PurgesCase;
    if run != [] {
      StepKeepsDecisions(t, run[0].ev, run[0].after, run[0].now, a);
      assert forall i :: 0 <= i < |run[1..]| ==> run[1..][i] == run[i + 1];
      DecisionsAreFinal(run[0].after, run[1..], a);
    }
  }

  /** A purge erases finished tasks only, and one with a remote rule only if it was rolled
      back or never left simulation. */
  predicate OnlySettledErased(t: Tables, t': Tables) {
    forall k :: k in t.tasks && k !in t'.tasks ==>
      && t.tasks[k].status in {Shadowed, Failed, TaskCancelled, RolledBack}
      && (t.tasks[k].ruleId != "" ==> t.tasks[k].status in {RolledBack, Shadowed})
  }

  lemma PurgeErasesNoRule(t: Tables, gone: set<CaseId>, before: int)
    requires Governed(t) && forall c :: c in gone ==> Purgeable(t, c, before)
    ensures OnlySettledErased(t, Purged(t, gone))
  {
    hide ApprovalsOk, TasksOk;
    forall k | k in t.tasks && k !in Purged(t, gone).tasks
      ensures t.tasks[k].status in {Shadowed, Failed, TaskCancelled, RolledBack}
      ensures t.tasks[k].ruleId != "" ==> t.tasks[k].status in {RolledBack, Shadowed}
    {
      assert Purgeable(t, t.tasks[k].caseId, before) && SafeTask(t.cases, t.tasks[k]);
    }
  }

  lemma StepKeepsTasks(t: Tables, ev: Event, t': Tables, now: int)
    requires Step(t, ev, t', now) && !ev.Purge?
    ensures t.tasks.Keys <= t'.tasks.Keys
  {
    hide EditedTask, SweptTask, DroppedTask, Voted, WithdrawnApprovals, NewTask;
  }

  lemma StepErasesNoRule(t: Tables, ev: Event, t': Tables, now: int)
    requires Governed(t) && Step(t, ev, t', now)
    ensures OnlySettledErased(t, t')
  {
    if ev.Purge? {
      PurgeErasesNoRule(t, ev.gone, ev.before);
    } else {
      StepKeepsTasks(t, ev, t', now);
    }
  }

  lemma {:induction false} RunPrefix(t: Tables, run: seq<Stamp>, n: nat)
    requires Run(t, run) && n < |run|
    ensures Run(t, run[..n]) && Step(Final(t, run[..n]), run[n].ev, run[n].after, run[n].now)
    decreases n
  {
    hide Step;
    if n > 0 {
      RunPrefix(run[0].after, run[1..], n - 1);
      assert run[..n][1..] == run[1..][..n - 1];
      assert n > 1 ==> run[1..][..n - 1][n - 2] == run[n - 1];
    }
  }

  /** No step of any run, purges included, loses a task that may still stand for a live rule. */
  lemma NoLiveRuleIsForgotten(run: seq<Stamp>, n: nat)
    requires Run(EMPTY, run) && n < |run|
    ensures OnlySettledErased(Final(EMPTY, run[..n]), run[n].after)
  {
    hide *;
    RunPrefix(EMPTY, run, n);
    NothingUngoverned();
    RunKeepsGoverned(EMPTY, run[..n]);
    StepErasesNoRule(Final(EMPTY, run[..n]), run[n].ev, run[n].after, run[n].now);
  }

  lemma {:induction false} RunAppend(t: Tables, run: seq<Stamp>, ev: Event, now: int, after: Tables)
    requires Run(t, run) && Step(Final(t, run), ev, after, now)
    ensures Run(t, run + [Stamp(ev, now, after)]) && Final(t, run + [Stamp(ev, now, after)]) == after
    decreases |run|
  {
    hide Step;
    var longer := run + [Stamp(ev, now, after)];
    if run == [] {
      assert longer[1..] == [];
    } else {
      assert longer[1..] == run[1..] + [Stamp(ev, now, after)];
      assert |run| > 1 ==> run[1..][|run[1..]| - 1] == run[|run| - 1];
      RunAppend(run[0].after, run[1..], ev, now, after);
    }
  }

  // ---- the exact side condition on finish calls --------------------------

  /** The calls that the response automation makes, with the statuses it expects. */
  predicate ExecutorCall(f: FinishCall) {
    || (f.expected.Failed? && f.status.Failed? && f.ruleId == "")
    || (f.expected.Running? && f.status.RollbackQueued?)
    || (f.expected.Running? && f.status.Paused? && f.ruleId == "" && f.requireActive)
    || (f.expected.Running? && f.status.TaskCancelled? && f.ruleId == "")
    || (f.expected.Running? && f.status.Shadowed? && f.ruleId == "" && f.requireActive)
    || (f.expected.Running? && f.status.Verified? && f.requireActive)
    || (f.expected.Running? && (f.status.RetryWait? || f.status.Failed?) && f.ruleId == "")
    || (f.expected.RollbackRunning? && (f.status.RolledBack? || f.status.RollbackRetry? || f.status.RollbackFailed?))
  }

  lemma ExecutorCallsAreSafe(f: FinishCall)
    requires ExecutorCall(f)
    ensures SafeCall(f)
  {
  }

  ghost predicate FinishKeepsSafe(f: FinishCall) {
    forall cases: map<CaseId, Case>, k: Task, now: int ::
      SafeTask(cases, k) ==> SafeTask(cases, FinishedTask(cases, k, f, now))
  }

  /** A finish call keeps compensation safety in every state exactly when its
      arguments pass `SafeCall`. */
  lemma SafeCallIsExact(f: FinishCall)
    ensures SafeCall(f) <==> FinishKeepsSafe(f)
  {
    if !SafeCall(f) {
      var cases := map["c" := Case(Closed, 0, Some(0))];
      var k := Task("a", "c", "e", f.expected, 1, 0, 0, Some(0), if Shielded(f.expected) then "r" else "", None, 60, None);
      assert SafeTask(cases, k) && !SafeTask(cases, FinishedTask(cases, k, f, 0));
    }
  }

  // ---- the reconciliation sweep ------------------------------------------

  /** From any tables whatever, one full sweep establishes compensation safety,
      and a second one finds nothing and changes nothing. */
  lemma SweepReconciles(t: Tables, now: int, later: int)
    ensures var swept := t.(tasks := SweptTasks(t.cases, t.tasks, None, now));
      && Compensated(swept)
      && OwedIds(swept.cases, swept.tasks, None) == {}
      && SweptTasks(swept.cases, swept.tasks, None, later) == swept.tasks
  {
  }

  /** The sweep owes exactly the tasks that break compensation safety. */
  lemma OwedIffUnsafe(t: Tables)
    ensures OwedIds(t.cases, t.tasks, None) == {} <==> Compensated(t)
  {
    if OwedIds(t.cases, t.tasks, None) == {} {
      forall id | id in t.tasks ensures SafeTask(t.cases, t.tasks[id]) {
        assert id !in OwedIds(t.cases, t.tasks, None);
      }
    }
  }
}
