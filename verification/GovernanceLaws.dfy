/** Why a row of the governance tables changes: for every status the exact statements and
    states that lead into it, over any step, in the words of the schema. */
module GovernanceLaws {
  import opened Common
  import opened GovernanceModel
  import opened GovernanceRuns

  predicate ClosedStatus(cases: map<CaseId, Case>, c: CaseId) { c in cases && cases[c].status in {Closed, FalsePositive} }

  // ---- tasks -------------------------------------------------------------

  lemma ClosingIsStatusSet(t: Tables, ev: Event, t': Tables, now: int)
    requires ev.SetCaseStatus? && Step(t, ev, t', now)
    ensures t' == StatusSet(t, ev.c, ev.s, now)
    ensures ev.c !in t.cases ==> t' == t
    ensures ev.c in t.cases ==> t'.cases[ev.c] == Case(ev.s, now, if Terminal(ev.s) then Some(now) else None)
  {
    hide WithdrawnApprovals, TransitionedTasks;
  }

  lemma OthersKeepTask(t: Tables, ev: Event, t': Tables, now: int, id: TaskId)
    requires Step(t, ev, t', now) && !EditsTasks(ev) && !ev.SetCaseStatus? && !ev.Purge? && id in t.tasks
    ensures id in t'.tasks && t'.tasks[id] == t.tasks[id]
  {
    hide Voted, WithdrawnApprovals, NewTask, UpsertedCases, ProvisionedCases, Admissible, IsFound, ContinuedResolutions;
  }

  /** What any step but a purge makes of a task. */
  lemma TaskAfter(t: Tables, ev: Event, t': Tables, now: int, id: TaskId)
    requires Step(t, ev, t', now) && !ev.Purge? && id in t.tasks
    ensures id in t'.tasks
    ensures EditsTasks(ev) ==> t'.tasks[id] == EditedTask(t.cases, id, t.tasks[id], ev, now)
    ensures ev.SetCaseStatus? && ev.c in t.cases ==>
      t'.tasks[id] == LifecycleTask(t.cases[ev.c := Case(ev.s, now, if Terminal(ev.s) then Some(now) else None)],
                                    t.tasks[id], ev.c, ev.s, now)
    ensures !EditsTasks(ev) && !(ev.SetCaseStatus? && ev.c in t.cases) ==> t'.tasks[id] == t.tasks[id]
  {
    hide Step, EditedTask, LifecycleTask, StatusSet;
    if EditsTasks(ev) {
      EditIsRewrite(t, ev, t', now);
    } else if ev.SetCaseStatus? {
      ClosingIsStatusSet(t, ev, t', now);
      if ev.c in t.cases { LifecycleTasks(t, ev.c, ev.s, now); }
    } else {
      OthersKeepTask(t, ev, t', now, id);
    }
  }

  /** The executor's finish call moves the task to status `s`. */
  predicate Finishes(t: Tables, ev: Event, id: TaskId, s: TaskStatus)
    requires id in t.tasks
  {
    && ev.Finish? && ev.id == id && ev.call.status == s && ev.call.expected == t.tasks[id].status
    && (ev.call.requireActive ==> t.tasks[id].caseId in t.cases && !ClosedStatus(t.cases, t.tasks[id].caseId))
  }

  /** A rule of the task may be live: it is verified, or has a rule and is not shadowed,
      being rolled back or rolled back. */
  predicate MayBeLive(k: Task) {
    || k.status.Verified?
    || (k.ruleId != "" && k.status !in {Shadowed, RollbackQueued, RollbackRunning, RollbackRetry, RolledBack, RollbackFailed})
  }

  /** The step closes the case of `k`. */
  predicate Closes(t: Tables, ev: Event, k: Task) {
    ev.SetCaseStatus? && ev.c in t.cases && ev.c == k.caseId && ev.s in {Closed, FalsePositive}
  }

  /** What closing its case makes of a task. */
  function OnClosing(k: Task, now: int): Task {
    if MayBeLive(k) then k.(status := RollbackQueued, availableAt := now, claimedAt := None)
    else if k.ruleId == "" && k.status in {WaitingConfiguration, WaitingDispatch, Paused, Queued, RetryWait}
    then k.(status := TaskCancelled)
    else k
  }

  lemma ClosingTask(cases: map<CaseId, Case>, k: Task, c: CaseId, s: CaseStatus, now: int)
    ensures LifecycleTask(cases[c := Case(s, now, if Terminal(s) then Some(now) else None)], k, c, s, now)
         == if c == k.caseId && s in {Closed, FalsePositive} then OnClosing(k, now) else k
  {
  }

  /** A purge keeps a task as it is; a claim is of a claimable task. */
  lemma StayingTask(t: Tables, ev: Event, t': Tables, now: int, id: TaskId)
    requires Step(t, ev, t', now) && id in t.tasks && id in t'.tasks
    ensures ev.Purge? ==> t'.tasks[id] == t.tasks[id]
    ensures ev == ClaimTask(id) ==> Claimable(t.tasks[id], now)
    ensures !ev.Purge? && EditsTasks(ev) ==> t'.tasks[id] == EditedTask(t.cases, id, t.tasks[id], ev, now)
    ensures !EditsTasks(ev) ==> t'.tasks[id] == if Closes(t, ev, t.tasks[id]) then OnClosing(t.tasks[id], now) else t.tasks[id]
  {
    hide EditedTask, LifecycleTask, OnClosing;
    if !ev.Purge? { TaskAfter(t, ev, t', now, id); }
    if ev.SetCaseStatus? && ev.c in t.cases {
      ClosingTask(t.cases, t.tasks[id], ev.c, ev.s, now);
    }
  }

  /** Work starts by a claim, from the queue or for another try. */
  lemma WhyTaskRuns(t: Tables, ev: Event, t': Tables, now: int, id: TaskId)
    requires Step(t, ev, t', now) && id in t.tasks && id in t'.tasks && !t.tasks[id].status.Running?
    ensures t'.tasks[id].status.Running? <==>
      (ev == ClaimTask(id) && t.tasks[id].status in {Queued, RetryWait}) || Finishes(t, ev, id, Running)
  {
    hide Step;
    StayingTask(t, ev, t', now, id);
  }

  lemma WhyRollbackRuns(t: Tables, ev: Event, t': Tables, now: int, id: TaskId)
    requires Step(t, ev, t', now) && id in t.tasks && id in t'.tasks && !t.tasks[id].status.RollbackRunning?
    ensures t'.tasks[id].status.RollbackRunning? <==>
      (ev == ClaimTask(id) && t.tasks[id].status in {RollbackQueued, RollbackRetry}) || Finishes(t, ev, id, RollbackRunning)
  {
    hide Step;
    StayingTask(t, ev, t', now, id);
  }

  /** A rollback is queued exactly by an analyst, by expiry, by closing the case, by the
      sweep of closed cases, by a rule that arrives on a closed case, or by the executor. */
  lemma WhyRollbackIsQueued(t: Tables, ev: Event, t': Tables, now: int, id: TaskId)
    requires Step(t, ev, t', now) && id in t.tasks && id in t'.tasks && !t.tasks[id].status.RollbackQueued?
    ensures var k := t.tasks[id];
      t'.tasks[id].status.RollbackQueued? <==>
        || (ev == QueueTask(id, true)
            && (k.status in {Verified, Shadowed, RollbackFailed} || (k.status.Failed? && k.ruleId != "")))
        || (ev.QueueExpired? && k.status.Verified? && k.expiresAt.Some? && k.expiresAt.value <= now)
        || (Closes(t, ev, k) && MayBeLive(k))
        || (ev.Sweep? && (ev.only.Some? ==> ev.only.value == k.caseId) && ClosedStatus(t.cases, k.caseId) && MayBeLive(k))
        || (ev.RecordRule? && ev.id == id && k.status.Running? && ClosedStatus(t.cases, k.caseId))
        || Finishes(t, ev, id, RollbackQueued)
  {
    hide Step;
    StayingTask(t, ev, t', now, id);
  }

  /** Closing a case cancels exactly its tasks that never ran. */
  lemma WhyTaskIsCancelled(t: Tables, ev: Event, t': Tables, now: int, id: TaskId)
    requires Step(t, ev, t', now) && id in t.tasks && id in t'.tasks && !t.tasks[id].status.TaskCancelled?
    ensures var k := t.tasks[id];
      t'.tasks[id].status.TaskCancelled? <==>
        || (Closes(t, ev, k) && k.ruleId == ""
            && k.status in {WaitingConfiguration, WaitingDispatch, Paused, Queued, RetryWait})
        || Finishes(t, ev, id, TaskCancelled)
  {
    hide Step;
    StayingTask(t, ev, t', now, id);
  }

  /** Waiting tasks: paused with the policy, queued by hand or by resumption, put off by
      recovery of a stale claim, dispatched by hand after a connector is bound. */
  lemma WhyTaskWaits(t: Tables, ev: Event, t': Tables, now: int, id: TaskId)
    requires Step(t, ev, t', now) && id in t.tasks && id in t'.tasks
    ensures var k, k' := t.tasks[id], t'.tasks[id];
      && (!k.status.Paused? ==> (k'.status.Paused? <==>
            (ev.PauseQueued? && k.status in {Queued, RetryWait}) || Finishes(t, ev, id, Paused)))
      && (!k.status.Queued? ==> (k'.status.Queued? <==>
            || (ev == QueueTask(id, false) && k.status in {WaitingDispatch, Paused, RetryWait})
            || (ev.ResumePaused? && k.status.Paused? && k.connector in {Some(Shadow), Some(Auto)})
            || Finishes(t, ev, id, Queued)))
      && (!k.status.WaitingDispatch? ==> (k'.status.WaitingDispatch? <==>
            || (ev.BindConnector? && ev.id == id && k.status.WaitingConfiguration? && k.connector.None?)
            || (ev.ResumePaused? && k.status.Paused? && k.connector == Some(Manual))
            || Finishes(t, ev, id, WaitingDispatch)))
  {
    hide Step;
    StayingTask(t, ev, t', now, id);
  }

  lemma WhyTaskRetries(t: Tables, ev: Event, t': Tables, now: int, id: TaskId)
    requires Step(t, ev, t', now) && id in t.tasks && id in t'.tasks
    ensures var k, k' := t.tasks[id], t'.tasks[id];
      var late := ev.RecoverStale? && k.claimedAt.Some? && k.claimedAt.value < ev.cutoff;
      && (!k.status.RetryWait? ==>
            (k'.status.RetryWait? <==> (late && k.status.Running?) || Finishes(t, ev, id, RetryWait)))
      && (!k.status.RollbackRetry? ==>
            (k'.status.RollbackRetry? <==> (late && k.status.RollbackRunning?) || Finishes(t, ev, id, RollbackRetry)))
  {
    hide Step;
    StayingTask(t, ev, t', now, id);
  }

  /** The outcomes are the executor's alone. */
  lemma OutcomesAreFinished(t: Tables, ev: Event, t': Tables, now: int, id: TaskId)
    requires Step(t, ev, t', now) && id in t.tasks && id in t'.tasks
    ensures var s' := t'.tasks[id].status;
      s' in {WaitingConfiguration, Verified, Shadowed, Failed, RolledBack, RollbackFailed} && t.tasks[id].status != s' ==>
        Finishes(t, ev, id, s')
    ensures forall s :: Finishes(t, ev, id, s) ==> t'.tasks[id].status == s
  {
    hide Step;
    StayingTask(t, ev, t', now, id);
  }

  /** The columns beside the status. */
  lemma WhyTaskColumnsChange(t: Tables, ev: Event, t': Tables, now: int, id: TaskId)
    requires Step(t, ev, t', now) && id in t.tasks && id in t'.tasks
    ensures var k, k' := t.tasks[id], t'.tasks[id];
      var done := ev.Finish? && Finishes(t, ev, id, ev.call.status);
      && k'.attempts == k.attempts + (if ev == ClaimTask(id) then 1 else 0)
      && k'.approvalId == k.approvalId && k'.caseId == k.caseId && k'.eventId == k.eventId
      && k'.createdAt == k.createdAt && k'.duration == k.duration
      && k'.ruleId == (if ev.RecordRule? && ev.id == id && k.status.Running? then ev.rule
                       else if done && ev.call.ruleId != "" then ev.call.ruleId else k.ruleId)
      && k'.expiresAt == (if done && ev.call.status.Verified? then
                            Some(now + 1000 * (if k.duration < 60 then 60 else k.duration)) else k.expiresAt)
      && k'.connector == (if ev.BindConnector? && ev.id == id && k.status.WaitingConfiguration? && k.connector.None?
                          then Some(ev.mode) else k.connector)
  {
    hide Step;
    StayingTask(t, ev, t', now, id);
  }

  /** When a task is due again and whether it is claimed. */
  lemma WhyTaskTimesChange(t: Tables, ev: Event, t': Tables, now: int, id: TaskId)
    requires Step(t, ev, t', now) && id in t.tasks && id in t'.tasks
    ensures var k, k' := t.tasks[id], t'.tasks[id];
      var moved := k'.status != k.status;
      && (Finishes(t, ev, id, k'.status) ==>
            k'.availableAt == now + (if ev.call.delay < 0 then 0 else ev.call.delay) && k'.claimedAt.None?)
      && (!ev.Finish? && moved && k'.status in {Queued, RollbackQueued, RetryWait, RollbackRetry} ==> k'.availableAt == now)
      && (ev.ResumePaused? && moved ==> k'.availableAt == now)
      && (moved && k'.status in {Running, RollbackRunning} && !ev.Finish? ==>
            k'.claimedAt == Some(now) && k'.availableAt == k.availableAt)
      && (!ev.Finish? && moved && k'.status in {RetryWait, RollbackRetry} ==> k'.claimedAt.None?)
      && (moved && (ev.QueueTask? || ev.PauseQueued? || ev.Sweep? || ev.RecordRule?) ==> k'.claimedAt.None?)
      && (moved && ev.SetCaseStatus? && k'.status.RollbackQueued? ==> k'.claimedAt.None?)
      && (!moved && !ev.Finish? && !ev.QueueTask? && !ev.RecordRule? ==> k'.availableAt == k.availableAt && k'.claimedAt == k.claimedAt)
  {
    hide Step;
    StayingTask(t, ev, t', now, id);
  }

  /** The claim takes a due task, none due before it, first come first served among those. */
  lemma ClaimsAreFair(t: Tables, ev: Event, t': Tables, now: int)
    requires Step(t, ev, t', now) && ev.ClaimTask?
    ensures ev.id in t.tasks && t.tasks[ev.id].availableAt <= now
    ensures t.tasks[ev.id].status in {Queued, RetryWait, RollbackQueued, RollbackRetry}
    ensures forall y :: y in t.tasks && t.tasks[y].availableAt <= now
                        && t.tasks[y].status in {Queued, RetryWait, RollbackQueued, RollbackRetry} ==>
      && t.tasks[ev.id].availableAt <= t.tasks[y].availableAt
      && (t.tasks[ev.id].availableAt == t.tasks[y].availableAt ==> t.tasks[ev.id].createdAt <= t.tasks[y].createdAt)
  {
    hide EditedTasks;
    forall y | y in t.tasks && t.tasks[y].availableAt <= now
               && t.tasks[y].status in {Queued, RetryWait, RollbackQueued, RollbackRetry}
      ensures TaskLeq(t.tasks[ev.id], t.tasks[y])
    {
      assert Claimable(t.tasks[y], now);
    }
  }

  // ---- approvals ---------------------------------------------------------

  /** The automation has nothing to object: there is a playbook, and the task id is free or
      the approval already has its task. */
  predicate Automated(t: Tables, ev: Event)
    requires ev.Decide?
  {
    match ev.plan
    case NoPlaybook => false
    case NoTask => true
    case NewTaskPlan(id, _, _, _) => id !in t.tasks || exists k :: k in t.tasks && t.tasks[k].approvalId == ev.a
  }

  /** The first vote of an actor on this approval. */
  predicate VotesFirst(t: Tables, ev: Event, id: ApprovalId, d: Decision)
    requires id in t.approvals
  {
    ev.Decide? && ev.a == id && ev.decision == d && ev.actor !in t.approvals[id].votes
  }

  lemma HasTaskMeans(tasks: map<TaskId, Task>, a: ApprovalId)
    ensures HasTask(tasks, a) <==> exists k :: k in tasks && tasks[k].approvalId == a
  {
  }

  lemma DecideAfter(t: Tables, ev: Event, t': Tables, now: int)
    requires ev.Decide? && Step(t, ev, t', now)
    ensures ev.a in t.approvals && t.approvals[ev.a].status.Pending? && ev.a in t'.approvals
    ensures t'.approvals == t.approvals || t'.approvals == t.approvals[ev.a := t'.approvals[ev.a]]
    ensures ev.actor in t.approvals[ev.a].votes ==> t'.approvals == t.approvals
    ensures ev.actor !in t.approvals[ev.a].votes ==>
      var was, row := t.approvals[ev.a], t'.approvals[ev.a];
      && (row.status.Approved? <==> ev.decision.Approve? && |Approvers(was)| + 1 >= was.required && Automated(t, ev))
      && (row.status.Rejected? <==> ev.decision.Reject?)
      && (row.status.Cancelled? <==> ev.decision.Cancel?)
      && row == was.(status := row.status, votes := row.votes, decidedBy := row.decidedBy)
      && (row.votes == was.votes[ev.actor := ev.decision] || t' == t)
      && (row.decidedBy == if row.status.Pending? then was.decidedBy else ev.actor)
  {
    var was := t.approvals[ev.a];
    if ev.actor !in was.votes {
      VoteDecides(was, ev.actor, ev.decision);
    } else {
      assert t.approvals[ev.a := was] == t.approvals;
    }
    hide Voted, CreatedTasks, NewTask, HasTask;
    assert ev.plan.NewTaskPlan? ==> (HasTask(t.tasks, ev.a) <==> exists k :: k in t.tasks && t.tasks[k].approvalId == ev.a) by {
      HasTaskMeans(t.tasks, ev.a);
    }
  }

  /** The step withdraws the pending approval: another event of its case superseded it, or
      its case was closed. */
  predicate Withdraws(t: Tables, ev: Event, a: Approval) {
    || (ev.WithdrawPending? && ev.c == a.caseId && (ev.keep.Some? ==> ev.keep.value != a.eventId))
    || (ev.SetCaseStatus? && ev.c in t.cases && ev.c == a.caseId && ev.s in {Closed, FalsePositive})
  }

  lemma WithdrawAfter(t: Tables, ev: Event, t': Tables, now: int, id: ApprovalId)
    requires (ev.WithdrawPending? || ev.SetCaseStatus?) && Step(t, ev, t', now) && id in t.approvals && t.approvals[id].status.Pending?
    ensures id in t'.approvals
    ensures t'.approvals[id] ==
      if Withdraws(t, ev, t.approvals[id])
      then t.approvals[id].(status := Cancelled, decidedBy := if ev.SetCaseStatus? then "case-lifecycle" else ev.actor)
      else t.approvals[id]
  {
    hide TransitionedTasks;
  }

  lemma OthersKeepApproval(t: Tables, ev: Event, t': Tables, now: int, id: ApprovalId)
    requires !ev.Decide? && !ev.WithdrawPending? && !ev.SetCaseStatus? && Step(t, ev, t', now)
    requires id in t.approvals && id in t'.approvals
    ensures t'.approvals[id] == t.approvals[id]
  {
    hide EditedTasks, Admissible, IsFound, NewApproval, Purgeable;
  }

  /** Why a pending approval is decided, by whom, and that nothing else of it changes. */
  lemma WhyApprovalIsDecided(t: Tables, ev: Event, t': Tables, now: int, id: ApprovalId)
    requires Step(t, ev, t', now) && id in t.approvals && t.approvals[id].status.Pending? && id in t'.approvals
    ensures var was, row := t.approvals[id], t'.approvals[id];
      && (row.status.Approved? <==>
            VotesFirst(t, ev, id, Approve) && |Approvers(was)| + 1 >= was.required && Automated(t, ev))
      && (row.status.Rejected? <==> VotesFirst(t, ev, id, Reject))
      && (row.status.Cancelled? <==> VotesFirst(t, ev, id, Cancel) || Withdraws(t, ev, was))
      && row == was.(status := row.status, votes := row.votes, decidedBy := row.decidedBy)
      && (row.votes != was.votes ==> ev.Decide? && ev.a == id && row.votes == was.votes[ev.actor := ev.decision])
      && (row.status.Approved? || row.status.Rejected? ==> row.decidedBy == ev.actor)
  {
    hide Step, Approvers, Automated;
    if ev.Decide? { DecideAfter(t, ev, t', now); }
    else if ev.WithdrawPending? || ev.SetCaseStatus? { WithdrawAfter(t, ev, t', now, id); }
    else { OthersKeepApproval(t, ev, t', now, id); }
  }

  /** What the gate asks of the validation an approval rests on. */
  predicate Cleared(t: Tables, c: CaseId, e: EventId, v: ValidationId, r: ResolutionId) {
    && v in t.validations && t.validations[v].caseId == c && t.validations[v].eventId == e
    && match t.validations[v].status
       case Passed => r == ""
       case Review => r != "" && r in t.resolutions && t.resolutions[r] == Resolution(v, c, e)
       case Blocked => false
  }

  lemma InsertAfter(t: Tables, ev: Event, t': Tables, now: int)
    requires ev.InsertApproval? && Step(t, ev, t', now)
    ensures IsFound(t.validations, ev.c, ev.e, ev.named, ev.found)
    ensures t'.approvals == InsertedApprovals(t, ev.a, ev.c, ev.e, ev.found, ev.rid, ev.required)
  {
    hide IsFound, InsertedApprovals;
  }

  lemma NothingInserted(t: Tables, ev: Event, t': Tables, now: int, id: ApprovalId)
    requires !ev.InsertApproval? && Step(t, ev, t', now)
    ensures id in t'.approvals ==> id in t.approvals
  {
    hide EditedTasks, TransitionedTasks, Voted, PlannedTasks, Purgeable;
  }

  /** Whatever happened since, every approval still rests on a validation that cleared it. */
  lemma GateInEveryRun(run: seq<Stamp>, id: ApprovalId)
    requires Run(EMPTY, run) && id in Final(EMPTY, run).approvals
    ensures var t := Final(EMPTY, run);
      var a := t.approvals[id];
      Cleared(t, a.caseId, a.eventId, a.validationId, a.resolutionId)
  {
    NothingUngoverned();
    RunKeepsGoverned(EMPTY, run);
    assert ApprovalOk(Final(EMPTY, run), Final(EMPTY, run).approvals[id]);
    hide Run, Final, Governed, QuorumOk;
  }

  /** A new approval is inserted exactly for a case that exists and is not closed, on the
      named or else the latest validation of its case and event, cleared by the gate. */
  lemma WhyApprovalIsNew(t: Tables, ev: Event, t': Tables, now: int, id: ApprovalId)
    requires Step(t, ev, t', now) && id !in t.approvals
    ensures id in t'.approvals <==>
      && ev.InsertApproval? && ev.a == id && ev.c in t.cases && t.cases[ev.c].status !in {Closed, FalsePositive}
      && ev.found.Some? && Cleared(t, ev.c, ev.e, ev.found.value, ev.rid)
    ensures id in t'.approvals ==>
      var required := if ev.required < 1 then 1 else if ev.required > 5 then 5 else ev.required;
      t'.approvals[id] == Approval(ev.c, ev.e, ev.found.value, ev.rid, Pending, required, map[], "")
    ensures ev.InsertApproval? && ev.found.Some? ==>
      && (ev.named != "" ==> ev.found == Some(ev.named))
      && (ev.named == "" ==> forall v :: v in t.validations && t.validations[v].caseId == ev.c && t.validations[v].eventId == ev.e
                               ==> ev.found.value in t.validations
                                   && t.validations[v].createdAt <= t.validations[ev.found.value].createdAt)
    ensures ev.InsertApproval? && ev.found.None? ==>
      && (ev.named != "" ==> ev.named !in t.validations)
      && (ev.named == "" ==> forall v :: v in t.validations ==> t.validations[v].caseId != ev.c || t.validations[v].eventId != ev.e)
  {
    if ev.InsertApproval? { InsertAfter(t, ev, t', now); } else { NothingInserted(t, ev, t', now, id); }
    hide Step;
  }

  // ---- cases -------------------------------------------------------------

  predicate Provisionary(s: CaseStatus) { s in {Analyzing, AnalysisDeferred, AnalysisFailed} }

  /** A case follows the analyst's decisions; what the machine reports moves it only while
      it is provisional; and it has a closing time exactly from when it is closed. */
  lemma WhyCaseChanges(t: Tables, ev: Event, t': Tables, now: int, c: CaseId)
    requires Step(t, ev, t', now) && c in t.cases && c in t'.cases
    ensures var was, row := t.cases[c], t'.cases[c];
      && (ev == UpsertCase(c) ==>
            row == if Provisionary(was.status) then Case(Open, now, None) else Case(was.status, now, was.closedAt))
      && (ev.ProvisionCase? && ev.c == c ==> row == if Provisionary(was.status) then Case(ev.s, now, None) else was)
      && (ev.SetCaseStatus? && ev.c == c ==>
            row == Case(ev.s, now, if ev.s in {Closed, FalsePositive} then Some(now) else None))
      && (ev != UpsertCase(c) && !(ev.ProvisionCase? && ev.c == c) && !(ev.SetCaseStatus? && ev.c == c) ==> row == was)
  {
    hide EditedTasks, TransitionedTasks, WithdrawnApprovals, Voted, PlannedTasks, Purgeable, Admissible, IsFound;
  }

  lemma WhyCaseIsNew(t: Tables, ev: Event, t': Tables, now: int, c: CaseId)
    requires Step(t, ev, t', now) && c !in t.cases
    ensures c in t'.cases <==> ev == UpsertCase(c) || (ev.ProvisionCase? && ev.c == c && ev.insert)
    ensures c in t'.cases ==> t'.cases[c] == Case(if ev.UpsertCase? then Open else Analyzing, now, None)
  {
    hide EditedTasks, TransitionedTasks, WithdrawnApprovals, Voted, PlannedTasks, Purgeable, Admissible, IsFound;
  }

  // ---- validations, their review, and new tasks --------------------------

  /** A review is continued at most once, only if it is marked so, and only by a resolution of
      its own case and event. */
  lemma WhyReviewIsContinued(t: Tables, ev: Event, t': Tables, now: int, r: ResolutionId)
    requires Step(t, ev, t', now) && r !in t.resolutions
    ensures r in t'.resolutions <==>
      && ev.Continue? && ev.rid == r
      && forall other :: other in t.resolutions ==> t.resolutions[other].validationId != ev.vid
    ensures r in t'.resolutions ==>
      && t'.resolutions[r] == Resolution(ev.vid, ev.c, ev.e)
      && ev.vid in t.validations && t.validations[ev.vid].status.Review? && t.validations[ev.vid].continuable
      && t.validations[ev.vid].caseId == ev.c && t.validations[ev.vid].eventId == ev.e
  {
    hide EditedTasks, TransitionedTasks, WithdrawnApprovals, Voted, PlannedTasks, Purgeable, Admissible, IsFound;
    hide UpsertedCases, ProvisionedCases, NewApproval;
  }

  lemma DecideIs(t: Tables, ev: Event, t': Tables, now: int)
    requires ev.Decide? && Step(t, ev, t', now)
    ensures DecideStep(t, ev, t', now) && ev.a in t.approvals
  {
    hide DecideStep;
    DecideAfter(t, ev, t', now);
  }

  lemma TaskOfDecision(t: Tables, ev: Event, t': Tables, now: int, id: TaskId)
    requires Governed(t) && ev.Decide? && DecideStep(t, ev, t', now) && id !in t.tasks
    ensures id in t'.tasks <==>
      && VotesFirst(t, ev, ev.a, Approve)
      && |t.approvals[ev.a].votes| + 1 == t.approvals[ev.a].required
      && ev.plan.NewTaskPlan? && ev.plan.id == id
    ensures id in t'.tasks ==>
      var a := t.approvals[ev.a];
      t'.tasks[id] == Task(ev.a, a.caseId, a.eventId, ev.plan.status, 0, now, now, None, "", None, ev.plan.duration, ev.plan.connector)
  {
    if PlanFails(t.tasks, ev.a, Voted(t.approvals[ev.a], ev.actor, ev.decision), ev.plan) {
      assert t' == t;
      assert ev.plan.NewTaskPlan? ==> ev.plan.id in t.tasks;
    } else {
      DecisionOutcome(t, ev, t', now);
    }
    hide Governed, DecideStep, PlannedTasks, Voted;
  }

  lemma NoTaskInserted(t: Tables, ev: Event, t': Tables, now: int, id: TaskId)
    requires !ev.Decide? && Step(t, ev, t', now)
    ensures id in t'.tasks ==> id in t.tasks
  {
    hide EditedTask, SweptTask, DroppedTask, WithdrawnApprovals, Purgeable, Admissible, IsFound;
  }

  /** The only way to a task is an approval. */
  lemma WhyTaskIsNew(t: Tables, ev: Event, t': Tables, now: int, id: TaskId)
    requires Governed(t) && Step(t, ev, t', now) && id !in t.tasks
    ensures id in t'.tasks <==>
      && ev.Decide? && VotesFirst(t, ev, ev.a, Approve)
      && |t.approvals[ev.a].votes| + 1 == t.approvals[ev.a].required
      && ev.plan.NewTaskPlan? && ev.plan.id == id
    ensures id in t'.tasks ==>
      var a := t.approvals[ev.a];
      t'.tasks[id] == Task(ev.a, a.caseId, a.eventId, ev.plan.status, 0, now, now, None, "", None, ev.plan.duration, ev.plan.connector)
  {
    if ev.Decide? {
      DecideIs(t, ev, t', now);
      TaskOfDecision(t, ev, t', now, id);
    } else {
      NoTaskInserted(t, ev, t', now, id);
    }
    hide Step;
  }
}
