/** The governance tables and the repository methods that change them.  Each call is
    logged as the step of `GovernanceRuns` that it is, so what holds of runs holds here. */
module CaseGovernance {
  import opened Common
  import opened GovernanceModel
  import opened GovernanceRuns

  /** Not eligible is the ValueError; not persisted the RuntimeError when another validation holds the id. */
  datatype Resolving = NotEligible | NotPersisted | Found(id: ResolutionId, created: bool)

  datatype Deciding = NotPending | Undone | Decided

  function ExpiredIds(tasks: map<TaskId, Task>, now: int): set<TaskId> {
    set id | id in tasks && Expired(tasks[id], now)
  }

  function StaleTaskIds(tasks: map<TaskId, Task>, cutoff: int): set<TaskId> {
    set id | id in tasks && Stale(tasks[id], cutoff)
  }

  function RolledBackRows(tasks: map<TaskId, Task>, rows: set<TaskId>, now: int): map<TaskId, Task> {
    map id | id in tasks ::
      if id in rows then tasks[id].(status := RollbackQueued, availableAt := now) else tasks[id]
  }

  function RetriedRows(tasks: map<TaskId, Task>, rows: set<TaskId>, now: int): map<TaskId, Task> {
    map id | id in tasks ::
      if id in rows
      then tasks[id].(status := if tasks[id].status.RollbackRunning? then RollbackRetry else RetryWait,
                      availableAt := now, claimedAt := None)
      else tasks[id]
  }

  /** Updating the rows a WHERE clause selects is the step of the run model. */
  lemma ExpiredIsEdit(t: Tables, now: int)
    ensures RolledBackRows(t.tasks, ExpiredIds(t.tasks, now), now) == EditedTasks(t, QueueExpired, now)
  {
  }

  lemma StaleIsEdit(t: Tables, cutoff: int, now: int)
    ensures RetriedRows(t.tasks, StaleTaskIds(t.tasks, cutoff), now)
         == EditedTasks(t, RecoverStale(cutoff), now)
  {
  }

  lemma FinishIsEdit(t: Tables, id: TaskId, call: FinishCall, now: int)
    requires SafeCall(call)
    ensures Step(t, Finish(id, call), t.(tasks := if id in t.tasks then t.tasks[id := FinishedTask(t.cases, t.tasks[id], call, now)]
                                                  else t.tasks), now)
  {
    hide SafeCall, Step, FinishedTask;
    EditIsStep(t, Finish(id, call), now);
    assert EditedTasks(t, Finish(id, call), now) ==
      if id in t.tasks then t.tasks[id := FinishedTask(t.cases, t.tasks[id], call, now)] else t.tasks;
  }

  lemma PauseIsEdit(t: Tables, now: int)
    ensures (map id | id in t.tasks :: if t.tasks[id].status in {Queued, RetryWait}
                                       then t.tasks[id].(status := Paused, claimedAt := None) else t.tasks[id])
         == EditedTasks(t, PauseQueued, now)
  {
  }

  lemma SweepIsEdit(t: Tables, only: Option<CaseId>, now: int)
    ensures SweptTasks(t.cases, t.tasks, only, now) == EditedTasks(t, Sweep(only), now)
  {
  }

  class GovernanceStore {
    var cases: map<CaseId, Case>
    var validations: map<ValidationId, Validation>
    var resolutions: map<ResolutionId, Resolution>
    var approvals: map<ApprovalId, Approval>
    var tasks: map<TaskId, Task>
    ghost var log: seq<Stamp>

    ghost function View(): Tables
      reads this
    {
      Tables(cases, validations, resolutions, approvals, tasks)
    }

    /** The tables are where the logged run leads. */
    ghost predicate Valid()
      reads this
    {
      Run(EMPTY, log) && Final(EMPTY, log) == View()
    }

    constructor ()
      ensures Valid() && View() == EMPTY && log == []
    {
      cases, validations, resolutions, approvals, tasks, log := map[], map[], map[], map[], map[], [];
    }

    /** Log the call that just changed the tables. */
    ghost method Record(ev: Event, now: int)
      requires Run(EMPTY, log) && Step(Final(EMPTY, log), ev, View(), now)
      modifies this`log
      ensures Valid() && log == old(log) + [Stamp(ev, now, View())]
    {
      hide Step;
      RunAppend(EMPTY, log, ev, now, View());
      log := log + [Stamp(ev, now, View())];
    }

    lemma ViewIsReached()
      requires Valid()
      ensures Run(EMPTY, log) && Final(EMPTY, log) == View()
    {
    }

    /** Whatever calls were made, the tables keep quorum, validation gate, authorisation
        and compensation safety. */
    lemma StoreIsGoverned()
      requires Valid()
      ensures Governed(View())
    {
      hide *;
      ViewIsReached();
      NothingUngoverned();
      RunKeepsGoverned(EMPTY, log);
    }

    // ---- cases and validations ---------------------------------------------

    /** `upsert_case`: insert as open, or on conflict reopen a provisional case only. */
    method UpsertCase(c: CaseId, now: int)
      requires Valid()
      modifies this`cases, this`log
      ensures Valid() && log == old(log) + [Stamp(Event.UpsertCase(c), now, View())]
      ensures c in cases && (c !in old(cases) || Provisional(old(cases)[c].status) ==> cases[c] == Case(Open, now, None))
      ensures c in old(cases) && !Provisional(old(cases)[c].status) ==> cases[c] == old(cases)[c].(updatedAt := now)
      ensures cases == old(cases)[c := cases[c]]
    {
      hide Run, Final;
      if c !in cases {
        cases := cases[c := Case(Open, now, None)];
      } else {
        var row, provisional := cases[c], Provisional(cases[c].status);
        cases := cases[c := Case(if provisional then Open else row.status, now, if provisional then None else row.closedAt)];
      }
      Record(Event.UpsertCase(c), now);
    }

    /** `ensure_provisional_case`: what an analyst controls is never overwritten. */
    method EnsureProvisionalCase(c: CaseId, now: int) returns (created: bool)
      requires Valid()
      modifies this`cases, this`log
      ensures Valid() && log == old(log) + [Stamp(ProvisionCase(c, Analyzing, true), now, View())]
      ensures created <==> c !in old(cases)
      ensures cases == if created || Provisional(old(cases)[c].status) then old(cases)[c := Case(Analyzing, now, None)]
                       else old(cases)
    {
      hide Run, Final;
      created := c !in cases;
      if created {
        cases := cases[c := Case(Analyzing, now, None)];
      } else if Provisional(cases[c].status) {
        cases := cases[c := Case(Analyzing, now, None)];
      }
      Record(ProvisionCase(c, Analyzing, true), now);
    }

    /** `update_provisional_case_status`; `None` is its ValueError. */
    method UpdateProvisionalStatus(c: CaseId, s: CaseStatus, now: int) returns (moved: Option<bool>)
      requires Valid()
      modifies this`cases, this`log
      ensures Valid() && (moved.None? <==> !Provisional(s))
      ensures moved.None? ==> View() == old(View()) && log == old(log)
      ensures moved.Some? ==>
        && log == old(log) + [Stamp(ProvisionCase(c, s, false), now, View())]
        && (moved.value <==> c in old(cases) && Provisional(old(cases)[c].status))
        && cases == if moved.value then old(cases)[c := Case(s, now, None)] else old(cases)
    {
      hide Run, Final;
      if !Provisional(s) { return None; }
      var hit := c in cases && Provisional(cases[c].status);
      if hit { cases := cases[c := Case(s, now, None)]; }
      Record(ProvisionCase(c, s, false), now);
      return Some(hit);
    }

    /** `insert_validation`; false is the constraint error of a known id or an unknown case. */
    method InsertValidation(vid: ValidationId, v: Validation, now: int) returns (inserted: bool)
      requires Valid()
      modifies this`validations, this`log
      ensures Valid() && (inserted <==> vid !in old(validations) && v.caseId in cases)
      ensures validations == if inserted then old(validations)[vid := v] else old(validations)
      ensures log == if inserted then old(log) + [Stamp(AddValidation(vid, v), now, View())] else old(log)
    {
      hide Run, Final;
      inserted := vid !in validations && v.caseId in cases;
      if inserted {
        validations := validations[vid := v];
        Record(AddValidation(vid, v), now);
      }
    }

    /** `SELECT … WHERE validation_id = ?`. */
    method ResolutionOf(vid: ValidationId) returns (rid: Option<ResolutionId>)
      ensures rid.Some? <==> Resolved(resolutions, vid)
      ensures rid.Some? ==> rid.value in resolutions && resolutions[rid.value].validationId == vid
    {
      rid := None;
      var todo := resolutions.Keys;
      while todo != {} && rid.None?
        invariant todo <= resolutions.Keys
        invariant rid.Some? ==> rid.value in resolutions && resolutions[rid.value].validationId == vid
        invariant rid.None? ==> forall r :: r in resolutions.Keys - todo ==> resolutions[r].validationId != vid
        decreases |todo|
      {
        var r :| r in todo;
        if resolutions[r].validationId == vid { rid := Some(r); }
        todo := todo - {r};
      }
    }

    /** `create_validation_review_resolution`: one continuation per validation. */
    method CreateReviewResolution(rid: ResolutionId, vid: ValidationId, c: CaseId, e: EventId, now: int)
      returns (outcome: Resolving)
      requires Valid()
      modifies this`resolutions, this`log
      ensures Valid()
      ensures outcome.NotEligible? <==> !Continuable(old(View()), vid, c, e)
      ensures outcome.NotEligible? ==> resolutions == old(resolutions) && log == old(log)
      ensures !outcome.NotEligible? ==>
        && resolutions == ContinuedResolutions(old(resolutions), rid, Resolution(vid, c, e))
        && log == old(log) + [Stamp(Continue(rid, vid, c, e), now, View())]
      ensures outcome.NotPersisted? <==> Continuable(old(View()), vid, c, e) && rid in old(resolutions) && !Resolved(old(resolutions), vid)
      ensures outcome.Found? ==>
        && outcome.id in resolutions && resolutions[outcome.id].validationId == vid
        && (outcome.created <==> rid !in old(resolutions) && !Resolved(old(resolutions), vid))
        && (outcome.created ==> outcome.id == rid)
    {
      hide Run, Final;
      if vid !in validations || validations[vid].caseId != c || validations[vid].eventId != e { return NotEligible; }
      if !validations[vid].status.Review? || !validations[vid].continuable { return NotEligible; }
      var earlier := ResolutionOf(vid);
      var created := rid !in resolutions && earlier.None?;
      if created { resolutions := resolutions[rid := Resolution(vid, c, e)]; }
      Record(Continue(rid, vid, c, e), now);
      if created { return Found(rid, true); }
      return if earlier.None? then NotPersisted else Found(earlier.value, false);
    }

    // ---- approvals ---------------------------------------------------------

    /** The validation that an approval request rests on. */
    method FindValidation(c: CaseId, e: EventId, named: ValidationId) returns (found: Option<ValidationId>)
      ensures IsFound(validations, c, e, named, found)
    {
      if named != "" { return if named in validations then Some(named) else None; }
      found := None;
      var todo := validations.Keys;
      while todo != {}
        invariant todo <= validations.Keys
        invariant found.None? ==> forall v :: v in validations.Keys - todo ==> !IsFor(validations[v], c, e)
        invariant found.Some? ==>
          && found.value in validations && IsFor(validations[found.value], c, e)
          && forall v :: v in validations.Keys - todo && IsFor(validations[v], c, e) ==>
               validations[v].createdAt <= validations[found.value].createdAt
        decreases |todo|
      {
        var v :| v in todo;
        if IsFor(validations[v], c, e) && (found.None? || validations[found.value].createdAt < validations[v].createdAt) {
          found := Some(v);
        }
        todo := todo - {v};
      }
    }

    /** The checks of case, validation and review before the insert. */
    method AllowedBy(c: CaseId, e: EventId, found: Option<ValidationId>, rid: ResolutionId) returns (allowed: bool)
      ensures allowed <==> Admissible(View(), c, e, found, rid)
    {
      if c !in cases || Terminal(cases[c].status) { return false; }
      if found.None? || found.value !in validations { return false; }
      var v := validations[found.value];
      if v.caseId != c || v.eventId != e { return false; }
      if v.status.Passed? { return rid == ""; }
      if v.status.Review? && rid != "" {
        return rid in resolutions && resolutions[rid] == Resolution(found.value, c, e);
      }
      return false;
    }

    /** `insert_approval`: the gate that lets only validated or continued actions in. */
    method InsertApproval(a: ApprovalId, c: CaseId, e: EventId, named: ValidationId, rid: ResolutionId, required: int, now: int)
      returns (inserted: bool, ghost found: Option<ValidationId>)
      requires Valid()
      modifies this`approvals, this`log
      ensures Valid() && IsFound(validations, c, e, named, found)
      ensures log == old(log) + [Stamp(Event.InsertApproval(a, c, e, named, found, rid, required), now, View())]
      ensures inserted <==> Admissible(old(View()), c, e, found, rid) && a !in old(approvals)
      ensures approvals == if inserted then old(approvals)[a := NewApproval(c, e, found.value, rid, required)] else old(approvals)
    {
      hide Run, Final, IsFound;
      var v := FindValidation(c, e, named);
      found := v;
      inserted := AllowedBy(c, e, v, rid);
      inserted := inserted && a !in approvals;
      if inserted { approvals := approvals[a := NewApproval(c, e, v.value, rid, required)]; }
      Record(Event.InsertApproval(a, c, e, named, found, rid, required), now);
    }

    /** The repository vote: `None` when not pending, else whether the vote was new. */
    method Vote(a: ApprovalId, actor: Actor, decision: Decision) returns (recorded: Option<bool>)
      modifies this`approvals
      ensures recorded.None? <==> !(a in old(approvals) && old(approvals)[a].status.Pending?)
      ensures recorded.None? ==> approvals == old(approvals)
      ensures recorded.Some? ==>
        && recorded.value == (actor !in old(approvals)[a].votes)
        && approvals == old(approvals)[a := Voted(old(approvals)[a], actor, decision)]
      ensures recorded == Some(false) ==> approvals == old(approvals)
      ensures recorded == Some(true) ==>
        var was, row := old(approvals)[a], approvals[a];
        && approvals == old(approvals)[a := row]
        && row == was.(status := row.status, votes := was.votes[actor := decision], decidedBy := row.decidedBy)
        && (row.status.Rejected? <==> decision.Reject?)
        && (row.status.Cancelled? <==> decision.Cancel?)
        && (row.status.Approved? <==> decision.Approve? && |Approvers(was)| + 1 >= was.required)
        && row.decidedBy == if row.status.Pending? then was.decidedBy else actor
    {
      if a !in approvals || !approvals[a].status.Pending? { return None; }
      var row := approvals[a];
      if actor in row.votes {
        assert approvals == approvals[a := row];
        return Some(false);
      }
      VoteDecides(row, actor, decision);
      row := row.(votes := row.votes[actor := decision]);
      var status := Pending;
      if decision.Reject? {
        status := Rejected;
      } else if decision.Cancel? {
        status := Cancelled;
      } else {
        var count := |Approvers(row)|;
        if count >= row.required { status := Approved; }
      }
      if !status.Pending? {
        row := row.(status := status, decidedBy := actor);
      }
      approvals := approvals[a := row];
      return Some(true);
    }

    method TaskOf(a: ApprovalId) returns (known: bool)
      ensures known <==> HasTask(tasks, a)
    {
      known := false;
      var todo := tasks.Keys;
      while todo != {} && !known
        invariant todo <= tasks.Keys
        invariant known ==> HasTask(tasks, a)
        invariant !known ==> forall i :: i in tasks.Keys - todo ==> tasks[i].approvalId != a
        decreases |todo|
      {
        var i :| i in todo;
        if tasks[i].approvalId == a { known := true; }
        todo := todo - {i};
      }
    }

    /** `create_response_task`; false is the RuntimeError when no task of the approval is there. */
    method CreateTask(id: TaskId, k: Task) returns (persisted: bool)
      modifies this`tasks
      ensures tasks == CreatedTasks(old(tasks), id, k)
      ensures persisted <==> HasTask(tasks, k.approvalId)
      ensures persisted <==> id !in old(tasks) || HasTask(old(tasks), k.approvalId)
    {
      var known := TaskOf(k.approvalId);
      persisted := known || id !in tasks;
      if id !in tasks && !known {
        tasks := tasks[id := k];
        assert tasks[id].approvalId == k.approvalId;
      }
    }

    /** `create_for_approval` on an approved row; false is its RuntimeError. */
    method PlanTask(a: ApprovalId, plan: Plan, now: int) returns (planned: bool)
      requires a in approvals
      modifies this`tasks
      ensures planned <==> !PlanFails(old(tasks), a, approvals[a], plan)
      ensures planned ==> tasks == PlannedTasks(old(tasks), a, approvals[a], plan, now)
    {
      hide CreatedTasks, HasTask;
      if !approvals[a].status.Approved? || plan.NoTask? { return true; }
      if plan.NoPlaybook? { return false; }
      planned := CreateTask(plan.id, NewTask(a, approvals[a], plan.status, plan.duration, plan.connector, now));
    }

    /** The analyst decision and, on approval, the task it authorises, as one transaction:
        an error in the automation takes the vote back. */
    method DecideApproval(a: ApprovalId, actor: Actor, decision: Decision, plan: Plan, now: int)
      returns (outcome: Deciding)
      requires Valid() && PlanStarts(plan)
      modifies this`approvals, this`tasks, this`log
      ensures Valid()
      ensures outcome.NotPending? <==> !(a in old(approvals) && old(approvals)[a].status.Pending?)
      ensures outcome.Undone? <==>
        && a in old(approvals) && old(approvals)[a].status.Pending?
        && PlanFails(old(tasks), a, Voted(old(approvals)[a], actor, decision), plan)
      ensures !outcome.Decided? ==> View() == old(View())
      ensures outcome.NotPending? ==> log == old(log)
      ensures !outcome.NotPending? ==>
        && DecideStep(old(View()), Decide(a, actor, decision, plan), View(), now)
        && log == old(log) + [Stamp(Decide(a, actor, decision, plan), now, View())]
      ensures outcome.Decided? && actor in old(approvals)[a].votes ==> View() == old(View())
      ensures outcome.Decided? && actor !in old(approvals)[a].votes ==>
        var was, row := old(approvals)[a], approvals[a];
        && row.votes == was.votes[actor := decision]
        && (row.status.Rejected? <==> decision.Reject?)
        && (row.status.Cancelled? <==> decision.Cancel?)
        && (row.status.Approved? <==> decision.Approve? && |was.votes| + 1 == was.required)
        && tasks == if row.status.Approved? && plan.NewTaskPlan?
                    then old(tasks)[plan.id := Task(a, was.caseId, was.eventId, plan.status, 0, now, now, None, "", None,
                                                    plan.duration, plan.connector)]
                    else old(tasks)
    {
      hide Voted, Run, Final, Step, PlannedTasks, PlanFails, Governed;
      StoreIsGoverned();
      ghost var before := View();
      var approvalsBefore, tasksBefore := approvals, tasks;
      var recorded := Vote(a, actor, decision);
      if recorded.None? { return NotPending; }
      var planned := PlanTask(a, plan, now);
      if !planned { approvals, tasks := approvalsBefore, tasksBefore; }
      DecideIsStep(before, Decide(a, actor, decision, plan), View(), now);
      Record(Decide(a, actor, decision, plan), now);
      if planned { DecisionOutcome(before, Decide(a, actor, decision, plan), View(), now); }
      return if planned then Decided else Undone;
    }

    method CancelPendingApprovals(c: CaseId, keep: Option<EventId>, actor: Actor)
      modifies this`approvals
      ensures approvals == WithdrawnApprovals(old(approvals), c, keep, actor)
    {
      ghost var was := approvals;
      var hits := PendingIds(approvals, c, keep);
      var todo := hits;
      while todo != {}
        invariant todo <= hits <= was.Keys
        invariant approvals == WithdrawnAmong(was, hits - todo, actor)
        decreases |todo|
      {
        var id :| id in todo;
        approvals := approvals[id := approvals[id].(status := Cancelled, decidedBy := actor)];
        todo := todo - {id};
      }
      assert hits - todo == hits;
    }

    /** `cancel_pending_approvals`. */
    method WithdrawPending(c: CaseId, keep: Option<EventId>, actor: Actor, now: int)
      requires Valid()
      modifies this`approvals, this`log
      ensures Valid() && approvals == WithdrawnApprovals(old(approvals), c, keep, actor)
      ensures log == old(log) + [Stamp(Event.WithdrawPending(c, keep, actor), now, View())]
    {
      hide Run, Final, WithdrawnApprovals;
      CancelPendingApprovals(c, keep, actor);
      Record(Event.WithdrawPending(c, keep, actor), now);
    }

    // ---- case lifecycle ----------------------------------------------------

    method RollBackEach(ids: set<TaskId>, now: int)
      requires ids <= tasks.Keys
      modifies this`tasks
      ensures tasks == map id | id in old(tasks) ::
        if id in ids then old(tasks)[id].(status := RollbackQueued, availableAt := now, claimedAt := None) else old(tasks)[id]
    {
      ghost var was := tasks;
      var todo := ids;
      while todo != {}
        invariant todo <= ids && tasks.Keys == was.Keys
        invariant forall id :: id in was ==>
          tasks[id] == if id in ids - todo then was[id].(status := RollbackQueued, availableAt := now, claimedAt := None)
                       else was[id]
        decreases |todo|
      {
        var id :| id in todo;
        tasks := tasks[id := tasks[id].(status := RollbackQueued, availableAt := now, claimedAt := None)];
        todo := todo - {id};
      }
    }

    /** Its UPDATE, on the tasks of one case or of all. */
    method RollBackOwed(only: Option<CaseId>, now: int) returns (count: nat)
      modifies this`tasks
      ensures tasks == SweptTasks(cases, old(tasks), only, now)
      ensures count == |OwedIds(cases, old(tasks), only)|
    {
      ghost var before := tasks;
      var owed := OwedIds(cases, tasks, only);
      count := |owed|;
      RollBackEach(owed, now);
      assert tasks == SweptTasks(cases, before, only, now);
    }

    method TransitionCaseTasks(c: CaseId, now: int)
      modifies this`tasks
      ensures tasks == TransitionedTasks(cases, old(tasks), c, now)
    {
      ghost var was := tasks;
      var swept := RollBackOwed(Some(c), now);
      hide SweptTask, DroppedTask;
      tasks := map id | id in tasks :: DroppedTask(tasks[id], c);
    }

    /** `update_case_status`: the case row first, then approvals, then tasks. */
    method UpdateCaseStatus(c: CaseId, s: CaseStatus, now: int) returns (found: bool)
      requires Valid()
      modifies this`cases, this`approvals, this`tasks, this`log
      ensures Valid() && log == old(log) + [Stamp(SetCaseStatus(c, s), now, View())]
      ensures found <==> c in old(cases)
      ensures View() == StatusSet(old(View()), c, s, now)
    {
      hide SweptTask, DroppedTask, Run, Final;
      found := c in cases;
      if found {
        cases := cases[c := Case(s, now, if Terminal(s) then Some(now) else None)];
        if Terminal(s) {
          CancelPendingApprovals(c, None, "case-lifecycle");
          TransitionCaseTasks(c, now);
        }
      }
      Record(SetCaseStatus(c, s), now);
    }

    method DeleteCases(gone: set<CaseId>)
      modifies this`cases, this`validations, this`resolutions, this`approvals, this`tasks
      ensures View() == Purged(old(View()), gone)
    {
      tasks := map k | k in tasks && tasks[k].caseId !in gone :: tasks[k];
      approvals := map a | a in approvals && approvals[a].caseId !in gone :: approvals[a];
      resolutions := map r | r in resolutions && resolutions[r].caseId !in gone :: resolutions[r];
      validations := map v | v in validations && validations[v].caseId !in gone :: validations[v];
      cases := cases - gone;
    }

    /** What `purge_retained_history` deletes here, for the cases its candidate query selects. */
    method PurgeCases(gone: set<CaseId>, before: int, now: int)
      requires Valid() && forall c :: c in gone ==> Purgeable(View(), c, before)
      modifies this
      ensures Valid() && View() == Purged(old(View()), gone)
      ensures log == old(log) + [Stamp(Purge(gone, before), now, View())]
      ensures OnlySettledErased(old(View()), View())
    {
      hide Run, Final, Purgeable, OnlySettledErased, Governed, Step, Purged;
      StoreIsGoverned();
      PurgeErasesNoRule(View(), gone, before);
      PurgeIsStep(View(), gone, before, now);
      DeleteCases(gone);
      Record(Purge(gone, before), now);
    }

    // ---- response tasks ----------------------------------------------------

    /** The reconciliation sweep; the count is what it had to roll back. */
    method QueueTerminalRollbacks(only: Option<CaseId>, now: int) returns (count: nat)
      requires Valid()
      modifies this`tasks, this`log
      ensures Valid() && log == old(log) + [Stamp(Sweep(only), now, View())]
      ensures tasks == SweptTasks(cases, old(tasks), only, now)
      ensures count == |OwedIds(cases, old(tasks), only)|
      ensures only.None? ==> Compensated(View()) && OwedIds(cases, tasks, None) == {}
    {
      ghost var before := View();
      hide Run, Final, Owed, SweptTask, OwedIds;
      count := RollBackOwed(only, now);
      SweepReconciles(before, now, now);
      SweepIsEdit(before, only, now);
      Record(Sweep(only), now);
    }

    /** The scan behind the claim query's ORDER BY … LIMIT 1. */
    method NextTask(now: int) returns (first: Option<TaskId>)
      ensures first.None? ==> forall id :: id in tasks ==> !Claimable(tasks[id], now)
      ensures first.Some? ==> IsNextTask(tasks, first.value, now)
    {
      first := None;
      var todo := tasks.Keys;
      while todo != {}
        invariant todo <= tasks.Keys
        invariant first.None? ==> forall id :: id in tasks.Keys - todo ==> !Claimable(tasks[id], now)
        invariant first.Some? ==>
          && first.value in tasks && Claimable(tasks[first.value], now)
          && forall id :: id in tasks.Keys - todo && Claimable(tasks[id], now) ==> TaskLeq(tasks[first.value], tasks[id])
        decreases |todo|
      {
        var id :| id in todo;
        if Claimable(tasks[id], now) && (first.None? || !TaskLeq(tasks[first.value], tasks[id])) {
          first := Some(id);
        }
        todo := todo - {id};
      }
    }

    method ClaimTask(now: int) returns (claimed: Option<TaskId>)
      requires Valid()
      modifies this`tasks, this`log
      ensures Valid()
      ensures claimed.None? ==> tasks == old(tasks) && log == old(log) && forall id :: id in tasks ==> !Claimable(tasks[id], now)
      ensures claimed.Some? ==>
        && IsNextTask(old(tasks), claimed.value, now)
        && tasks == old(tasks)[claimed.value := ClaimedTask(old(tasks)[claimed.value], now)]
        && log == old(log) + [Stamp(Event.ClaimTask(claimed.value), now, View())]
    {
      ghost var before := View();
      hide Run, Final;
      claimed := NextTask(now);
      if claimed.Some? {
        tasks := tasks[claimed.value := ClaimedTask(tasks[claimed.value], now)];
        var ev := Event.ClaimTask(claimed.value);
        assert tasks == EditedTasks(before, ev, now);
        Record(ev, now);
      }
    }

    /** Any call has its effect; only the safe ones are steps of a governed run. */
    method FinishTask(id: TaskId, call: FinishCall, now: int) returns (finished: bool)
      requires Valid()
      modifies this`tasks, this`log
      ensures SafeCall(call) ==> Valid() && log == old(log) + [Stamp(Finish(id, call), now, View())]
      ensures finished <==> id in old(tasks) && FinishApplies(cases, old(tasks)[id], call)
      ensures tasks == if finished then old(tasks)[id := FinishedTask(cases, old(tasks)[id], call, now)] else old(tasks)
    {
      ghost var before := View();
      hide Run, Final, SafeCall, Step, EditedTasks;
      var expiresAt := None;
      if call.status.Verified? && id in tasks {
        expiresAt := Some(now + Max(60, tasks[id].duration) * 1000);
      }
      finished := id in tasks && tasks[id].status == call.expected
        && (call.requireActive ==> tasks[id].caseId in cases && !Terminal(cases[tasks[id].caseId].status));
      if finished {
        var k := tasks[id];
        tasks := tasks[id := k.(status := call.status, ruleId := if call.ruleId != "" then call.ruleId else k.ruleId,
                                availableAt := now + Max(0, call.delay), claimedAt := None,
                                expiresAt := if expiresAt.Some? then expiresAt else k.expiresAt)];
      }
      assert tasks == if id in before.tasks then before.tasks[id := FinishedTask(before.cases, before.tasks[id], call, now)]
                      else before.tasks;
      if SafeCall(call) {
        FinishIsEdit(before, id, call, now);
        Record(Finish(id, call), now);
      }
    }

    method RecordRuleId(id: TaskId, rule: string, now: int) returns (recorded: bool)
      requires Valid()
      modifies this`tasks, this`log
      ensures Valid() && log == old(log) + [Stamp(RecordRule(id, rule), now, View())]
      ensures recorded <==> id in old(tasks) && old(tasks)[id].status.Running?
      ensures tasks == if recorded then old(tasks)[id := RuledTask(cases, old(tasks)[id], rule, now)] else old(tasks)
    {
      ghost var before := View();
      hide Run, Final;
      recorded := id in tasks && tasks[id].status.Running?;
      if recorded {
        var k := tasks[id].(ruleId := rule);
        if k.caseId in cases && Terminal(cases[k.caseId].status) {
          k := k.(status := RollbackQueued, availableAt := now, claimedAt := None);
        }
        tasks := tasks[id := k];
      }
      var ev := RecordRule(id, rule);
      assert tasks == EditedTasks(before, ev, now);
      Record(ev, now);
    }

    static function ResumableIds(tasks: map<TaskId, Task>): set<TaskId> {
      set id | id in tasks && tasks[id].status.Paused? && tasks[id].connector.Some?
    }

    /** One UPDATE per selected row, as the connector mode dictates. */
    method ResumeEach(ids: set<TaskId>, now: int)
      requires ids == ResumableIds(tasks)
      modifies this`tasks
      ensures tasks == EditedTasks(old(View()), ResumePaused, now)
    {
      ghost var was := tasks;
      var todo := ids;
      while todo != {}
        invariant todo <= ids && tasks.Keys == was.Keys
        invariant forall id :: id in was ==> tasks[id] == if id in todo then was[id] else ResumedTask(was[id], now)
        decreases |todo|
      {
        var id :| id in todo;
        var status := if tasks[id].connector.value.Manual? then WaitingDispatch else Queued;
        tasks := tasks[id := tasks[id].(status := status, availableAt := now)];
        todo := todo - {id};
      }
    }

    method ResumePausedTasks(now: int) returns (resumed: nat)
      requires Valid()
      modifies this`tasks, this`log
      ensures Valid() && log == old(log) + [Stamp(ResumePaused, now, View())]
      ensures tasks == EditedTasks(old(View()), ResumePaused, now)
      ensures resumed == |ResumableIds(old(tasks))|
    {
      ghost var before := View();
      hide Run, Final;
      var rows := ResumableIds(tasks);
      resumed := |rows|;
      ResumeEach(rows, now);
      Record(ResumePaused, now);
    }

    /** Put a waiting task, or the rollback of a verified one, back into the queue. */
    method QueueTask(id: TaskId, rollback: bool, now: int) returns (queued: bool)
      requires Valid()
      modifies this`tasks, this`log
      ensures Valid() && log == old(log) + [Stamp(Event.QueueTask(id, rollback), now, View())]
      ensures queued <==> id in old(tasks) && Queueable(old(tasks)[id], rollback)
      ensures tasks == if queued then old(tasks)[id := QueuedTask(old(tasks)[id], rollback, now)] else old(tasks)
    {
      ghost var before := View();
      hide Run, Final;
      queued := id in tasks && Queueable(tasks[id], rollback);
      if queued {
        tasks := tasks[id := tasks[id].(status := if rollback then RollbackQueued else Queued,
                                        availableAt := now, claimedAt := None)];
      }
      var ev := Event.QueueTask(id, rollback);
      assert tasks == EditedTasks(before, ev, now);
      Record(ev, now);
    }

    method BindConnector(id: TaskId, mode: Mode, now: int) returns (bound: bool)
      requires Valid()
      modifies this`tasks, this`log
      ensures Valid() && log == old(log) + [Stamp(Event.BindConnector(id, mode), now, View())]
      ensures bound <==> id in old(tasks) && old(tasks)[id].status.WaitingConfiguration? && old(tasks)[id].connector.None?
      ensures tasks == if bound then old(tasks)[id := BoundTask(old(tasks)[id], mode)] else old(tasks)
    {
      ghost var before := View();
      hide Run, Final;
      bound := id in tasks && tasks[id].status.WaitingConfiguration? && tasks[id].connector.None?;
      if bound {
        tasks := tasks[id := tasks[id].(connector := Some(mode), status := WaitingDispatch)];
      }
      var ev := Event.BindConnector(id, mode);
      assert tasks == EditedTasks(before, ev, now);
      Record(ev, now);
    }

    /** The single-statement updates over all tasks. */
    method PauseQueuedTasks(now: int)
      requires Valid()
      modifies this`tasks, this`log
      ensures Valid() && log == old(log) + [Stamp(PauseQueued, now, View())]
      ensures tasks == EditedTasks(old(View()), PauseQueued, now)
    {
      ghost var before := View();
      hide Run, Final;
      tasks := map id | id in tasks ::
        if tasks[id].status in {Queued, RetryWait} then tasks[id].(status := Paused, claimedAt := None) else tasks[id];
      PauseIsEdit(before, now);
      Record(PauseQueued, now);
    }

    method QueueExpiredTasks(now: int) returns (count: nat)
      requires Valid()
      modifies this`tasks, this`log
      ensures Valid() && log == old(log) + [Stamp(QueueExpired, now, View())]
      ensures tasks == EditedTasks(old(View()), QueueExpired, now)
      ensures count == |ExpiredIds(old(tasks), now)|
    {
      hide EditedTask, EditedTasks, Expired, Run, Final;
      ExpiredIsEdit(View(), now);
      EditIsStep(View(), QueueExpired, now);
      var rows := ExpiredIds(tasks, now);
      count := |rows|;
      tasks := RolledBackRows(tasks, rows, now);
      Record(QueueExpired, now);
    }

    method RecoverStaleTasks(cutoff: int, now: int) returns (count: nat)
      requires Valid()
      modifies this`tasks, this`log
      ensures Valid() && log == old(log) + [Stamp(RecoverStale(cutoff), now, View())]
      ensures tasks == EditedTasks(old(View()), RecoverStale(cutoff), now)
      ensures count == |StaleTaskIds(old(tasks), cutoff)|
    {
      hide EditedTask, EditedTasks, Stale, Run, Final;
      StaleIsEdit(View(), cutoff, now);
      EditIsStep(View(), RecoverStale(cutoff), now);
      var rows := StaleTaskIds(tasks, cutoff);
      count := |rows|;
      tasks := RetriedRows(tasks, rows, now);
      Record(RecoverStale(cutoff), now);
    }
  }
}
