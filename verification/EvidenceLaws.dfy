/** What a response pack says: which record stands behind every timeline entry, which
    entries, facts and tasks are shown where, and what the validator asks of any response pack. */
module EvidenceLaws {
  import opened Common
  import opened Decimals
  import opened EvidencePack
  import opened JsonValue
  import opened PyText
  import opened Sorting

  // ---- references --------------------------------------------------------

  /** The suffixes in order of preference. */
  const SUFFIXES := [":rule_id", ":src_ip", ":dst_ip", ":uri", ":method", ":action", ":status"]

  /** A plain identifier comes first, then the listed fields in their order, then the rest. */
  lemma RefPriorityIs(ref: string, k: nat)
    requires k < |SUFFIXES|
    ensures ':' !in ref <==> RefPriority(ref) == 0
    ensures ':' in ref && EndsWith(ref, SUFFIXES[k]) ==> RefPriority(ref) <= k + 1
    ensures RefPriority(ref) == k + 1 ==> EndsWith(ref, SUFFIXES[k])
    ensures RefPriority(ref) in {0, 1, 2, 3, 4, 5, 6, 7, 20}
  {
    assert Without(ref, ':') <==> ':' !in ref;
    hide EndsWith, Without;
    if k == 0 { assert SUFFIXES[k] == ":rule_id"; }
    else if k == 1 { assert SUFFIXES[k] == ":src_ip"; }
    else if k == 2 { assert SUFFIXES[k] == ":dst_ip"; }
    else if k == 3 { assert SUFFIXES[k] == ":uri"; }
    else if k == 4 { assert SUFFIXES[k] == ":method"; }
    else if k == 5 { assert SUFFIXES[k] == ":action"; }
    else { assert SUFFIXES[k] == ":status"; }
  }

  lemma EndsWithIs(a: string, suffix: string, ref: string)
    ensures EndsWith(a + suffix, suffix)
    ensures EndsWith(ref, suffix) ==> exists front :: ref == front + suffix
  {
    if EndsWith(ref, suffix) { assert ref == ref[..|ref| - |suffix|] + suffix; }
  }

  /** An item refers by its own reference or, without one, by that of its value, trimmed. */
  lemma RefsOfItems(ref: string, valueRef: string, replay: bool)
    ensures RefOf(Item(ref, valueRef, replay)) == Strip(if ref == "" then valueRef else ref) && RefOf(Loose) == ""
  {
  }

  lemma {:induction false} CollectedExtends(evidence: seq<Evidence>, refs: seq<string>, item: Evidence)
    requires |refs| < 64
    ensures var were := CollectRefs(evidence, refs);
      CollectRefs(evidence + [item], refs) ==
      if |were| >= 64 || RefOf(item) == "" || RefOf(item) in were then were else were + [RefOf(item)]
    decreases |evidence|
  {
    hide RefOf;
    var more := evidence + [item];
    if evidence == [] {
      assert more[1..] == [];
    } else {
      assert more[1..] == evidence[1..] + [item];
      var ref := RefOf(evidence[0]);
      if ref == "" || ref in refs { CollectedExtends(evidence[1..], refs, item); }
      else if |refs| + 1 < 64 { CollectedExtends(evidence[1..], refs + [ref], item); }
    }
  }

  /** Reading one more evidence item adds its reference unless it is empty, known already, or
      64 are known; the event's own id stands in where the evidence has none. */
  lemma RefsAreCollected(e: Event, item: Evidence)
    ensures var were := CollectRefs(e.evidence, []);
      && CollectRefs(e.evidence + [item], []) ==
         (if |were| >= 64 || RefOf(item) == "" || RefOf(item) in were then were else were + [RefOf(item)])
      && CollectRefs([], []) == []
      && KnownRefs(e) == (if were != [] then were else if e.id != "" then [e.id] else [])
      && |EventRefs(e)| == (if |KnownRefs(e)| < 8 then |KnownRefs(e)| else 8)
  {
    hide RefOf, SortBy;
    CollectedExtends(e.evidence, [], item);
    ShownRefsAreBest(e);
  }

  // ---- the entries of the timeline ---------------------------------------

  /** Recomputed from a recorded event rather than received. */
  predicate Replayed(e: Event) { e.replay || exists i :: 0 <= i < |e.evidence| && e.evidence[i].Item? && e.evidence[i].replay }

  lemma ReplayedIs(e: Event)
    ensures Replayed(e) <==> IsReplay(e)
  {
    if x :| x in e.evidence && x.Item? && x.replay {
      var i :| 0 <= i < |e.evidence| && e.evidence[i] == x;
    }
  }

  /** The references of the last event stored under the id, or none. */
  ghost predicate RefersTo(s: Source, eventId: string, refs: seq<string>) {
    || (refs == [] && forall e :: e in s.events ==> e.id != eventId)
    || (exists i :: 0 <= i < |s.events| && s.events[i].id == eventId && refs == EventRefs(s.events[i])
                    && forall j :: i < j < |s.events| ==> s.events[j].id != eventId)
  }

  lemma {:induction false} FoundIsLast(events: seq<Event>, id: string)
    ensures FindEvent(events, id).None? ==> forall e :: e in events ==> e.id != id
    ensures FindEvent(events, id).Some? ==>
      exists i :: 0 <= i < |events| && events[i] == FindEvent(events, id).value && events[i].id == id
                  && forall j :: i < j < |events| ==> events[j].id != id
    decreases |events|
  {
    if events != [] && events[|events| - 1].id != id {
      FoundIsLast(events[..|events| - 1], id);
      assert events == events[..|events| - 1] + [events[|events| - 1]];
    }
  }

  lemma SourceRefersTo(s: Source, eventId: string)
    ensures RefersTo(s, eventId, SourceEventRefs(s, eventId))
  {
    hide EventRefs;
    FoundIsLast(s.events, eventId);
  }

  /** A security event is dated as it was reported, or else when it arrived; everything else
      is dated by the server when it was recorded. */
  ghost predicate TellsEvent(x: Entry, e: Event) {
    && x.entryId == "event:" + e.id && x.recordedAt == e.createdAt && x.refs == EventRefs(e)
    && (if Replayed(e) then x.kind.AnalysisReplay? && x.occurredAt == e.createdAt && x.basis == "system"
        else
          && x.kind.SecurityEvent?
          && match e.reported
             case Some(at) => x.occurredAt == at && x.basis == "reported"
             case None => x.occurredAt == e.createdAt && x.basis == "ingest_fallback")
  }

  ghost predicate Recorded(s: Source, x: Entry, kind: Kind, id: string, at: int, eventId: string) {
    && x.kind == kind && x.entryId == id && x.occurredAt == at && x.recordedAt == at && x.basis == "system"
    && RefersTo(s, eventId, x.refs)
  }

  ghost predicate TellsRun(s: Source, x: Entry, r: Run) {
    Recorded(s, x, Analysis, "analysis:" + r.id, r.createdAt, r.eventId)
  }

  ghost predicate TellsCheck(s: Source, x: Entry, c: Check) {
    Recorded(s, x, ValidationRun, "validation:" + c.id, c.createdAt, c.eventId)
  }

  /** The request, and the decision unless it is pending or dated before the request. */
  ghost predicate TellsApproval(s: Source, x: Entry, a: Approval) {
    var changed := if a.updatedAt == 0 then a.createdAt else a.updatedAt;
    || Recorded(s, x, ApprovalRequest, "approval-request:" + a.id, a.createdAt, a.eventId)
    || (a.status != "pending" && changed >= a.createdAt
        && Recorded(s, x, ApprovalDecision, "approval-decision:" + a.id, changed, a.eventId))
  }

  /** The creation, and the present state if the task changed since. */
  ghost predicate TellsTask(s: Source, x: Entry, t: Task) {
    var changed := if t.updatedAt == 0 then t.createdAt else t.updatedAt;
    || Recorded(s, x, ResponseTask, "response-task:" + t.id, t.createdAt, t.eventId)
    || (changed > t.createdAt
        && Recorded(s, x, ResponseTaskState, "response-task-state:" + t.id + ":" + PrintInt(changed), changed, t.eventId))
  }

  /** The event of the last approval with the id, "" without one. */
  ghost predicate ApprovalEvent(s: Source, id: string, eventId: string) {
    || (eventId == "" && forall a :: a in s.approvals ==> a.id != id)
    || (exists i :: 0 <= i < |s.approvals| && s.approvals[i].id == id && s.approvals[i].eventId == eventId
                    && forall j :: i < j < |s.approvals| ==> s.approvals[j].id != id)
  }

  ghost predicate TaskEvent(s: Source, id: string, eventId: string) {
    || (eventId == "" && forall t :: t in s.tasks ==> t.id != id)
    || (exists i :: 0 <= i < |s.tasks| && s.tasks[i].id == id && s.tasks[i].eventId == eventId
                    && forall j :: i < j < |s.tasks| ==> s.tasks[j].id != id)
  }

  ghost predicate TellsVote(s: Source, x: Entry, v: Vote) {
    exists e :: ApprovalEvent(s, v.approvalId, e)
                && Recorded(s, x, ApprovalVote, "approval-vote:" + v.approvalId + ":" + v.actor, v.createdAt, e)
  }

  ghost predicate TellsAttempt(s: Source, x: Entry, a: Attempt) {
    exists e :: TaskEvent(s, a.taskId, e) && Recorded(s, x, ResponseAttempt, "response-attempt:" + a.id, a.createdAt, e)
  }

  ghost predicate TellsAudit(s: Source, x: Entry, a: Audit) {
    Recorded(s, x, Governance, "audit:" + a.id, a.createdAt, a.eventId)
  }

  lemma {:induction false} FoundApprovalIsLast(approvals: seq<Approval>, id: string)
    ensures FindApproval(approvals, id).None? ==> forall a :: a in approvals ==> a.id != id
    ensures FindApproval(approvals, id).Some? ==>
      exists i :: 0 <= i < |approvals| && approvals[i] == FindApproval(approvals, id).value && approvals[i].id == id
                  && forall j :: i < j < |approvals| ==> approvals[j].id != id
    decreases |approvals|
  {
    if approvals != [] && approvals[|approvals| - 1].id != id {
      FoundApprovalIsLast(approvals[..|approvals| - 1], id);
      assert approvals == approvals[..|approvals| - 1] + [approvals[|approvals| - 1]];
    }
  }

  lemma {:induction false} FoundTaskIsLast(tasks: seq<Task>, id: string)
    ensures FindTask(tasks, id).None? ==> forall t :: t in tasks ==> t.id != id
    ensures FindTask(tasks, id).Some? ==>
      exists i :: 0 <= i < |tasks| && tasks[i] == FindTask(tasks, id).value && tasks[i].id == id
                  && forall j :: i < j < |tasks| ==> tasks[j].id != id
    decreases |tasks|
  {
    if tasks != [] && tasks[|tasks| - 1].id != id {
      FoundTaskIsLast(tasks[..|tasks| - 1], id);
      assert tasks == tasks[..|tasks| - 1] + [tasks[|tasks| - 1]];
    }
  }

  lemma EventEntryTells(e: Event)
    ensures TellsEvent(EventEntry(e), e)
  {
    ReplayedIs(e);
    hide EventRefs, IsReplay, Replayed;
  }

  lemma RunEntryTells(s: Source, r: Run)
    ensures TellsRun(s, RunEntry(s, r), r)
  {
    SourceRefersTo(s, r.eventId);
    hide RefersTo, SourceEventRefs;
  }

  lemma CheckEntryTells(s: Source, c: Check)
    ensures TellsCheck(s, CheckEntry(s, c), c)
  {
    SourceRefersTo(s, c.eventId);
    hide RefersTo, SourceEventRefs;
  }

  lemma ApprovalEntriesTell(s: Source, a: Approval)
    ensures forall x :: x in ApprovalEntries(s, a) ==> TellsApproval(s, x, a)
    ensures ApprovalEntries(s, a)[0].kind.ApprovalRequest?
    ensures var changed := if a.updatedAt == 0 then a.createdAt else a.updatedAt;
      if a.status != "pending" && changed >= a.createdAt
      then |ApprovalEntries(s, a)| == 2 && ApprovalEntries(s, a)[1].kind.ApprovalDecision?
      else |ApprovalEntries(s, a)| == 1
  {
    SourceRefersTo(s, a.eventId);
    hide RefersTo, SourceEventRefs;
  }

  lemma TaskEntriesTell(s: Source, t: Task)
    ensures forall x :: x in TaskEntries(s, t) ==> TellsTask(s, x, t)
    ensures TaskEntries(s, t)[0].kind.ResponseTask?
    ensures var changed := if t.updatedAt == 0 then t.createdAt else t.updatedAt;
      if changed > t.createdAt then |TaskEntries(s, t)| == 2 && TaskEntries(s, t)[1].kind.ResponseTaskState?
      else |TaskEntries(s, t)| == 1
  {
    SourceRefersTo(s, t.eventId);
    hide RefersTo, SourceEventRefs, PrintInt;
  }

  lemma VoteEntryTells(s: Source, v: Vote)
    ensures TellsVote(s, VoteEntry(s, v), v)
  {
    var a := FindApproval(s.approvals, v.approvalId);
    var e := if a.Some? then a.value.eventId else "";
    FoundApprovalIsLast(s.approvals, v.approvalId);
    SourceRefersTo(s, e);
    hide RefersTo, SourceEventRefs, FindApproval;
    assert ApprovalEvent(s, v.approvalId, e);
  }

  lemma AttemptEntryTells(s: Source, a: Attempt)
    ensures TellsAttempt(s, AttemptEntry(s, a), a)
  {
    var t := FindTask(s.tasks, a.taskId);
    var e := if t.Some? then t.value.eventId else "";
    FoundTaskIsLast(s.tasks, a.taskId);
    SourceRefersTo(s, e);
    hide RefersTo, SourceEventRefs, FindTask;
    assert TaskEvent(s, a.taskId, e);
  }

  lemma AuditEntryTells(s: Source, a: Audit)
    ensures TellsAudit(s, AuditEntry(s, a), a)
  {
    SourceRefersTo(s, a.eventId);
    hide RefersTo, SourceEventRefs;
  }

  lemma EachHas<T, U>(f: T -> U, items: seq<T>)
    ensures forall x :: x in Each(f, items) <==> exists t :: t in items && x == f(t)
  {
    forall x | x in Each(f, items) ensures exists t :: t in items && x == f(t) {
      var i :| 0 <= i < |items| && Each(f, items)[i] == x;
      assert items[i] in items;
    }
    forall t | t in items ensures f(t) in Each(f, items) {
      var i :| 0 <= i < |items| && items[i] == t;
      assert Each(f, items)[i] == f(t);
    }
  }

  lemma {:induction false} EachOfHas<T, U>(f: T -> seq<U>, items: seq<T>)
    ensures forall x :: x in EachOf(f, items) <==> exists t :: t in items && x in f(t)
    decreases |items|
  {
    if items != [] {
      EachOfHas(f, items[1..]);
      assert items == [items[0]] + items[1..];
    }
  }

  /** The entry comes from a record of the case. */
  ghost predicate Told(s: Source, x: Entry) {
    || (exists e :: e in s.events && x == EventEntry(e))
    || (exists r :: r in s.runs && x == RunEntry(s, r))
    || (exists c :: c in s.validations && x == CheckEntry(s, c))
    || (exists a :: a in s.approvals && x in ApprovalEntries(s, a))
    || (exists v :: v in s.votes && x == VoteEntry(s, v))
    || (exists t :: t in s.tasks && x in TaskEntries(s, t))
    || (exists a :: a in s.attempts && x == AttemptEntry(s, a))
    || (exists a :: a in s.audits && x == AuditEntry(s, a))
  }

  lemma ItemsAreTold(s: Source)
    ensures forall x :: x in TimelineItems(s) <==> Told(s, x)
  {
    EachHas(EventEntry, s.events);
    EachHas(r => RunEntry(s, r), s.runs);
    EachHas(c => CheckEntry(s, c), s.validations);
    EachOfHas(a => ApprovalEntries(s, a), s.approvals);
    EachHas(v => VoteEntry(s, v), s.votes);
    EachOfHas(t => TaskEntries(s, t), s.tasks);
    EachHas(a => AttemptEntry(s, a), s.attempts);
    EachHas(a => AuditEntry(s, a), s.audits);
    hide EventEntry, RunEntry, CheckEntry, ApprovalEntries, VoteEntry, TaskEntries, AttemptEntry, AuditEntry, Each, EachOf;
  }

  /** Behind every entry of the timeline stands a record of the case, told as it is. */
  ghost predicate TellsRecord(s: Source, x: Entry) {
    || (exists e :: e in s.events && TellsEvent(x, e))
    || (exists r :: r in s.runs && TellsRun(s, x, r))
    || (exists c :: c in s.validations && TellsCheck(s, x, c))
    || (exists a :: a in s.approvals && TellsApproval(s, x, a))
    || (exists v :: v in s.votes && TellsVote(s, x, v))
    || (exists t :: t in s.tasks && TellsTask(s, x, t))
    || (exists a :: a in s.attempts && TellsAttempt(s, x, a))
    || (exists a :: a in s.audits && TellsAudit(s, x, a))
  }

  lemma ToldTells(s: Source, x: Entry)
    requires Told(s, x)
    ensures TellsRecord(s, x)
  {
    hide EventEntry, RunEntry, CheckEntry, ApprovalEntries, VoteEntry, TaskEntries, AttemptEntry, AuditEntry;
    hide TellsEvent, TellsRun, TellsCheck, TellsApproval, TellsVote, TellsTask, TellsAttempt, TellsAudit;
    if e :| e in s.events && x == EventEntry(e) { EventEntryTells(e); }
    else if r :| r in s.runs && x == RunEntry(s, r) { RunEntryTells(s, r); }
    else if c :| c in s.validations && x == CheckEntry(s, c) { CheckEntryTells(s, c); }
    else if a :| a in s.approvals && x in ApprovalEntries(s, a) { ApprovalEntriesTell(s, a); }
    else if v :| v in s.votes && x == VoteEntry(s, v) { VoteEntryTells(s, v); }
    else if t :| t in s.tasks && x in TaskEntries(s, t) { TaskEntriesTell(s, t); }
    else if a :| a in s.attempts && x == AttemptEntry(s, a) { AttemptEntryTells(s, a); }
    else if a :| a in s.audits && x == AuditEntry(s, a) { AuditEntryTells(s, a); }
  }

  /** Every record of the case is told by an entry. */
  ghost predicate AllTold(s: Source, items: seq<Entry>) {
    && (forall e :: e in s.events ==> exists x :: x in items && TellsEvent(x, e))
    && (forall r :: r in s.runs ==> exists x :: x in items && TellsRun(s, x, r))
    && (forall c :: c in s.validations ==> exists x :: x in items && TellsCheck(s, x, c))
    && (forall a :: a in s.approvals ==> exists x :: x in items && x.kind.ApprovalRequest? && TellsApproval(s, x, a))
    && (forall a :: a in s.approvals && a.status != "pending" && (a.updatedAt == 0 || a.updatedAt >= a.createdAt) ==>
          exists x :: x in items && x.kind.ApprovalDecision? && TellsApproval(s, x, a))
    && (forall v :: v in s.votes ==> exists x :: x in items && TellsVote(s, x, v))
    && (forall t :: t in s.tasks ==> exists x :: x in items && x.kind.ResponseTask? && TellsTask(s, x, t))
    && (forall t :: t in s.tasks && t.updatedAt != 0 && t.updatedAt > t.createdAt ==>
          exists x :: x in items && x.kind.ResponseTaskState? && TellsTask(s, x, t))
    && (forall a :: a in s.attempts ==> exists x :: x in items && TellsAttempt(s, x, a))
    && (forall a :: a in s.audits ==> exists x :: x in items && TellsAudit(s, x, a))
  }

  lemma DecisionsTold(s: Source)
    requires forall x :: x in TimelineItems(s) <==> Told(s, x)
    ensures forall a :: a in s.approvals && a.status != "pending" && (a.updatedAt == 0 || a.updatedAt >= a.createdAt) ==>
              exists x :: x in TimelineItems(s) && x.kind.ApprovalDecision? && TellsApproval(s, x, a)
    ensures forall a :: a in s.approvals ==>
              exists x :: x in TimelineItems(s) && x.kind.ApprovalRequest? && TellsApproval(s, x, a)
  {
    hide TimelineItems, EventEntry, RunEntry, CheckEntry, ApprovalEntries, VoteEntry, TaskEntries, AttemptEntry, AuditEntry;
    hide TellsApproval;
    forall a | a in s.approvals
      ensures a.status != "pending" && (a.updatedAt == 0 || a.updatedAt >= a.createdAt) ==>
        exists x :: x in TimelineItems(s) && x.kind.ApprovalDecision? && TellsApproval(s, x, a)
      ensures exists x :: x in TimelineItems(s) && x.kind.ApprovalRequest? && TellsApproval(s, x, a)
    {
      ApprovalEntriesTell(s, a);
      assert ApprovalEntries(s, a)[0] in ApprovalEntries(s, a);
      if |ApprovalEntries(s, a)| == 2 { assert ApprovalEntries(s, a)[1] in ApprovalEntries(s, a); }
    }
  }

  lemma TasksTold(s: Source)
    requires forall x :: x in TimelineItems(s) <==> Told(s, x)
    ensures forall t :: t in s.tasks ==> exists x :: x in TimelineItems(s) && x.kind.ResponseTask? && TellsTask(s, x, t)
    ensures forall t :: t in s.tasks && t.updatedAt != 0 && t.updatedAt > t.createdAt ==>
              exists x :: x in TimelineItems(s) && x.kind.ResponseTaskState? && TellsTask(s, x, t)
  {
    hide TimelineItems, EventEntry, RunEntry, CheckEntry, ApprovalEntries, VoteEntry, TaskEntries, AttemptEntry, AuditEntry;
    hide TellsTask;
    forall t | t in s.tasks
      ensures exists x :: x in TimelineItems(s) && x.kind.ResponseTask? && TellsTask(s, x, t)
      ensures t.updatedAt != 0 && t.updatedAt > t.createdAt ==>
        exists x :: x in TimelineItems(s) && x.kind.ResponseTaskState? && TellsTask(s, x, t)
    {
      TaskEntriesTell(s, t);
      assert TaskEntries(s, t)[0] in TaskEntries(s, t);
      if |TaskEntries(s, t)| == 2 { assert TaskEntries(s, t)[1] in TaskEntries(s, t); }
    }
  }

  lemma EveryRecordIsTold(s: Source)
    ensures AllTold(s, TimelineItems(s))
  {
    ItemsAreTold(s);
    hide TimelineItems, EventEntry, RunEntry, CheckEntry, ApprovalEntries, VoteEntry, TaskEntries, AttemptEntry, AuditEntry;
    hide TellsEvent, TellsRun, TellsCheck, TellsApproval, TellsVote, TellsTask, TellsAttempt, TellsAudit;
    forall e | e in s.events ensures EventEntry(e) in TimelineItems(s) && TellsEvent(EventEntry(e), e) { EventEntryTells(e); }
    forall r | r in s.runs ensures RunEntry(s, r) in TimelineItems(s) && TellsRun(s, RunEntry(s, r), r) { RunEntryTells(s, r); }
    forall c | c in s.validations ensures CheckEntry(s, c) in TimelineItems(s) && TellsCheck(s, CheckEntry(s, c), c) {
      CheckEntryTells(s, c);
    }
    forall v | v in s.votes ensures VoteEntry(s, v) in TimelineItems(s) && TellsVote(s, VoteEntry(s, v), v) { VoteEntryTells(s, v); }
    forall a | a in s.attempts ensures AttemptEntry(s, a) in TimelineItems(s) && TellsAttempt(s, AttemptEntry(s, a), a) {
      AttemptEntryTells(s, a);
    }
    forall a | a in s.audits ensures AuditEntry(s, a) in TimelineItems(s) && TellsAudit(s, AuditEntry(s, a), a) {
      AuditEntryTells(s, a);
    }
    DecisionsTold(s);
    TasksTold(s);
  }

  // ---- the order of the timeline -----------------------------------------

  /** The kinds in the order they stand at one moment. */
  function Place(k: Kind): nat {
    match k
    case SecurityEvent => 0
    case AnalysisReplay => 1
    case Analysis => 2
    case ValidationRun => 3
    case ApprovalRequest => 4
    case ApprovalVote => 5
    case ApprovalDecision => 6
    case ResponseTask => 7
    case ResponseAttempt => 8
    case ResponseTaskState => 9
    case Governance => 10
  }

  /** By when it happened, when it was recorded, kind and id. */
  predicate NotAfter(a: Entry, b: Entry) {
    || a.occurredAt < b.occurredAt
    || (a.occurredAt == b.occurredAt
        && (|| a.recordedAt < b.recordedAt
            || (a.recordedAt == b.recordedAt
                && (Place(a.kind) < Place(b.kind) || (a.kind == b.kind && StringLeq(a.entryId, b.entryId))))))
  }

  lemma KeysOrder(a: Entry, b: Entry)
    requires KeyLeq(EntryKey(a), EntryKey(b))
    ensures NotAfter(a, b)
  {
    hide StringLeq;
    if a.kind == b.kind && a.entryId == b.entryId { StringLeqTotal(a.entryId, b.entryId); }
  }

  /** The timeline is ordered, and holds the first 2000 entries: none left out is before one shown. */
  lemma TimelineIsFirst(s: Source) returns (rest: seq<Entry>)
    ensures var shown := BuildTimeline(s);
      && multiset(shown) + multiset(rest) == multiset(TimelineItems(s))
      && |shown| == (if |TimelineItems(s)| < 2000 then |TimelineItems(s)| else 2000)
      && (forall i, j :: 0 <= i < j < |shown| ==> NotAfter(shown[i], shown[j]))
      && (forall x, y :: x in shown && y in rest ==> NotAfter(x, y))
  {
    hide TimelineItems, SortBy, NotAfter, EntryKey, KeyLeq;
    var sorted := SortBy(EntryKey, TimelineItems(s));
    SortSorts(EntryKey, TimelineItems(s));
    SortMembers(EntryKey, TimelineItems(s));
    var shown := BuildTimeline(s);
    rest := sorted[|shown|..];
    assert sorted == shown + rest;
    forall i, j | 0 <= i < j < |sorted| ensures NotAfter(sorted[i], sorted[j]) {
      KeysOrder(sorted[i], sorted[j]);
    }
    forall x, y | x in shown && y in rest ensures NotAfter(x, y) {
      var i :| 0 <= i < |shown| && shown[i] == x;
      var j :| 0 <= j < |rest| && rest[j] == y;
      assert NotAfter(sorted[i], sorted[|shown| + j]);
    }
  }

  // ---- what a response pack shows ----------------------------------------

  /** The event a response pack is about: that of the latest run if it is stored, otherwise the newest
      event that is no replay, otherwise the newest. */
  ghost predicate IsAbout(s: Source, e: Event) {
    var runs := if s.runs == [] then "" else s.runs[0].eventId;
    if exists x :: x in s.events && x.id == runs
    then exists i :: 0 <= i < |s.events| && s.events[i] == e && e.id == runs && forall j :: i < j < |s.events| ==> s.events[j].id != runs
    else if exists x :: x in s.events && !IsReplay(x)
    then exists i :: 0 <= i < |s.events| && s.events[i] == e && !IsReplay(e) && forall j :: i < j < |s.events| ==> IsReplay(s.events[j])
    else s.events != [] && e == s.events[|s.events| - 1]
  }

  lemma {:induction false} NonReplaysLast(events: seq<Event>)
    ensures NonReplays(events) == [] <==> forall e :: e in events ==> IsReplay(e)
    ensures NonReplays(events) != [] ==>
      exists i :: 0 <= i < |events| && events[i] == NonReplays(events)[|NonReplays(events)| - 1] && !IsReplay(events[i])
                  && forall j :: i < j < |events| ==> IsReplay(events[j])
    decreases |events|
  {
    hide IsReplay;
    if events != [] {
      var rest := events[1..];
      NonReplaysLast(rest);
      assert events == [events[0]] + rest;
      if NonReplays(rest) != [] {
        var i :| 0 <= i < |rest| && rest[i] == NonReplays(rest)[|NonReplays(rest)| - 1] && !IsReplay(rest[i])
                 && forall j :: i < j < |rest| ==> IsReplay(rest[j]);
        assert events[i + 1] == NonReplays(events)[|NonReplays(events)| - 1];
        forall j | i + 1 < j < |events| ensures IsReplay(events[j]) { assert rest[j - 1] == events[j]; }
      } else if !IsReplay(events[0]) {
        assert NonReplays(events) == [events[0]];
        forall j | 0 < j < |events| ensures IsReplay(events[j]) { assert rest[j - 1] == events[j] && rest[j - 1] in rest; }
      }
    }
  }

  lemma LatestIsAbout(s: Source)
    ensures LatestEvent(s) == [] <==> s.events == []
    ensures LatestEvent(s) != [] ==> |LatestEvent(s)| == 1 && IsAbout(s, LatestEvent(s)[0])
    ensures LatestRefs(s) == if s.events == [] then [] else EventRefs(LatestEvent(s)[0])
  {
    hide IsReplay, EventRefs, NonReplays, FindEvent;
    FoundIsLast(s.events, if s.runs == [] then "" else s.runs[0].eventId);
    NonReplaysLast(s.events);
    if FindEvent(s.events, if s.runs == [] then "" else s.runs[0].eventId).None? {
      if NonReplays(s.events) != [] {
        assert LatestEvent(s) == [NonReplays(s.events)[|NonReplays(s.events)| - 1]];
      } else if s.events != [] {
        assert LatestEvent(s) == [s.events[|s.events| - 1]];
      }
    }
  }

  /** The newest entries of the timeline, twelve at most. */
  lemma PreviewIsNewest(s: Source, x: Inputs)
    ensures var timeline, preview := BuildTimeline(s), BuildPack(s, x).preview;
      |preview| == (if |timeline| < 12 then |timeline| else 12) && preview == timeline[|timeline| - |preview|..]
  {
    hide BuildTimeline, KeyFacts, Contain, Steps, TaskLines, LatestRefs;
  }

  /** The security events of a list are those of its front and, if it is one, its last entry. */
  lemma {:induction false} SecurityEventsAre(items: seq<Entry>, x: Entry)
    ensures SecurityEvents(items + [x]) == SecurityEvents(items) + (if x.kind == SecurityEvent then [x] else [])
    ensures SecurityEvents([]) == []
    decreases |items|
  {
    var more := items + [x];
    if items == [] {
      assert more[1..] == [];
    } else {
      assert more[1..] == items[1..] + [x];
      SecurityEventsAre(items[1..], x);
      var own := if items[0].kind.SecurityEvent? then [items[0]] else [];
      var added := if x.kind == SecurityEvent then [x] else [];
      assert SecurityEvents(more) == own + SecurityEvents(items[1..] + [x]);
      ConcatAssociative(own, SecurityEvents(items[1..]), added);
    }
  }

  function FactOf(e: Entry): Fact { Fact(e.entryId, e.basis, e.refs) }

  lemma EventsShown(findings: seq<string>, timeline: seq<Entry>)
    ensures var events := SecurityEvents(timeline);
      var room := if |findings| == 0 then 5 else if |findings| < 8 then 1 else 0;
      FactEntries(findings, timeline) == if |events| < room then events else events[|events| - room..]
  {
    hide SecurityEvents;
  }

  lemma KeyFactsAre(s: Source, findings: seq<string>, timeline: seq<Entry>)
    ensures var facts := KeyFacts(s, findings, timeline);
      var found := if |findings| < 8 then |findings| else 8;
      var events := SecurityEvents(timeline);
      var room := if found == 0 then 5 else if found < 8 then 1 else 0;
      var shown := if |events| < room then |events| else room;
      && |facts| == found + shown
      && (forall i :: 0 <= i < found ==> facts[i] == Fact(findings[i], "system", LatestRefs(s)))
      && (forall j :: found <= j < |facts| ==> facts[j] == FactOf(events[|events| - |facts| + j]))
  {
    EventsShown(findings, timeline);
    hide SecurityEvents, FactEntries, LatestRefs;
  }

  /** The facts: at most eight confirmed findings, each on the references of the event the response pack
      is about; then the newest security events, five without findings, one beside up to seven,
      none beside eight. */
  lemma FactsAre(s: Source, x: Inputs)
    ensures var facts := BuildPack(s, x).keyFacts;
      var found := if |x.findings| < 8 then |x.findings| else 8;
      var events := SecurityEvents(BuildTimeline(s));
      var room := if found == 0 then 5 else if found < 8 then 1 else 0;
      var shown := if |events| < room then |events| else room;
      && |facts| == found + shown
      && (forall i :: 0 <= i < found ==> facts[i] == Fact(x.findings[i], "system", LatestRefs(s)))
      && (forall j :: found <= j < |facts| ==> facts[j] == FactOf(events[|events| - |facts| + j]))
  {
    KeyFactsAre(s, x.findings, BuildTimeline(s));
    hide BuildTimeline, LatestRefs, Contain, Steps, TaskLines, SecurityEvents, KeyFacts;
  }

  /** A step of the playbook is an action of the analysis, told once. */
  lemma {:induction false} StepsAreNew(actions: seq<string>, refs: seq<string>, seen: set<string>, room: nat)
    ensures var steps := Steps(actions, refs, seen, room);
      && |steps| <= room
      && (forall i :: 0 <= i < |steps| ==>
            steps[i].action in actions && steps[i].action != "" && steps[i].action !in seen && steps[i].refs == refs)
      && (forall i, j :: 0 <= i < j < |steps| ==> steps[i].action != steps[j].action)
    decreases |actions|
  {
    if actions != [] && room > 0 {
      if actions[0] == "" || actions[0] in seen {
        StepsAreNew(actions[1..], refs, seen, room);
      } else {
        StepsAreNew(actions[1..], refs, seen + {actions[0]}, room - 1);
        assert Steps(actions, refs, seen, room) == [Step(actions[0], refs)] + Steps(actions[1..], refs, seen + {actions[0]}, room - 1);
      }
    }
  }

  predicate HasStep(steps: seq<Step>, action: string) { exists i :: 0 <= i < |steps| && steps[i].action == action }

  lemma HasStepAfter(first: Step, rest: seq<Step>, action: string)
    ensures HasStep([first] + rest, action) <==> first.action == action || HasStep(rest, action)
  {
    var steps := [first] + rest;
    if i :| 0 <= i < |rest| && rest[i].action == action { assert steps[i + 1].action == action; }
    if first.action == action { assert steps[0].action == action; }
  }

  /** While there is room, no action is left out. */
  lemma {:induction false} StepsAreAll(actions: seq<string>, refs: seq<string>, seen: set<string>, room: nat, action: string)
    requires action in actions && action != "" && action !in seen && |Steps(actions, refs, seen, room)| < room
    ensures HasStep(Steps(actions, refs, seen, room), action)
    decreases |actions|
  {
    hide HasStep;
    var rest := actions[1..];
    assert actions == [actions[0]] + rest;
    if actions[0] == "" || actions[0] in seen {
      StepsAreAll(rest, refs, seen, room, action);
    } else {
      var more := Steps(rest, refs, seen + {actions[0]}, room - 1);
      assert Steps(actions, refs, seen, room) == [Step(actions[0], refs)] + more;
      HasStepAfter(Step(actions[0], refs), more, action);
      if action != actions[0] { StepsAreAll(rest, refs, seen + {actions[0]}, room - 1, action); }
    }
  }

  /** The playbook: first the verification, then the other actions once each, all of them
      unless there are twelve steps, each on the references of the event the response pack is about. */
  lemma PlaybookIs(s: Source, x: Inputs)
    ensures var steps := BuildPack(s, x).steps;
      && 1 <= |steps| <= 12 && steps[0] == Step("复核标准化证据与尚未闭合的证据缺口。", LatestRefs(s))
      && (forall i :: 1 <= i < |steps| ==> steps[i].action in x.actions && steps[i].action != "" && steps[i].refs == LatestRefs(s))
      && (forall i, j :: 0 <= i < j < |steps| ==> steps[i].action != steps[j].action)
      && (|steps| < 12 ==> forall a :: a in x.actions && a != "" ==> HasStep(steps, a))
  {
    hide BuildTimeline, KeyFacts, LatestRefs, Contain, TaskLines, Steps, HasStep;
    var refs := LatestRefs(s);
    var rest := Steps(x.actions, refs, {VERIFY_ACTION}, MAX_PLAYBOOK_STEPS - 1);
    StepsAreNew(x.actions, refs, {VERIFY_ACTION}, MAX_PLAYBOOK_STEPS - 1);
    var steps := BuildPack(s, x).steps;
    assert steps == [Step(VERIFY_ACTION, refs)] + rest;
    if |steps| < 12 {
      forall a | a in x.actions && a != "" ensures HasStep(steps, a) {
        HasStepAfter(Step(VERIFY_ACTION, refs), rest, a);
        if a != VERIFY_ACTION { StepsAreAll(x.actions, refs, {VERIFY_ACTION}, MAX_PLAYBOOK_STEPS - 1, a); }
      }
    }
  }

  /** Containment is offered exactly for a malicious or suspicious case with an event whose
      source compiles, may be routed exactly after a passed validation of an open case, and the
      finer candidate beside it, for a web request with host and path, is always blocked. */
  lemma ContainmentIs(s: Source, x: Inputs)
    ensures var p := BuildPack(s, x);
      var offered := s.classification in {"malicious", "suspicious"} && s.events != [] && x.compiled.Some?;
      && |p.options| == (if offered then 1 else 0)
      && (offered ==>
            var routable := s.validations != [] && s.validations[0].status == "passed" && !s.terminal;
            p.options == [Containment("block_ip", "network.source_ip", "source_ip_and_ttl_only", x.compiled.value.ip, LatestRefs(s), routable)])
      && p.candidate == if offered && x.compiled.value.product == "waf" && x.compiled.value.host != "" && x.compiled.value.path != ""
                        then [Candidate("blocked", false, LatestRefs(s))] else []
  {
    LatestIsAbout(s);
    hide BuildTimeline, KeyFacts, LatestRefs, LatestEvent, TaskLines, Steps;
    var compiled := Contain(s, x.compiled);
    if compiled != [] {
      assert compiled == [x.compiled.value] && compiled[1..] == [];
      assert EachOf(c => FineGrained(s, c), compiled[1..]) == [];
      assert BuildPack(s, x).candidate == FineGrained(s, x.compiled.value) + [];
    }
  }

  // ---- which list a task is in -------------------------------------------

  function LineOf(s: Source, t: Task): TaskLine { TaskLine(t.id, t.status, SourceEventRefs(s, t.eventId)) }

  lemma {:induction false} LinesAre(s: Source, tasks: seq<Task>, states: set<string>)
    ensures forall l :: l in TaskLines(s, tasks, states) <==> exists t :: t in tasks && t.status in states && l == LineOf(s, t)
    decreases |tasks|
  {
    hide SourceEventRefs;
    if tasks != [] {
      LinesAre(s, tasks[1..], states);
      assert tasks == [tasks[0]] + tasks[1..];
      assert TaskLines(s, tasks, states) == (if tasks[0].status in states then [LineOf(s, tasks[0])] else []) + TaskLines(s, tasks[1..], states);
    }
  }

  predicate IsUnderWay(status: string) {
    status in {"waiting_configuration", "waiting_dispatch", "paused", "queued", "running", "retry_wait",
               "rollback_queued", "rollback_running", "rollback_retry"}
  }

  /** Every task is reported where it belongs and nowhere else: what was enforced or rolled
      back as taken, what only simulated as a simulation, what waits or runs as pending, and
      what failed as an exception. */
  lemma TasksAreReported(s: Source, x: Inputs)
    ensures var p := BuildPack(s, x);
      && (forall l :: l in p.taken <==> exists t :: t in s.tasks && t.status in {"verified", "rolled_back"} && l == LineOf(s, t))
      && (forall l :: l in p.simulations <==> exists t :: t in s.tasks && t.status == "shadowed" && l == LineOf(s, t))
      && (forall l :: l in p.exceptions <==> exists t :: t in s.tasks && t.status in {"failed", "rollback_failed"} && l == LineOf(s, t))
      && (forall l :: l in p.pending <==> exists t :: t in s.tasks && IsUnderWay(t.status) && l == LineOf(s, t))
  {
    LinesAre(s, s.tasks, TAKEN);
    LinesAre(s, s.tasks, SIMULATED);
    LinesAre(s, s.tasks, PENDING);
    LinesAre(s, s.tasks, FAILED);
    hide LineOf, TaskLines, BuildTimeline, KeyFacts, LatestRefs, Contain, Steps;
  }

  /** A simulation is never reported as an action taken, nor anything else in two lists. */
  lemma SimulationsAreNotActions(s: Source, x: Inputs, l: TaskLine)
    ensures var p := BuildPack(s, x);
      && (l in p.taken ==> l.state in {"verified", "rolled_back"})
      && (l in p.simulations ==> l.state == "shadowed")
      && (l in p.taken ==> l !in p.simulations && l !in p.pending && l !in p.exceptions)
      && (l in p.simulations ==> l !in p.pending && l !in p.exceptions)
      && (l in p.pending ==> l !in p.exceptions)
  {
    TasksAreReported(s, x);
    hide BuildPack, SourceEventRefs;
  }

  // ---- the validator on any response pack --------------------------------

  /** What each check asks of any response pack and manifest, and that all ten must hold. */
  lemma ChecksAsk(s: Source, p: Pack, manifest: set<ManifestRow>)
    ensures var c := RunChecks(s, p, manifest);
      var cited := Collect(PackTree(p));
      && (c.evidenceAvailable <==> AllowedRefs(s.events) != {})
      && (c.citationsResolve <==> cited != {} && cited <= AllowedRefs(s.events))
      && (c.manifestComplete <==> cited == ManifestIds(manifest))
      && (c.serverTimestamped <==> forall e :: e in p.preview ==> e.basis == "reported" || e.basis == "ingest_fallback" || e.basis == "system")
      && (c.containmentAllowlisted <==> forall o :: o in p.options ==> o.actionType == "block_ip")
      && (c.containmentBounded <==>
            forall o :: o in p.options ==> o.capability == "network.source_ip" && o.guarantee == "source_ip_and_ttl_only")
      && (c.candidateBlocked <==> forall k :: k in p.candidate ==> k.state == "blocked" && !k.routingEligible)
      && (c.executionBlocked <==> !p.directExecution) && (c.deliveryBlocked <==> !p.directDelivery)
      && (c.internalDraft <==> p.audience == "internal_soc_and_business_owner" && p.deliveryState == "not_sent")
  {
    hide Collect, PackTree, AllowedRefs, ManifestIds;
  }

  /** The status for any outcome of the checks: blocked without evidence or resolving citations,
      then as the latest validation says, and passed only if every check holds. */
  lemma StatusFollows(s: Source, c: Checks)
    ensures var verdict := if s.validations == [] then "" else s.validations[0].status;
      && (StatusOf(s, c) == Passed <==>
            verdict == "passed" && c == Checks(true, true, true, true, true, true, true, true, true, true))
      && (StatusOf(s, c) == Review <==>
            c.evidenceAvailable && c.citationsResolve && verdict != "passed" && verdict != "blocked")
      && (AllHold(c) <==> c == Checks(true, true, true, true, true, true, true, true, true, true))
  {
  }
}
