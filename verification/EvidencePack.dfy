/** The evidence-cited response pack (`case_response.py`): the timeline, the assembled
    pack with its citations, the citation manifest and the validator. */
module EvidencePack {
  import opened Common
  import opened Decimals
  import opened PyText
  import opened Sorting

  // ---- what a case offers ------------------------------------------------

  /** One evidence item of an event: not an object, or an object with its own
      reference ("" if absent) and the reference inside its value. */
  datatype Evidence = Loose | Item(ref: string, valueRef: string, replay: bool)

  /** `reported` is the event's own timestamp where it can be parsed. */
  datatype Event = Event(
    id: string, evidence: seq<Evidence>, createdAt: int, reported: Option<int>, replay: bool)

  datatype Run = Run(id: string, eventId: string, createdAt: int)
  datatype Check = Check(id: string, eventId: string, status: string, createdAt: int)
  datatype Approval = Approval(id: string, eventId: string, status: string, createdAt: int, updatedAt: int)
  datatype Vote = Vote(approvalId: string, actor: string, createdAt: int)
  datatype Task = Task(id: string, eventId: string, status: string, createdAt: int, updatedAt: int)
  datatype Attempt = Attempt(id: string, taskId: string, createdAt: int)
  datatype Audit = Audit(id: string, eventId: string, createdAt: int)

  /** The case's collections, newest run and validation first, oldest event first. */
  datatype Source = Source(
    classification: string,
    terminal: bool,
    events: seq<Event>,
    runs: seq<Run>,
    validations: seq<Check>,
    approvals: seq<Approval>,
    votes: seq<Vote>,
    tasks: seq<Task>,
    attempts: seq<Attempt>,
    audits: seq<Audit>)

  datatype Compiled = Compiled(ip: string, product: string, host: string, path: string)

  /** What other components contribute: the confirmed findings of the latest analysis,
      its further actions (bounded and case-folded), and the compiled containment of the latest event. */
  datatype Inputs = Inputs(findings: seq<string>, actions: seq<string>, compiled: Option<Compiled>)

  // ---- references of one event -------------------------------------------

  const MAX_EVIDENCE_REFS := 64
  const REFS_SHOWN := 8

  function RefOf(e: Evidence): string {
    match e
    case Loose => ""
    case Item(ref, valueRef, _) => Strip(if ref != "" then ref else valueRef)
  }

  /** The distinct references in order, at most 64. */
  function CollectRefs(evidence: seq<Evidence>, refs: seq<string>): seq<string> {
    if evidence == [] then refs
    else
      var ref := RefOf(evidence[0]);
      if ref == "" || ref in refs then CollectRefs(evidence[1..], refs)
      else if |refs| + 1 >= MAX_EVIDENCE_REFS then refs + [ref]
      else CollectRefs(evidence[1..], refs + [ref])
  }

  predicate EndsWith(s: string, suffix: string) { |suffix| <= |s| && s[|s| - |suffix|..] == suffix }

  /** Plain identifiers first, then the listed fields, then everything else. */
  function RefPriority(ref: string): int {
    if Without(ref, ':') then 0
    else if EndsWith(ref, ":rule_id") then 1
    else if EndsWith(ref, ":src_ip") then 2
    else if EndsWith(ref, ":dst_ip") then 3
    else if EndsWith(ref, ":uri") then 4
    else if EndsWith(ref, ":method") then 5
    else if EndsWith(ref, ":action") then 6
    else if EndsWith(ref, ":status") then 7
    else 20
  }

  function RefKey(ref: string): SortKey { SortKey(RefPriority(ref), 0, 0, "", "") }

  /** References before the final ordering and cut. */
  function KnownRefs(e: Event): seq<string> {
    var refs := CollectRefs(e.evidence, []);
    if refs == [] && e.id != "" then [e.id] else refs
  }

  function EventRefs(e: Event): seq<string> {
    First(SortBy(RefKey, KnownRefs(e)), REFS_SHOWN)
  }

  /** `_event_refs`. */
  method ListEventRefs(e: Event) returns (r: seq<string>)
    ensures r == EventRefs(e)
  {
    hide RefOf, RefPriority, SortBy;
    var refs: seq<string> := [];
    var i := 0;
    var full := false;
    while i < |e.evidence| && !full
      invariant i <= |e.evidence|
      invariant CollectRefs(e.evidence, [])
             == if full then refs else CollectRefs(e.evidence[i..], refs)
    {
      assert e.evidence[i..][0] == e.evidence[i] && e.evidence[i..][1..] == e.evidence[i + 1..];
      var ref := RefOf(e.evidence[i]);
      if ref != "" && ref !in refs {
        full := |refs| + 1 >= MAX_EVIDENCE_REFS;
        refs := refs + [ref];
      }
      i := i + 1;
    }
    assert !full ==> e.evidence[i..] == [];
    assert refs == CollectRefs(e.evidence, []);
    if refs == [] && e.id != "" { refs := refs + [e.id]; }
    assert refs == KnownRefs(e);
    r := First(SortBy(RefKey, refs), REFS_SHOWN);
  }

  /** The event carries a reference that a citation can name. */
  predicate Identified(e: Event) { exists r :: r in EventRefs(e) && Strip(r) != "" }

  lemma {:induction false} CollectedRefs(evidence: seq<Evidence>, refs: seq<string>)
    ensures refs <= CollectRefs(evidence, refs)
    ensures forall r :: r in CollectRefs(evidence, refs) ==> r in refs || exists e :: e in evidence && RefOf(e) == r != ""
    ensures (forall e :: e in evidence ==> RefOf(e) == "" || RefOf(e) in refs) <==> CollectRefs(evidence, refs) == refs
    decreases |evidence|
  {
    hide RefOf;
    if evidence != [] {
      var ref := RefOf(evidence[0]);
      assert evidence[0] in evidence;
      if ref == "" || ref in refs {
        CollectedRefs(evidence[1..], refs);
        assert forall e :: e in evidence <==> e == evidence[0] || e in evidence[1..];
      } else if |refs| + 1 < MAX_EVIDENCE_REFS {
        CollectedRefs(evidence[1..], refs + [ref]);
      }
    }
  }

  lemma TrimmedRef(e: Evidence)
    ensures Strip(RefOf(e)) == RefOf(e)
  {
    match e
    case Loose => assert Strip("") == "";
    case Item(ref, valueRef, _) => StripTrims(if ref != "" then ref else valueRef);
  }

  lemma EmptyStrips()
    ensures Strip("") == ""
  {
  }

  /** Only known references are shown, and at least one if there is any. */
  lemma EventRefsShown(e: Event)
    ensures forall r :: r in EventRefs(e) ==> r in KnownRefs(e)
    ensures KnownRefs(e) != [] ==> EventRefs(e) != []
    ensures |EventRefs(e)| <= REFS_SHOWN
  {
    SortMembers(RefKey, KnownRefs(e));
  }

  /** An event is identified if its id is not blank or any evidence item has a reference. */
  lemma IdentifiedExactly(e: Event)
    ensures Identified(e) <==> (Strip(e.id) != "" || exists x :: x in e.evidence && RefOf(x) != "")
  {
    hide Strip, RefOf, RefPriority, SortBy, CollectRefs;
    var refs := CollectRefs(e.evidence, []);
    CollectedRefs(e.evidence, []);
    EventRefsShown(e);
    if refs == [] {
      if Strip(e.id) != "" {
        EmptyStrips();
        assert KnownRefs(e) == [e.id];
        assert EventRefs(e)[0] in EventRefs(e);
      }
    } else {
      forall r | r in refs
        ensures Strip(r) != ""
      {
        var x :| x in e.evidence && RefOf(x) == r;
        TrimmedRef(x);
      }
      assert EventRefs(e)[0] in EventRefs(e) && refs[0] in refs;
      var x :| x in e.evidence && RefOf(x) == refs[0];
    }
  }

  lemma {:induction false} CollectedAreDistinct(evidence: seq<Evidence>, refs: seq<string>)
    requires Distinct(refs) && |refs| < MAX_EVIDENCE_REFS
    ensures Distinct(CollectRefs(evidence, refs)) && |CollectRefs(evidence, refs)| <= MAX_EVIDENCE_REFS
    decreases |evidence|
  {
    hide RefOf;
    if evidence != [] {
      var ref := RefOf(evidence[0]);
      if ref == "" || ref in refs {
        CollectedAreDistinct(evidence[1..], refs);
      } else if |refs| + 1 < MAX_EVIDENCE_REFS {
        CollectedAreDistinct(evidence[1..], refs + [ref]);
      }
    }
  }

  /** The references shown are distinct, ordered by priority, and no known reference
      that is left out has a better priority than one that is shown. */
  lemma ShownRefsAreBest(e: Event)
    ensures Distinct(EventRefs(e)) && Sorted(RefKey, EventRefs(e))
    ensures |EventRefs(e)| == Min(REFS_SHOWN, |KnownRefs(e)|)
    ensures forall r, left :: r in EventRefs(e) && left in KnownRefs(e) && left !in EventRefs(e) ==>
              RefPriority(r) <= RefPriority(left)
  {
    hide RefPriority, RefOf, CollectRefs, SortBy;
    CollectedAreDistinct(e.evidence, []);
    var known, sorted := KnownRefs(e), SortBy(RefKey, KnownRefs(e));
    SortSorts(RefKey, known);
    SortMembers(RefKey, known);
    DistinctBySize(known);
    DistinctBySize(sorted);
    var shown := EventRefs(e);
    forall r, left | r in shown && left in known && left !in shown
      ensures RefPriority(r) <= RefPriority(left)
    {
      var i :| 0 <= i < |shown| && shown[i] == r;
      assert left in sorted;
      var j :| 0 <= j < |sorted| && sorted[j] == left;
      assert j >= |shown|;
      assert KeyLeq(RefKey(sorted[i]), RefKey(sorted[j]));
    }
  }

  // ---- the timeline ------------------------------------------------------

  datatype Kind = SecurityEvent | AnalysisReplay | Analysis | ValidationRun | ApprovalRequest | ApprovalVote
                | ApprovalDecision | ResponseTask | ResponseAttempt | ResponseTaskState | Governance

  function KindOrder(k: Kind): int {
    match k
    case SecurityEvent => 10
    case AnalysisReplay => 15
    case Analysis => 20
    case ValidationRun => 30
    case ApprovalRequest => 40
    case ApprovalVote => 45
    case ApprovalDecision => 50
    case ResponseTask => 60
    case ResponseAttempt => 65
    case ResponseTaskState => 70
    case Governance => 80
  }

  /** Where an entry's time comes from. */
  const REPORTED := "reported"
  const INGEST_FALLBACK := "ingest_fallback"
  const SYSTEM := "system"

  datatype Entry = Entry(
    entryId: string, kind: Kind, occurredAt: int, recordedAt: int, basis: string, refs: seq<string>)

  const MAX_TIMELINE_ITEMS := 2000
  const MAX_PACK_TIMELINE_ITEMS := 12

  function EntryKey(e: Entry): SortKey {
    SortKey(e.occurredAt, e.recordedAt, KindOrder(e.kind), e.entryId, "")
  }

  predicate IsReplay(e: Event) { e.replay || exists x :: x in e.evidence && x.Item? && x.replay }

  /** The last event with the id: later events overwrite earlier ones. */
  function FindEvent(events: seq<Event>, id: string): Option<Event> {
    if events == [] then None
    else if events[|events| - 1].id == id then Some(events[|events| - 1])
    else FindEvent(events[..|events| - 1], id)
  }

  function FindApproval(approvals: seq<Approval>, id: string): Option<Approval> {
    if approvals == [] then None
    else if approvals[|approvals| - 1].id == id then Some(approvals[|approvals| - 1])
    else FindApproval(approvals[..|approvals| - 1], id)
  }

  function FindTask(tasks: seq<Task>, id: string): Option<Task> {
    if tasks == [] then None
    else if tasks[|tasks| - 1].id == id then Some(tasks[|tasks| - 1])
    else FindTask(tasks[..|tasks| - 1], id)
  }

  function SourceEventRefs(s: Source, eventId: string): seq<string> {
    match FindEvent(s.events, eventId)
    case None => []
    case Some(e) => EventRefs(e)
  }

  function OrElse(x: int, otherwise: int): int { if x != 0 then x else otherwise }

  function EventEntry(e: Event): Entry {
    if IsReplay(e) then
      Entry("event:" + e.id, AnalysisReplay, e.createdAt, e.createdAt, SYSTEM, EventRefs(e))
    else
      Entry("event:" + e.id, SecurityEvent, if e.reported.Some? then e.reported.value else e.createdAt, e.createdAt,
            if e.reported.Some? then REPORTED else INGEST_FALLBACK, EventRefs(e))
  }

  function RunEntry(s: Source, r: Run): Entry {
    Entry("analysis:" + r.id, Analysis, r.createdAt, r.createdAt, SYSTEM, SourceEventRefs(s, r.eventId))
  }

  function CheckEntry(s: Source, c: Check): Entry {
    Entry("validation:" + c.id, ValidationRun, c.createdAt, c.createdAt, SYSTEM, SourceEventRefs(s, c.eventId))
  }

  function ApprovalEntries(s: Source, a: Approval): seq<Entry> {
    var refs := SourceEventRefs(s, a.eventId);
    var updatedAt := OrElse(a.updatedAt, a.createdAt);
    [Entry("approval-request:" + a.id, ApprovalRequest, a.createdAt, a.createdAt, SYSTEM, refs)]
    + if a.status != "pending" && updatedAt >= a.createdAt
      then [Entry("approval-decision:" + a.id, ApprovalDecision, updatedAt, updatedAt, SYSTEM, refs)] else []
  }

  function VoteEntry(s: Source, v: Vote): Entry {
    var a := FindApproval(s.approvals, v.approvalId);
    Entry("approval-vote:" + v.approvalId + ":" + v.actor, ApprovalVote, v.createdAt, v.createdAt, SYSTEM,
          SourceEventRefs(s, if a.Some? then a.value.eventId else ""))
  }

  function TaskEntries(s: Source, t: Task): seq<Entry> {
    var refs := SourceEventRefs(s, t.eventId);
    var updatedAt := OrElse(t.updatedAt, t.createdAt);
    [Entry("response-task:" + t.id, ResponseTask, t.createdAt, t.createdAt, SYSTEM, refs)]
    + if updatedAt > t.createdAt
      then [Entry("response-task-state:" + t.id + ":" + PrintInt(updatedAt), ResponseTaskState, updatedAt, updatedAt, SYSTEM, refs)] else []
  }

  function AttemptEntry(s: Source, a: Attempt): Entry {
    var t := FindTask(s.tasks, a.taskId);
    Entry("response-attempt:" + a.id, ResponseAttempt, a.createdAt, a.createdAt, SYSTEM,
          SourceEventRefs(s, if t.Some? then t.value.eventId else ""))
  }

  function AuditEntry(s: Source, a: Audit): Entry {
    Entry("audit:" + a.id, Governance, a.createdAt, a.createdAt, SYSTEM, SourceEventRefs(s, a.eventId))
  }

  function Each<T, U>(f: T -> U, items: seq<T>): (r: seq<U>)
    ensures |r| == |items| && forall i :: 0 <= i < |r| ==> r[i] == f(items[i])
  {
    seq(|items|, i requires 0 <= i < |items| => f(items[i]))
  }

  function EachOf<T, U>(f: T -> seq<U>, items: seq<T>): seq<U> {
    if items == [] then [] else f(items[0]) + EachOf(f, items[1..])
  }

  function TimelineItems(s: Source): seq<Entry> {
    Each(EventEntry, s.events)
    + (Each(r => RunEntry(s, r), s.runs) + Each(c => CheckEntry(s, c), s.validations))
    + (EachOf(a => ApprovalEntries(s, a), s.approvals) + Each(v => VoteEntry(s, v), s.votes))
    + (EachOf(t => TaskEntries(s, t), s.tasks) + Each(a => AttemptEntry(s, a), s.attempts))
    + Each(a => AuditEntry(s, a), s.audits)
  }

  /** `build_case_timeline`. */
  function BuildTimeline(s: Source): seq<Entry> {
    First(SortBy(EntryKey, TimelineItems(s)), MAX_TIMELINE_ITEMS)
  }

  /** References taken over from one event of the case, or none. */
  ghost predicate FromEvents(s: Source, refs: seq<string>) {
    refs == [] || exists e :: e in s.events && refs == EventRefs(e)
  }

  lemma {:induction false} FoundEvent(events: seq<Event>, id: string)
    ensures FindEvent(events, id).Some? ==> FindEvent(events, id).value in events
    ensures FindEvent(events, id).None? <==> forall e :: e in events ==> e.id != id
    decreases |events|
  {
    if events != [] {
      FoundEvent(events[..|events| - 1], id);
      assert events == events[..|events| - 1] + [events[|events| - 1]];
    }
  }

  lemma SourceRefsFromEvents(s: Source, eventId: string)
    ensures FromEvents(s, SourceEventRefs(s, eventId))
  {
    FoundEvent(s.events, eventId);
    hide FindEvent, EventRefs;
  }

  /** A timeline entry cites one event or nothing, and its time has a server basis. */
  ghost predicate IsProper(s: Source, x: Entry) {
    FromEvents(s, x.refs) && x.basis in {REPORTED, INGEST_FALLBACK, SYSTEM}
  }

  ghost predicate AllFromEvents(s: Source, items: seq<Entry>) {
    forall x :: x in items ==> IsProper(s, x)
  }

  lemma JoinFromEvents(s: Source, a: seq<Entry>, b: seq<Entry>)
    requires AllFromEvents(s, a) && AllFromEvents(s, b)
    ensures AllFromEvents(s, a + b)
  {
    hide IsProper;
  }

  lemma NoEntries(s: Source)
    ensures AllFromEvents(s, [])
  {
  }

  lemma {:induction false} EachOfFromEvents<T>(s: Source, f: T -> seq<Entry>, items: seq<T>)
    requires forall x :: x in items ==> AllFromEvents(s, f(x))
    ensures AllFromEvents(s, EachOf(f, items))
    decreases |items|
  {
    hide AllFromEvents;
    if items != [] {
      EachOfFromEvents(s, f, items[1..]);
      assert items[0] in items;
      JoinFromEvents(s, f(items[0]), EachOf(f, items[1..]));
    } else {
      NoEntries(s);
    }
  }

  lemma EachFromEvents<T>(s: Source, f: T -> Entry, items: seq<T>)
    requires forall x :: x in items ==> IsProper(s, f(x))
    ensures AllFromEvents(s, Each(f, items))
  {
    hide IsProper;
    var r := Each(f, items);
    forall x | x in r
      ensures IsProper(s, x)
    {
      var i :| 0 <= i < |r| && r[i] == x;
      assert items[i] in items;
    }
  }

  lemma PairFromEvents(s: Source, entries: seq<Entry>, refs: seq<string>)
    requires FromEvents(s, refs) && forall x :: x in entries ==> x.refs == refs && x.basis == SYSTEM
    ensures AllFromEvents(s, entries)
  {
  }

  lemma EventEntriesFromEvents(s: Source)
    ensures AllFromEvents(s, Each(EventEntry, s.events))
  {
    forall e | e in s.events
      ensures IsProper(s, EventEntry(e))
    {
      hide EventRefs, IsReplay;
      assert EventEntry(e).refs == EventRefs(e);
    }
    EachFromEvents(s, EventEntry, s.events);
  }

  lemma JoinTimeline(s: Source)
    requires AllFromEvents(s, Each(EventEntry, s.events))
    requires AllFromEvents(s, Each(r => RunEntry(s, r), s.runs))
    requires AllFromEvents(s, Each(c => CheckEntry(s, c), s.validations))
    requires AllFromEvents(s, EachOf(a => ApprovalEntries(s, a), s.approvals))
    requires AllFromEvents(s, Each(v => VoteEntry(s, v), s.votes))
    requires AllFromEvents(s, EachOf(t => TaskEntries(s, t), s.tasks))
    requires AllFromEvents(s, Each(a => AttemptEntry(s, a), s.attempts))
    requires AllFromEvents(s, Each(a => AuditEntry(s, a), s.audits))
    ensures AllFromEvents(s, TimelineItems(s))
  {
    hide IsProper;
  }

  /** Every timeline entry cites references of one event of the case, or none. */
  lemma TimelineFromEvents(s: Source)
    ensures AllFromEvents(s, TimelineItems(s))
  {
    hide SourceEventRefs, FindApproval, FindTask, EventRefs, FromEvents, AllFromEvents, IsReplay;
    EventEntriesFromEvents(s);
    forall id: string
      ensures FromEvents(s, SourceEventRefs(s, id))
    {
      SourceRefsFromEvents(s, id);
    }
    EachFromEvents(s, r => RunEntry(s, r), s.runs);
    EachFromEvents(s, c => CheckEntry(s, c), s.validations);
    forall a
      ensures AllFromEvents(s, ApprovalEntries(s, a))
    {
      PairFromEvents(s, ApprovalEntries(s, a), SourceEventRefs(s, a.eventId));
    }
    EachOfFromEvents(s, a => ApprovalEntries(s, a), s.approvals);
    EachFromEvents(s, v => VoteEntry(s, v), s.votes);
    forall t
      ensures AllFromEvents(s, TaskEntries(s, t))
    {
      PairFromEvents(s, TaskEntries(s, t), SourceEventRefs(s, t.eventId));
    }
    EachOfFromEvents(s, t => TaskEntries(s, t), s.tasks);
    EachFromEvents(s, a => AttemptEntry(s, a), s.attempts);
    EachFromEvents(s, a => AuditEntry(s, a), s.audits);
    JoinTimeline(s);
  }

  // ---- the response pack -------------------------------------------------

  const ACTION_BLOCK_IP := "block_ip"
  const MAX_PLAYBOOK_STEPS := 12
  const MAX_CONFIRMED_FACTS := 8

  datatype Fact = Fact(text: string, basis: string, refs: seq<string>)
  datatype Step = Step(action: string, refs: seq<string>)
  datatype Containment = Containment(
    actionType: string, capability: string, guarantee: string, ip: string, refs: seq<string>, routingEligible: bool)
  datatype Candidate = Candidate(state: string, routingEligible: bool, refs: seq<string>)
  datatype TaskLine = TaskLine(taskId: string, state: string, refs: seq<string>)

  datatype Pack = Pack(
    headlineRefs: seq<string>,
    keyFacts: seq<Fact>,
    preview: seq<Entry>,
    options: seq<Containment>,
    candidate: seq<Candidate>,
    steps: seq<Step>,
    taken: seq<TaskLine>,
    pending: seq<TaskLine>,
    simulations: seq<TaskLine>,
    exceptions: seq<TaskLine>,
    directExecution: bool,
    directDelivery: bool,
    audience: string,
    deliveryState: string)

  function NonReplays(events: seq<Event>): seq<Event> {
    if events == [] then []
    else (if IsReplay(events[0]) then [] else [events[0]]) + NonReplays(events[1..])
  }

  /** The event of the latest run, otherwise the newest one that is no replay. */
  function LatestEvent(s: Source): seq<Event> {
    var byRun := FindEvent(s.events, if s.runs == [] then "" else s.runs[0].eventId);
    if byRun.Some? then [byRun.value]
    else
      var original := NonReplays(s.events);
      Last(if original != [] then original else s.events, 1)
  }

  function LatestRefs(s: Source): seq<string> {
    if LatestEvent(s) == [] then [] else EventRefs(LatestEvent(s)[0])
  }

  function SecurityEvents(items: seq<Entry>): seq<Entry> {
    if items == [] then []
    else (if items[0].kind.SecurityEvent? then [items[0]] else []) + SecurityEvents(items[1..])
  }

  /** The raw events shown as facts: one beside findings, five without. */
  function FactEntries(findings: seq<string>, timeline: seq<Entry>): seq<Entry> {
    var shown := |First(findings, MAX_CONFIRMED_FACTS)|;
    var limit := if shown > 0 then Min(1, MAX_CONFIRMED_FACTS - shown) else Min(5, MAX_CONFIRMED_FACTS);
    if limit <= 0 then [] else Last(SecurityEvents(timeline), limit)
  }

  /** Findings first; raw events fill in. */
  function KeyFacts(s: Source, findings: seq<string>, timeline: seq<Entry>): seq<Fact> {
    var refs := LatestRefs(s);
    Each(f => Fact(f, SYSTEM, refs), First(findings, MAX_CONFIRMED_FACTS))
    + Each((e: Entry) => Fact(e.entryId, e.basis, e.refs), FactEntries(findings, timeline))
  }

  function LatestStatus(s: Source): string { if s.validations == [] then "" else s.validations[0].status }

  function Contain(s: Source, compiled: Option<Compiled>): seq<Compiled> {
    if s.classification in {"malicious", "suspicious"} && LatestEvent(s) != [] && compiled.Some? then [compiled.value] else []
  }

  function OptionOf(s: Source, c: Compiled): Containment {
    Containment(ACTION_BLOCK_IP, "network.source_ip", "source_ip_and_ttl_only", c.ip, LatestRefs(s),
                LatestStatus(s) == "passed" && !s.terminal)
  }

  function FineGrained(s: Source, c: Compiled): seq<Candidate> {
    if c.product == "waf" && c.host != "" && c.path != "" then [Candidate("blocked", false, LatestRefs(s))] else []
  }

  const VERIFY_ACTION := "复核标准化证据与尚未闭合的证据缺口。"

  /** The verification step and each new action of the analysis, twelve steps at most. */
  function Steps(actions: seq<string>, refs: seq<string>, seen: set<string>, room: nat): seq<Step> {
    if actions == [] || room == 0 then []
    else if actions[0] == "" || actions[0] in seen then Steps(actions[1..], refs, seen, room)
    else [Step(actions[0], refs)] + Steps(actions[1..], refs, seen + {actions[0]}, room - 1)
  }

  function TaskLines(s: Source, tasks: seq<Task>, states: set<string>): seq<TaskLine> {
    if tasks == [] then []
    else (if tasks[0].status in states
          then [TaskLine(tasks[0].id, tasks[0].status, SourceEventRefs(s, tasks[0].eventId))] else [])
         + TaskLines(s, tasks[1..], states)
  }

  const TAKEN := {"verified", "rolled_back"}
  const SIMULATED := {"shadowed"}
  const PENDING := {"waiting_configuration", "waiting_dispatch", "paused", "queued", "running", "retry_wait",
                    "rollback_queued", "rollback_running", "rollback_retry"}
  const FAILED := {"failed", "rollback_failed"}

  /** `_build_pack`, without the texts that carry no citation. */
  function BuildPack(s: Source, x: Inputs): Pack {
    var refs := LatestRefs(s);
    var timeline := BuildTimeline(s);
    var compiled := Contain(s, x.compiled);
    Pack(
      refs,
      KeyFacts(s, x.findings, timeline),
      Last(timeline, MAX_PACK_TIMELINE_ITEMS),
      Each(c => OptionOf(s, c), compiled),
      EachOf(c => FineGrained(s, c), compiled),
      [Step(VERIFY_ACTION, refs)] + Steps(x.actions, refs, {VERIFY_ACTION}, MAX_PLAYBOOK_STEPS - 1),
      TaskLines(s, s.tasks, TAKEN),
      TaskLines(s, s.tasks, PENDING),
      TaskLines(s, s.tasks, SIMULATED),
      TaskLines(s, s.tasks, FAILED),
      false, false, "internal_soc_and_business_owner", "not_sent")
  }

  // ---- a response pack as a document -------------------------------------

  /** The keys the citation walk distinguishes. */
  datatype Key = EvidenceRefs | Named(name: string)

  datatype Tree = Atom(text: string) | List(items: seq<Tree>) | Dict(fields: seq<Field>)

  datatype Field = Field(key: Key, value: Tree)

  function RefList(refs: seq<string>): Tree { List(Each(r => Atom(r), refs)) }

  /** A record with its citations. */
  function Cited(text: string, refs: seq<string>): Tree {
    Dict([Field(Named("text"), Atom(text)), Field(EvidenceRefs, RefList(refs))])
  }

  function FactsTree(facts: seq<Fact>): Tree { List(Each((f: Fact) => Cited(f.text, f.refs), facts)) }

  function LinesTree(lines: seq<TaskLine>): Tree { List(Each((l: TaskLine) => Cited(l.taskId, l.refs), lines)) }

  function SummaryTree(p: Pack): Tree {
    Dict([Field(Named("headline_evidence_refs"), RefList(p.headlineRefs)), Field(Named("key_facts"), FactsTree(p.keyFacts))])
  }

  function PreviewTree(p: Pack): Tree { List(Each((e: Entry) => Cited(e.entryId, e.refs), p.preview)) }

  function ContainmentTree(p: Pack): Tree {
    Dict([
      Field(Named("options"), List(Each((o: Containment) => Cited(o.ip, o.refs), p.options))),
      Field(Named("fine_grained_candidate"), List(Each((c: Candidate) => Cited(c.state, c.refs), p.candidate)))])
  }

  function PlaybookTree(p: Pack): Tree { List(Each((x: Step) => Cited(x.action, x.refs), p.steps)) }

  function CommunicationTree(p: Pack): Tree {
    Dict([
      Field(Named("known_facts"), FactsTree(p.keyFacts)),
      Field(Named("actions_taken"), LinesTree(p.taken)),
      Field(Named("actions_pending"), LinesTree(p.pending)),
      Field(Named("simulations_not_production_actions"), LinesTree(p.simulations)),
      Field(Named("execution_exceptions"), LinesTree(p.exceptions))])
  }

  function PackTree(p: Pack): Tree {
    Dict([
      Field(Named("case_summary"), SummaryTree(p)),
      Field(Named("timeline_preview"), PreviewTree(p)),
      Field(Named("containment"), ContainmentTree(p)),
      Field(Named("playbook"), PlaybookTree(p)),
      Field(Named("incident_communication"), CommunicationTree(p))])
  }

  /** The references of an `evidence_refs` list that are not blank. */
  function ListedRefs(items: seq<Tree>): set<string> {
    if items == [] then {}
    else (if items[0].Atom? && Strip(items[0].text) != "" then {items[0].text} else {}) + ListedRefs(items[1..])
  }

  /** `collect`: every reference cited anywhere in the document. */
  function Collect(t: Tree): set<string> {
    match t
    case Atom(_) => {}
    case List(items) => CollectItems(items)
    case Dict(fields) => CollectFields(fields)
  }

  function CollectItems(items: seq<Tree>): set<string> {
    if items == [] then {} else Collect(items[0]) + CollectItems(items[1..])
  }

  function CollectFields(fields: seq<Field>): set<string> {
    if fields == [] then {} else CollectField(fields[0]) + CollectFields(fields[1..])
  }

  function CollectField(f: Field): set<string> {
    if f.key.EvidenceRefs? && f.value.List? then ListedRefs(f.value.items) else Collect(f.value)
  }

  /** The nonblank ones of a list of references. */
  function NonBlank(refs: seq<string>): set<string> { set r | r in refs && Strip(r) != "" }

  lemma {:induction false} ListedAreNonBlank(refs: seq<string>)
    ensures ListedRefs(Each(r => Atom(r), refs)) == NonBlank(refs)
    decreases |refs|
  {
    hide Strip;
    if refs != [] {
      assert Each(r => Atom(r), refs)[1..] == Each(r => Atom(r), refs[1..]);
      ListedAreNonBlank(refs[1..]);
      assert refs == [refs[0]] + refs[1..];
    }
  }

  lemma FieldsCollect2(a: Field, b: Field)
    ensures CollectFields([a, b]) == CollectField(a) + CollectField(b)
  {
    assert [a, b][1..] == [b] && [b][1..] == [];
    assert CollectFields([b]) == CollectField(b) + {};
    hide CollectField;
  }

  lemma CitedCollects(text: string, refs: seq<string>)
    ensures Collect(Cited(text, refs)) == NonBlank(refs)
  {
    hide ListedRefs, NonBlank, CollectFields;
    ListedAreNonBlank(refs);
    var a, b := Field(Named("text"), Atom(text)), Field(EvidenceRefs, RefList(refs));
    FieldsCollect2(a, b);
    assert Collect(Atom(text)) == {};
    assert CollectField(a) == {} && CollectField(b) == NonBlank(refs);
  }

  /** What a list of records cites. */
  function Cites(all: seq<seq<string>>): set<string> {
    if all == [] then {} else NonBlank(all[0]) + Cites(all[1..])
  }

  lemma {:induction false} RecordsCollect<T>(text: T -> string, refs: T -> seq<string>, items: seq<T>, tree: T -> Tree)
    requires forall x :: x in items ==> tree(x) == Cited(text(x), refs(x))
    ensures CollectItems(Each(tree, items)) == Cites(Each(refs, items))
    decreases |items|
  {
    hide NonBlank, Cited, Collect;
    if items != [] {
      assert Each(tree, items)[1..] == Each(tree, items[1..]);
      assert Each(refs, items)[1..] == Each(refs, items[1..]);
      assert items[0] in items;
      CitedCollects(text(items[0]), refs(items[0]));
      RecordsCollect(text, refs, items[1..], tree);
    }
  }

  function FactRefs(f: Fact): seq<string> { f.refs }
  function EntryRefs(e: Entry): seq<string> { e.refs }
  function OptionRefs(o: Containment): seq<string> { o.refs }
  function CandidateRefs(c: Candidate): seq<string> { c.refs }
  function StepRefs(x: Step): seq<string> { x.refs }
  function LineRefs(l: TaskLine): seq<string> { l.refs }

  /** Everything a response pack cites. */
  function PackRefs(p: Pack): seq<seq<string>> {
    Each(FactRefs, p.keyFacts) + Each(EntryRefs, p.preview) + Each(OptionRefs, p.options)
    + Each(CandidateRefs, p.candidate) + Each(StepRefs, p.steps) + Each(LineRefs, p.taken)
    + Each(LineRefs, p.pending) + Each(LineRefs, p.simulations) + Each(LineRefs, p.exceptions)
  }

  lemma {:induction false} CitesConcat(a: seq<seq<string>>, b: seq<seq<string>>)
    ensures Cites(a + b) == Cites(a) + Cites(b)
    decreases |a|
  {
    hide NonBlank;
    if a == [] {
      assert a + b == b;
    } else {
      assert (a + b)[1..] == a[1..] + b;
      CitesConcat(a[1..], b);
    }
  }

  lemma {:induction false} PlainListCollects(refs: seq<string>)
    ensures CollectItems(Each(r => Atom(r), refs)) == {}
    decreases |refs|
  {
    if refs != [] {
      PlainListCollects(refs[1..]);
      assert Each(r => Atom(r), refs)[1..] == Each(r => Atom(r), refs[1..]);
      assert Collect(Atom(refs[0])) == {};
    }
  }

  lemma FieldsCollect5(a: Field, b: Field, c: Field, d: Field, e: Field)
    ensures CollectFields([a, b, c, d, e])
         == CollectField(a) + CollectField(b) + CollectField(c) + CollectField(d) + CollectField(e)
  {
    hide CollectField;
    FieldsCollect2(d, e);
    assert [c, d, e][1..] == [d, e];
    assert [b, c, d, e][1..] == [c, d, e];
    assert [a, b, c, d, e][1..] == [b, c, d, e];
    assert CollectFields([c, d, e]) == CollectField(c) + CollectFields([d, e]);
    assert CollectFields([b, c, d, e]) == CollectField(b) + CollectFields([c, d, e]);
  }

  lemma FactsCollect(facts: seq<Fact>)
    ensures Collect(FactsTree(facts)) == Cites(Each(FactRefs, facts))
  {
    hide Cited, Cites, CollectItems;
    RecordsCollect((f: Fact) => f.text, FactRefs, facts, (f: Fact) => Cited(f.text, f.refs));
  }

  lemma LinesCollect(lines: seq<TaskLine>)
    ensures Collect(LinesTree(lines)) == Cites(Each(LineRefs, lines))
  {
    hide Cited, Cites, CollectItems;
    RecordsCollect((l: TaskLine) => l.taskId, LineRefs, lines, (l: TaskLine) => Cited(l.taskId, l.refs));
  }

  lemma SummaryCollects(p: Pack)
    ensures Collect(SummaryTree(p)) == Cites(Each(FactRefs, p.keyFacts))
  {
    hide FactsTree, Cites, CollectItems;
    FactsCollect(p.keyFacts);
    PlainListCollects(p.headlineRefs);
    FieldsCollect2(Field(Named("headline_evidence_refs"), RefList(p.headlineRefs)), Field(Named("key_facts"), FactsTree(p.keyFacts)));
  }

  lemma PreviewCollects(p: Pack)
    ensures Collect(PreviewTree(p)) == Cites(Each(EntryRefs, p.preview))
  {
    hide Cited, Cites, CollectItems;
    RecordsCollect((e: Entry) => e.entryId, EntryRefs, p.preview, (e: Entry) => Cited(e.entryId, e.refs));
  }

  lemma ContainmentCollects(p: Pack)
    ensures Collect(ContainmentTree(p))
         == Cites(Each(OptionRefs, p.options)) + Cites(Each(CandidateRefs, p.candidate))
  {
    hide Cited, Cites, CollectItems;
    var options := List(Each((o: Containment) => Cited(o.ip, o.refs), p.options));
    var candidate := List(Each((c: Candidate) => Cited(c.state, c.refs), p.candidate));
    RecordsCollect((o: Containment) => o.ip, OptionRefs, p.options, (o: Containment) => Cited(o.ip, o.refs));
    RecordsCollect((c: Candidate) => c.state, CandidateRefs, p.candidate, (c: Candidate) => Cited(c.state, c.refs));
    FieldsCollect2(Field(Named("options"), options), Field(Named("fine_grained_candidate"), candidate));
  }

  lemma PlaybookCollects(p: Pack)
    ensures Collect(PlaybookTree(p)) == Cites(Each(StepRefs, p.steps))
  {
    hide Cited, Cites, CollectItems;
    RecordsCollect((x: Step) => x.action, StepRefs, p.steps, (x: Step) => Cited(x.action, x.refs));
  }

  lemma CommunicationCollects(p: Pack)
    ensures Collect(CommunicationTree(p))
         == Cites(Each(FactRefs, p.keyFacts)) + Cites(Each(LineRefs, p.taken)) + Cites(Each(LineRefs, p.pending))
            + Cites(Each(LineRefs, p.simulations)) + Cites(Each(LineRefs, p.exceptions))
  {
    hide FactsTree, LinesTree, Cites;
    FactsCollect(p.keyFacts);
    LinesCollect(p.taken);
    LinesCollect(p.pending);
    LinesCollect(p.simulations);
    LinesCollect(p.exceptions);
    FieldsCollect5(
      Field(Named("known_facts"), FactsTree(p.keyFacts)),
      Field(Named("actions_taken"), LinesTree(p.taken)),
      Field(Named("actions_pending"), LinesTree(p.pending)),
      Field(Named("simulations_not_production_actions"), LinesTree(p.simulations)),
      Field(Named("execution_exceptions"), LinesTree(p.exceptions)));
  }

  lemma CollectTop(p: Pack)
    ensures Collect(PackTree(p))
         == Collect(SummaryTree(p)) + Collect(PreviewTree(p)) + Collect(ContainmentTree(p)) + Collect(PlaybookTree(p))
            + Collect(CommunicationTree(p))
  {
    hide CollectFields, SummaryTree, PreviewTree, ContainmentTree, PlaybookTree, CommunicationTree;
    FieldsCollect5(
      Field(Named("case_summary"), SummaryTree(p)), Field(Named("timeline_preview"), PreviewTree(p)),
      Field(Named("containment"), ContainmentTree(p)), Field(Named("playbook"), PlaybookTree(p)),
      Field(Named("incident_communication"), CommunicationTree(p)));
  }

  lemma CitesParts(p: Pack)
    ensures Cites(PackRefs(p))
         == Cites(Each(FactRefs, p.keyFacts)) + Cites(Each(EntryRefs, p.preview)) + Cites(Each(OptionRefs, p.options))
            + Cites(Each(CandidateRefs, p.candidate)) + Cites(Each(StepRefs, p.steps)) + Cites(Each(LineRefs, p.taken))
            + Cites(Each(LineRefs, p.pending)) + Cites(Each(LineRefs, p.simulations)) + Cites(Each(LineRefs, p.exceptions))
  {
    hide Cites;
    var s2 := Each(FactRefs, p.keyFacts) + Each(EntryRefs, p.preview);
    var s3 := s2 + Each(OptionRefs, p.options);
    var s4 := s3 + Each(CandidateRefs, p.candidate);
    var s5 := s4 + Each(StepRefs, p.steps);
    var s6 := s5 + Each(LineRefs, p.taken);
    var s7 := s6 + Each(LineRefs, p.pending);
    var s8 := s7 + Each(LineRefs, p.simulations);
    CitesConcat(Each(FactRefs, p.keyFacts), Each(EntryRefs, p.preview));
    CitesConcat(s2, Each(OptionRefs, p.options));
    CitesConcat(s3, Each(CandidateRefs, p.candidate));
    CitesConcat(s4, Each(StepRefs, p.steps));
    CitesConcat(s5, Each(LineRefs, p.taken));
    CitesConcat(s6, Each(LineRefs, p.pending));
    CitesConcat(s7, Each(LineRefs, p.simulations));
    CitesConcat(s8, Each(LineRefs, p.exceptions));
  }

  /** The walk over the document finds exactly the references of the records;
      the headline's own list is not among them. */
  lemma PackCollects(p: Pack)
    ensures Collect(PackTree(p)) == Cites(PackRefs(p))
  {
    hide *;
    CollectTop(p);
    SummaryCollects(p);
    PreviewCollects(p);
    ContainmentCollects(p);
    PlaybookCollects(p);
    CommunicationCollects(p);
    CitesParts(p);
  }

  // ---- manifest and validation -------------------------------------------

  /** A manifest row: the reference and the event it was found in. */
  datatype ManifestRow = ManifestRow(refId: string, eventId: string)

  function Rows(used: set<string>, e: Event): (r: set<ManifestRow>) {
    set ref | ref in EventRefs(e) && ref in used :: ManifestRow(ref, e.id)
  }

  /** `_artifact_refs`: for every event, the cited references it knows. */
  function Manifest(used: set<string>, events: seq<Event>): set<ManifestRow> {
    if events == [] then {} else Rows(used, events[0]) + Manifest(used, events[1..])
  }

  function ManifestIds(rows: set<ManifestRow>): set<string> { set row | row in rows :: row.refId }

  /** Every reference any event of the case knows. */
  function AllowedRefs(events: seq<Event>): set<string> {
    if events == [] then {} else (set r | r in EventRefs(events[0])) + AllowedRefs(events[1..])
  }

  lemma {:induction false} ManifestNames(used: set<string>, events: seq<Event>)
    ensures ManifestIds(Manifest(used, events)) == used * AllowedRefs(events)
  {
    hide EventRefs;
    if events != [] {
      ManifestNames(used, events[1..]);
      var here, rest := Rows(used, events[0]), Manifest(used, events[1..]);
      assert ManifestIds(here + rest) == ManifestIds(here) + ManifestIds(rest);
      forall ref | ref in used && ref in EventRefs(events[0])
        ensures ref in ManifestIds(here)
      {
        assert ManifestRow(ref, events[0].id) in here;
      }
    }
  }

  lemma {:induction false} AllowedMembers(events: seq<Event>)
    ensures forall r :: r in AllowedRefs(events) <==> exists e :: e in events && r in EventRefs(e)
  {
    hide EventRefs;
    if events != [] {
      AllowedMembers(events[1..]);
      assert events == [events[0]] + events[1..];
    }
  }

  datatype Checks = Checks(
    evidenceAvailable: bool,
    citationsResolve: bool,
    manifestComplete: bool,
    serverTimestamped: bool,
    containmentAllowlisted: bool,
    containmentBounded: bool,
    candidateBlocked: bool,
    executionBlocked: bool,
    deliveryBlocked: bool,
    internalDraft: bool)

  datatype Status = Passed | Review | Blocked

  /** The ten checks of `_validate_pack`. */
  function RunChecks(s: Source, p: Pack, manifest: set<ManifestRow>): Checks {
    var cited := Collect(PackTree(p));
    Checks(
      AllowedRefs(s.events) != {},
      cited != {} && cited <= AllowedRefs(s.events),
      cited == ManifestIds(manifest),
      forall e :: e in p.preview ==> e.basis in {REPORTED, INGEST_FALLBACK, SYSTEM},
      forall o :: o in p.options ==> o.actionType in {ACTION_BLOCK_IP},
      forall o :: o in p.options ==> o.capability == "network.source_ip" && o.guarantee == "source_ip_and_ttl_only",
      forall c :: c in p.candidate ==> c.state == "blocked" && !c.routingEligible,
      !p.directExecution,
      !p.directDelivery,
      p.audience == "internal_soc_and_business_owner" && p.deliveryState == "not_sent")
  }

  predicate AllHold(c: Checks) {
    && c.evidenceAvailable && c.citationsResolve && c.manifestComplete && c.serverTimestamped
    && c.containmentAllowlisted && c.containmentBounded && c.candidateBlocked
    && c.executionBlocked && c.deliveryBlocked && c.internalDraft
  }

  function StatusOf(s: Source, c: Checks): Status {
    if !c.evidenceAvailable || !c.citationsResolve then Blocked
    else if LatestStatus(s) == "blocked" then Blocked
    else if LatestStatus(s) != "passed" then Review
    else if !AllHold(c) then Blocked
    else Passed
  }

  /** What the generator stores: pack, manifest and validation status. */
  function Generate(s: Source, x: Inputs): (Pack, set<ManifestRow>, Checks, Status) {
    var p := BuildPack(s, x);
    var manifest := Manifest(Collect(PackTree(p)), s.events);
    var checks := RunChecks(s, p, manifest);
    (p, manifest, checks, StatusOf(s, checks))
  }

  // ---- the builder satisfies its validator -------------------------------

  ghost predicate AllRefsFromEvents(s: Source, all: seq<seq<string>>) {
    forall refs :: refs in all ==> FromEvents(s, refs)
  }

  lemma {:induction false} CitesResolve(s: Source, all: seq<seq<string>>)
    requires AllRefsFromEvents(s, all)
    ensures Cites(all) <= AllowedRefs(s.events)
    decreases |all|
  {
    hide EventRefs, AllowedRefs, Strip;
    if all != [] {
      assert all[0] in all;
      CitesResolve(s, all[1..]);
      AllowedMembers(s.events);
    }
  }

  lemma {:induction false} NonReplaysAreEvents(events: seq<Event>)
    ensures forall e :: e in NonReplays(events) ==> e in events
  {
    hide IsReplay;
    if events != [] {
      NonReplaysAreEvents(events[1..]);
      assert events == [events[0]] + events[1..];
    }
  }

  lemma LatestFromEvents(s: Source)
    ensures FromEvents(s, LatestRefs(s))
    ensures LatestEvent(s) == [] <==> s.events == []
  {
    hide EventRefs, IsReplay;
    FoundEvent(s.events, if s.runs == [] then "" else s.runs[0].eventId);
    NonReplaysAreEvents(s.events);
    if LatestEvent(s) != [] {
      assert LatestEvent(s)[0] in s.events;
    }
  }

  lemma {:induction false} LinesFromEvents(s: Source, tasks: seq<Task>, states: set<string>)
    ensures AllRefsFromEvents(s, Each(LineRefs, TaskLines(s, tasks, states)))
    decreases |tasks|
  {
    hide FromEvents, SourceEventRefs;
    if tasks != [] {
      LinesFromEvents(s, tasks[1..], states);
      SourceRefsFromEvents(s, tasks[0].eventId);
      var head := if tasks[0].status in states
        then [TaskLine(tasks[0].id, tasks[0].status, SourceEventRefs(s, tasks[0].eventId))] else [];
      var rest := TaskLines(s, tasks[1..], states);
      assert Each(LineRefs, head + rest) == Each(LineRefs, head) + Each(LineRefs, rest);
    }
  }

  lemma {:induction false} SecurityEventsAreEntries(items: seq<Entry>)
    ensures forall e :: e in SecurityEvents(items) ==> e in items
  {
    if items != [] {
      SecurityEventsAreEntries(items[1..]);
      assert items == [items[0]] + items[1..];
    }
  }

  lemma {:induction false} StepsCite(actions: seq<string>, refs: seq<string>, seen: set<string>, room: nat)
    ensures forall x :: x in Steps(actions, refs, seen, room) ==> x.refs == refs
    decreases |actions|
  {
    if actions != [] && room > 0 {
      StepsCite(actions[1..], refs, seen, room);
      if actions[0] != "" && actions[0] !in seen { StepsCite(actions[1..], refs, seen + {actions[0]}, room - 1); }
    }
  }

  /** A reference list that a citation walk would find something in. */
  predicate Speaks(refs: seq<string>) { NonBlank(refs) != {} }

  predicate Listed(t: Task) {
    t.status in TAKEN || t.status in PENDING || t.status in SIMULATED || t.status in FAILED
  }

  /** Something in the case is cited: the latest event has a reference, or an entry
      shown in the preview or as a fact, or the event of a listed task. */
  ghost predicate Citing(s: Source, x: Inputs) {
    || Speaks(LatestRefs(s))
    || (exists e :: e in Last(BuildTimeline(s), MAX_PACK_TIMELINE_ITEMS) && Speaks(e.refs))
    || (exists e :: e in FactEntries(x.findings, BuildTimeline(s)) && Speaks(e.refs))
    || (exists t :: t in s.tasks && Listed(t) && Speaks(SourceEventRefs(s, t.eventId)))
  }

  lemma {:induction false} CitesSomething<T>(refs: T -> seq<string>, items: seq<T>)
    ensures Cites(Each(refs, items)) != {} <==> exists x :: x in items && Speaks(refs(x))
    decreases |items|
  {
    hide NonBlank;
    if items != [] {
      var all, rest := Each(refs, items), Each(refs, items[1..]);
      assert all[1..] == rest;
      assert items == [items[0]] + items[1..];
      CitesSomething(refs, items[1..]);
      assert Cites(all) == NonBlank(refs(items[0])) + Cites(rest);
    }
  }

  ghost predicate FactsSpeak(facts: seq<Fact>) { exists f :: f in facts && Speaks(f.refs) }

  lemma FindingsSpeak(findings: seq<string>, refs: seq<string>)
    ensures FactsSpeak(Each(f => Fact(f, SYSTEM, refs), findings)) <==> findings != [] && Speaks(refs)
  {
    hide Speaks;
    var facts := Each(f => Fact(f, SYSTEM, refs), findings);
    if findings != [] { assert facts[0] in facts && facts[0].refs == refs; }
  }

  lemma EntriesSpeak(entries: seq<Entry>)
    ensures FactsSpeak(Each((e: Entry) => Fact(e.entryId, e.basis, e.refs), entries)) <==>
            exists e :: e in entries && Speaks(e.refs)
  {
    hide Speaks;
    var facts := Each((e: Entry) => Fact(e.entryId, e.basis, e.refs), entries);
    if e :| e in entries && Speaks(e.refs) {
      var i :| 0 <= i < |entries| && entries[i] == e;
      assert facts[i] in facts && facts[i].refs == e.refs;
    }
    if FactsSpeak(facts) {
      var f :| f in facts && Speaks(f.refs);
      var i :| 0 <= i < |facts| && facts[i] == f;
      assert entries[i] in entries;
    }
  }

  lemma FactsCite(s: Source, x: Inputs)
    ensures FactsSpeak(KeyFacts(s, x.findings, BuildTimeline(s))) <==>
        || (Speaks(LatestRefs(s)) && x.findings != [])
        || exists e :: e in FactEntries(x.findings, BuildTimeline(s)) && Speaks(e.refs)
  {
    hide LatestRefs, BuildTimeline, FactEntries, Speaks, Each;
    FindingsSpeak(First(x.findings, MAX_CONFIRMED_FACTS), LatestRefs(s));
    EntriesSpeak(FactEntries(x.findings, BuildTimeline(s)));
  }

  lemma {:induction false} LinesCite(s: Source, tasks: seq<Task>, states: set<string>)
    ensures (exists l :: l in TaskLines(s, tasks, states) && Speaks(l.refs)) <==>
            exists t :: t in tasks && t.status in states && Speaks(SourceEventRefs(s, t.eventId))
    decreases |tasks|
  {
    hide SourceEventRefs, Speaks;
    if tasks != [] {
      LinesCite(s, tasks[1..], states);
      assert tasks == [tasks[0]] + tasks[1..];
      var line := TaskLine(tasks[0].id, tasks[0].status, SourceEventRefs(s, tasks[0].eventId));
      if tasks[0].status in states {
        assert TaskLines(s, tasks, states) == [line] + TaskLines(s, tasks[1..], states);
      }
    }
  }

  lemma ContainmentCites(s: Source, x: Inputs)
    ensures var p := BuildPack(s, x);
      && (forall o :: o in p.options ==> o.refs == LatestRefs(s))
      && (forall c :: c in p.candidate ==> c.refs == LatestRefs(s))
      && (exists o :: o in p.steps && Speaks(o.refs)) == Speaks(LatestRefs(s))
  {
    hide LatestRefs, BuildTimeline, KeyFacts, Speaks, TaskLines, LatestStatus;
    var p := BuildPack(s, x);
    StepsCite(x.actions, LatestRefs(s), {VERIFY_ACTION}, MAX_PLAYBOOK_STEPS - 1);
    assert p.steps[0] in p.steps && p.steps[0].refs == LatestRefs(s);
    var compiled := Contain(s, x.compiled);
    if compiled != [] {
      assert compiled == [x.compiled.value] && compiled[1..] == [];
      assert EachOf(c => FineGrained(s, c), compiled[1..]) == [];
      assert p.candidate == FineGrained(s, x.compiled.value) + [];
    }
  }

  /** A response pack cites something if one of its record lists does. */
  ghost predicate SomePartCites(p: Pack) {
    || (exists f :: f in p.keyFacts && Speaks(FactRefs(f)))
    || (exists e :: e in p.preview && Speaks(EntryRefs(e)))
    || (exists o :: o in p.options && Speaks(OptionRefs(o)))
    || (exists c :: c in p.candidate && Speaks(CandidateRefs(c)))
    || (exists q :: q in p.steps && Speaks(StepRefs(q)))
    || (exists l :: l in p.taken && Speaks(LineRefs(l)))
    || (exists l :: l in p.pending && Speaks(LineRefs(l)))
    || (exists l :: l in p.simulations && Speaks(LineRefs(l)))
    || (exists l :: l in p.exceptions && Speaks(LineRefs(l)))
  }

  lemma PartsCite(p: Pack)
    ensures Cites(PackRefs(p)) != {} <==> SomePartCites(p)
  {
    hide Cites, PackRefs, Speaks, Each;
    CitesParts(p);
    CitesSomething(FactRefs, p.keyFacts);
    CitesSomething(EntryRefs, p.preview);
    CitesSomething(OptionRefs, p.options);
    CitesSomething(CandidateRefs, p.candidate);
    CitesSomething(StepRefs, p.steps);
    CitesSomething(LineRefs, p.taken);
    CitesSomething(LineRefs, p.pending);
    CitesSomething(LineRefs, p.simulations);
    CitesSomething(LineRefs, p.exceptions);
  }

  lemma CitingParts(s: Source, x: Inputs, p: Pack)
    requires p == BuildPack(s, x)
    ensures SomePartCites(p) <==> Citing(s, x)
  {
    hide LatestRefs, BuildTimeline, KeyFacts, Speaks, TaskLines, Contain, Steps, FactEntries, SourceEventRefs;
    FactsCite(s, x);
    ContainmentCites(s, x);
    LinesCite(s, s.tasks, TAKEN);
    LinesCite(s, s.tasks, PENDING);
    LinesCite(s, s.tasks, SIMULATED);
    LinesCite(s, s.tasks, FAILED);
  }

  /** Something is cited exactly when the case offers something to cite. */
  lemma PackCitesExactly(s: Source, x: Inputs)
    ensures Collect(PackTree(BuildPack(s, x))) != {} <==> Citing(s, x)
  {
    hide *;
    var p := BuildPack(s, x);
    PackCollects(p);
    PartsCite(p);
    CitingParts(s, x, p);
  }

  // ---- every citation resolves -------------------------------------------

  lemma EntriesFromEvents(s: Source, entries: seq<Entry>)
    requires AllFromEvents(s, entries)
    ensures AllRefsFromEvents(s, Each(EntryRefs, entries))
  {
    hide FromEvents;
    forall refs | refs in Each(EntryRefs, entries)
      ensures FromEvents(s, refs)
    {
      var i :| 0 <= i < |entries| && Each(EntryRefs, entries)[i] == refs;
      assert entries[i] in entries && IsProper(s, entries[i]);
    }
  }

  lemma SomeFromEvents(s: Source, all: seq<Entry>, some: seq<Entry>)
    requires AllFromEvents(s, all) && forall e :: e in some ==> e in all
    ensures AllFromEvents(s, some)
  {
    hide IsProper;
  }

  lemma TimelineProper(s: Source)
    ensures AllFromEvents(s, BuildTimeline(s))
  {
    TimelineFromEvents(s);
    hide AllFromEvents, TimelineItems, SortBy;
    SortMembers(EntryKey, TimelineItems(s));
    SomeFromEvents(s, TimelineItems(s), BuildTimeline(s));
  }

  /** The timeline is ordered by when things happened, when they were recorded, what
      kind they are and their entry id, and holds every entry up to its limit. */
  lemma TimelineOrdered(s: Source)
    ensures Sorted(EntryKey, BuildTimeline(s))
    ensures |TimelineItems(s)| <= MAX_TIMELINE_ITEMS ==> multiset(BuildTimeline(s)) == multiset(TimelineItems(s))
  {
    hide TimelineItems, SortBy, KindOrder, EntryKey;
    SortSorts(EntryKey, TimelineItems(s));
    SortMembers(EntryKey, TimelineItems(s));
  }

  lemma PreviewProper(s: Source, x: Inputs)
    ensures AllFromEvents(s, Last(BuildTimeline(s), MAX_PACK_TIMELINE_ITEMS))
    ensures AllFromEvents(s, FactEntries(x.findings, BuildTimeline(s)))
  {
    hide AllFromEvents, BuildTimeline;
    var timeline := BuildTimeline(s);
    TimelineProper(s);
    SecurityEventsAreEntries(timeline);
    SomeFromEvents(s, timeline, Last(timeline, MAX_PACK_TIMELINE_ITEMS));
    SomeFromEvents(s, timeline, FactEntries(x.findings, timeline));
  }

  lemma FactRefsFromEvents(s: Source, x: Inputs)
    ensures AllRefsFromEvents(s, Each(FactRefs, KeyFacts(s, x.findings, BuildTimeline(s))))
  {
    hide LatestRefs, BuildTimeline, FactEntries, FromEvents, AllFromEvents, First;
    LatestFromEvents(s);
    PreviewProper(s, x);
    var entries := FactEntries(x.findings, BuildTimeline(s));
    EntriesFromEvents(s, entries);
    var shown := First(x.findings, MAX_CONFIRMED_FACTS);
    var facts := KeyFacts(s, x.findings, BuildTimeline(s));
    assert |facts| == |shown| + |entries|;
    forall refs | refs in Each(FactRefs, facts)
      ensures FromEvents(s, refs)
    {
      var i :| 0 <= i < |facts| && Each(FactRefs, facts)[i] == refs;
      if i < |shown| {
        assert refs == LatestRefs(s);
      } else {
        assert refs == Each(EntryRefs, entries)[i - |shown|];
      }
    }
  }

  lemma SameRefsFromEvents<T>(s: Source, refs: T -> seq<string>, items: seq<T>)
    requires forall x :: x in items ==> refs(x) == LatestRefs(s)
    ensures AllRefsFromEvents(s, Each(refs, items))
  {
    hide LatestRefs, FromEvents;
    LatestFromEvents(s);
    forall r | r in Each(refs, items)
      ensures FromEvents(s, r)
    {
      var i :| 0 <= i < |items| && Each(refs, items)[i] == r;
      assert items[i] in items;
    }
  }

  lemma PackRefsFromEvents(s: Source, x: Inputs)
    ensures AllRefsFromEvents(s, PackRefs(BuildPack(s, x)))
  {
    hide LatestRefs, BuildTimeline, FactEntries, FromEvents, AllFromEvents, KeyFacts, TaskLines, Contain, Steps, Each;
    var p := BuildPack(s, x);
    FactRefsFromEvents(s, x);
    PreviewProper(s, x);
    EntriesFromEvents(s, p.preview);
    ContainmentCites(s, x);
    StepsCite(x.actions, LatestRefs(s), {VERIFY_ACTION}, MAX_PLAYBOOK_STEPS - 1);
    SameRefsFromEvents(s, OptionRefs, p.options);
    SameRefsFromEvents(s, CandidateRefs, p.candidate);
    SameRefsFromEvents(s, StepRefs, p.steps);
    LinesFromEvents(s, s.tasks, TAKEN);
    LinesFromEvents(s, s.tasks, PENDING);
    LinesFromEvents(s, s.tasks, SIMULATED);
    LinesFromEvents(s, s.tasks, FAILED);
  }

  /** Every citation anywhere in a response pack is a reference of an event of the case, and
      the manifest lists exactly the cited ones. */
  lemma CitationsResolve(s: Source, x: Inputs)
    ensures var cited := Collect(PackTree(BuildPack(s, x)));
      cited <= AllowedRefs(s.events) && ManifestIds(Manifest(cited, s.events)) == cited
  {
    hide *;
    var p := BuildPack(s, x);
    PackCollects(p);
    PackRefsFromEvents(s, x);
    CitesResolve(s, PackRefs(p));
    ManifestNames(Collect(PackTree(p)), s.events);
  }

  lemma ContainmentBounded(s: Source, x: Inputs)
    ensures var p := BuildPack(s, x);
      && (forall o :: o in p.options ==> o.actionType == ACTION_BLOCK_IP && o.capability == "network.source_ip"
                                          && o.guarantee == "source_ip_and_ttl_only")
      && (forall c :: c in p.candidate ==> c.state == "blocked" && !c.routingEligible)
  {
    hide LatestRefs, BuildTimeline, KeyFacts, TaskLines, LatestStatus, Steps;
    var p := BuildPack(s, x);
    var compiled := Contain(s, x.compiled);
    if compiled != [] {
      assert compiled == [x.compiled.value] && compiled[1..] == [];
      assert EachOf(c => FineGrained(s, c), compiled[1..]) == [];
      assert p.candidate == FineGrained(s, x.compiled.value) + [];
    }
  }

  lemma PreviewTimed(s: Source)
    ensures forall e :: e in Last(BuildTimeline(s), MAX_PACK_TIMELINE_ITEMS) ==>
              e.basis in {REPORTED, INGEST_FALLBACK, SYSTEM}
  {
    hide BuildTimeline, FromEvents;
    TimelineProper(s);
    var timeline := BuildTimeline(s);
    forall e | e in Last(timeline, MAX_PACK_TIMELINE_ITEMS)
      ensures e.basis in {REPORTED, INGEST_FALLBACK, SYSTEM}
    {
      assert e in timeline && IsProper(s, e);
    }
  }

  /** The builder satisfies its own validator: eight checks hold of every pack, the
      other two exactly when the case offers something to cite; so the status is the
      latest validation's verdict, and blocked where nothing is cited. */
  lemma BuilderPassesValidator(s: Source, x: Inputs)
    ensures var (p, manifest, checks, status) := Generate(s, x);
      && (AllHold(checks) <==> Citing(s, x))
      && (checks.citationsResolve <==> Citing(s, x))
      && AllHold(checks.(evidenceAvailable := true, citationsResolve := true))
      && status == (if !Citing(s, x) || LatestStatus(s) == "blocked" then Blocked
                    else if LatestStatus(s) == "passed" then Passed else Review)
  {
    hide Collect, PackTree, Citing, BuildTimeline, LatestStatus, AllowedRefs, Manifest, ManifestIds, KeyFacts, Steps,
         TaskLines, Contain, LatestRefs, OptionOf, FineGrained, EachOf, Each;
    CitationsResolve(s, x);
    PackCitesExactly(s, x);
    ContainmentBounded(s, x);
    PreviewTimed(s);
  }

  /** Every event of the case has an id that shows: the normaliser writes "event_" and a
      digest, a replay appends to the id of its event, and the id is the primary key. */
  predicate EventsNamed(s: Source) { forall e :: e in s.events ==> Strip(e.id) != "" }

  lemma NamedIds(id: string)
    requires "event_" <= id
    ensures Strip(id) != ""
  {
    assert !IsSpace(id[0]);
    StripKeeps(id);
  }

  lemma IdentifiedCaseCites(s: Source, x: Inputs)
    requires s.events != [] && forall e :: e in s.events ==> Identified(e)
    ensures Citing(s, x)
  {
    hide EventRefs, BuildTimeline, FactEntries, IsReplay;
    LatestFromEvents(s);
    FoundEvent(s.events, if s.runs == [] then "" else s.runs[0].eventId);
    NonReplaysAreEvents(s.events);
    var e := LatestEvent(s)[0];
    assert e in s.events && Identified(e);
    var r :| r in EventRefs(e) && Strip(r) != "";
    assert r in NonBlank(LatestRefs(s));
  }

  lemma NothingToCite(s: Source, x: Inputs)
    requires s.events == []
    ensures !Citing(s, x)
  {
    hide Collect, PackTree, Citing, BuildPack, Manifest;
    CitationsResolve(s, x);
    PackCitesExactly(s, x);
  }

  /** A case without events is blocked whatever its validation says. */
  lemma EmptyCaseIsBlocked(s: Source, x: Inputs)
    requires s.events == []
    ensures Generate(s, x).3 == Blocked
  {
    hide Collect, PackTree, Citing, BuildPack, RunChecks, Manifest;
    BuilderPassesValidator(s, x);
    CitationsResolve(s, x);
    PackCitesExactly(s, x);
  }

  /** A case passes all ten checks exactly when it has an event, and then its latest
      validation alone decides the status, whatever else the case holds. */
  lemma CasePassesIffItHasEvents(s: Source, x: Inputs)
    requires EventsNamed(s)
    ensures AllHold(Generate(s, x).2) <==> s.events != []
    ensures Generate(s, x).3 == (if s.events == [] || LatestStatus(s) == "blocked" then Blocked
                                 else if LatestStatus(s) == "passed" then Passed else Review)
  {
    hide Generate, Citing, LatestStatus, AllHold, Identified;
    BuilderPassesValidator(s, x);
    if s.events == [] {
      NothingToCite(s, x);
    } else {
      forall e | e in s.events ensures Identified(e) { IdentifiedExactly(e); }
      IdentifiedCaseCites(s, x);
    }
  }
}
