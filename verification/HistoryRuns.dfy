/** Whole runs over the relational history: intake, analysis, governance, investigation
    and retention, in any order.  Integrity and governance hold in every state of them. */
module HistoryRuns {
  import opened Common
  import opened GovernanceModel
  import GovernanceRuns
  import InboxModel
  import opened Retention

  /** One repository write; `Govern` is any step of the governance tables but the purge. */
  datatype Write =
    | StoreRaw(a: AlertId)
    | StoreEvent(e: EventId, a: AlertId)
    | LinkAlert(c: CaseId, a: AlertId, e: EventId)
    | AddRun(r: RowId, c: CaseId)
    | AddArtifact(r: RowId, c: CaseId)
    | AddSession(r: RowId, c: CaseId, artifact: RowId)
    | AddReport(r: RowId, c: CaseId, session: RowId)
    | AddAttempt(r: RowId, k: TaskId)
    | AddEvaluation(r: RowId, k: TaskId)
    | Dispose(a: AlertId, c: CaseId)
    | SetInbox(inbox: map<AlertId, InboxModel.Status>)
    | Govern(ev: GovernanceRuns.Event)
    | PurgeBatch(before: int, limit: int, cs: seq<CaseId>)

  const EMPTY := History({}, map[], map[], {}, map[], map[], map[], map[], map[], map[], map[], map[], map[], map[], map[], map[])

  /** The history is its governance tables, its evidence and its other records. */
  datatype Evidence = Evidence(
    raws: set<AlertId>,
    events: map<EventId, AlertId>,
    links: set<Link>,
    dispositions: map<AlertId, CaseId>,
    inbox: map<AlertId, InboxModel.Status>)

  datatype Records = Records(
    runs: map<RowId, CaseId>,
    attempts: map<RowId, TaskId>,
    evaluations: map<RowId, TaskId>,
    artifacts: map<RowId, CaseId>,
    sessions: map<RowId, Session>,
    reports: map<RowId, Report>)

  function EvidenceOf(h: History): Evidence { Evidence(h.raws, h.events, h.links, h.dispositions, h.inbox) }

  function RecordsOf(h: History): Records {
    Records(h.runs, h.attempts, h.evaluations, h.artifacts, h.sessions, h.reports)
  }

  predicate IsEvidence(w: Write) { w.StoreRaw? || w.StoreEvent? || w.LinkAlert? || w.Dispose? || w.SetInbox? }

  predicate IsRecord(w: Write) {
    w.AddRun? || w.AddArtifact? || w.AddSession? || w.AddReport? || w.AddAttempt? || w.AddEvaluation?
  }

  /** Evidence tables: `INSERT OR IGNORE` under the foreign keys.  An event is stored for its
      own alert, and the orchestrator links an alert together with its own event. */
  ghost predicate EvidenceStep(h: History, w: Write, h': History)
    requires IsEvidence(w)
  {
    var x, x' := EvidenceOf(h), EvidenceOf(h');
    && TablesOf(h') == TablesOf(h) && RecordsOf(h') == RecordsOf(h)
    && match w
       case StoreRaw(a) => x' == x.(raws := x.raws + {a})
       case StoreEvent(e, a) => a in x.raws && x' == if e in x.events then x else x.(events := x.events[e := a])
       case LinkAlert(c, a, e) =>
         c in h.cases && a in x.raws && e in x.events && x.events[e] == a && x' == x.(links := x.links + {Link(c, a, e)})
       case Dispose(a, c) => LinksAlert(x.links, c, a) && x' == x.(dispositions := x.dispositions[a := c])
       case SetInbox(inbox) => x' == x.(inbox := inbox)
  }

  /** Records of one case; a session works on an artifact of its case, a report on its session. */
  ghost predicate RecordStep(h: History, w: Write, h': History)
    requires IsRecord(w)
  {
    var x, x' := RecordsOf(h), RecordsOf(h');
    && TablesOf(h') == TablesOf(h) && EvidenceOf(h') == EvidenceOf(h)
    && match w
       case AddRun(r, c) => r !in x.runs && c in h.cases && x' == x.(runs := x.runs[r := c])
       case AddArtifact(r, c) => r !in x.artifacts && c in h.cases && x' == x.(artifacts := x.artifacts[r := c])
       case AddSession(r, c, artifact) =>
         && r !in x.sessions && c in h.cases && artifact in x.artifacts && x.artifacts[artifact] == c
         && x' == x.(sessions := x.sessions[r := Session(c, artifact)])
       case AddReport(r, c, session) =>
         && r !in x.reports && c in h.cases && session in x.sessions && x.sessions[session].caseId == c
         && x' == x.(reports := x.reports[r := Report(c, session)])
       case AddAttempt(r, k) => r !in x.attempts && k in h.tasks && x' == x.(attempts := x.attempts[r := k])
       case AddEvaluation(r, k) =>
         k in h.tasks && x' == if r in x.evaluations then x else x.(evaluations := x.evaluations[r := k])
  }

  /** The orchestrator links the event to the case in the transaction that stores its validation. */
  ghost predicate GovernStep(h: History, ev: GovernanceRuns.Event, h': History, now: int) {
    && EvidenceOf(h') == EvidenceOf(h) && RecordsOf(h') == RecordsOf(h)
    && !ev.Purge? && GovernanceRuns.Step(TablesOf(h), ev, TablesOf(h'), now)
    && (ev.AddValidation? ==> LinksEvent(h.links, ev.v.caseId, ev.v.eventId))
  }

  ghost predicate Step(h: History, w: Write, h': History, now: int) {
    if w.Govern? then GovernStep(h, w.ev, h', now)
    else if w.PurgeBatch? then IsPurgeBatch(h, w.before, w.limit, w.cs) && h' == AllPurged(h, w.cs)
    else if IsEvidence(w) then EvidenceStep(h, w, h')
    else RecordStep(h, w, h')
  }

  /** Keys, anchors, quorum, gate, authorisation and compensation safety together. */
  ghost predicate Intact(h: History) { Sound(h) && Governed(TablesOf(h)) }

  predicate EvidenceGrows(h: History, h': History) {
    && h.raws <= h'.raws && h.links <= h'.links
    && forall e :: e in h.events ==> e in h'.events && h'.events[e] == h.events[e]
  }

  lemma EvidenceOnlyGrows(h: History, w: Write, h': History)
    requires IsEvidence(w) && EvidenceStep(h, w, h')
    ensures TablesOf(h') == TablesOf(h) && RecordsOf(h') == RecordsOf(h) && EvidenceGrows(h, h')
  {
    hide LinksAlert;
  }

  lemma EvidenceKeysStay(h: History, w: Write, h': History)
    requires IsEvidence(w) && EvidenceKeys(h) && EvidenceStep(h, w, h')
    ensures EvidenceKeys(h')
  {
  }

  lemma LinksStay(h: History, h': History)
    requires h.links <= h'.links
    ensures forall c, e :: LinksEvent(h.links, c, e) ==> LinksEvent(h'.links, c, e)
    ensures forall c, a :: LinksAlert(h.links, c, a) ==> LinksAlert(h'.links, c, a)
  {
  }

  lemma AgreementStays(h: History, w: Write, h': History)
    requires IsEvidence(w) && EvidenceKeys(h) && LinksAgree(h) && EvidenceStep(h, w, h')
    ensures LinksAgree(h')
    ensures forall a :: a in h'.dispositions ==>
      (a in h.dispositions && h'.dispositions[a] == h.dispositions[a]) || LinksAlert(h.links, h'.dispositions[a], a)
  {
    hide LinksAlert;
  }

  lemma TablesEqual(h: History, h': History)
    requires TablesOf(h') == TablesOf(h)
    ensures h'.cases == h.cases && h'.validations == h.validations && h'.resolutions == h.resolutions
    ensures h'.approvals == h.approvals && h'.tasks == h.tasks
  {
  }

  lemma AnchorsStay(h: History, h': History)
    requires Anchored(h) && TablesOf(h') == TablesOf(h) && h.links <= h'.links && LinksAgree(h')
    requires forall a :: a in h'.dispositions ==>
      (a in h.dispositions && h'.dispositions[a] == h.dispositions[a]) || LinksAlert(h.links, h'.dispositions[a], a)
    ensures Anchored(h')
  {
    LinksStay(h, h');
    TablesEqual(h, h');
    hide LinksEvent, LinksAlert, TablesOf, LinksAgree;
  }

  lemma GovernanceKeysStay(h: History, h': History)
    requires GovernanceKeys(h) && h'.runs == h.runs && h'.cases == h.cases && h'.validations == h.validations
    requires h'.approvals == h.approvals && EvidenceGrows(h, h')
    ensures GovernanceKeys(h')
  {
  }

  /** Keys of rows that did not change still point at rows. */
  lemma KeysStay(h: History, h': History)
    requires GovernanceKeys(h) && TaskKeys(h) && AgentKeys(h) && OwnCase(h)
    requires TablesOf(h') == TablesOf(h) && RecordsOf(h') == RecordsOf(h) && EvidenceGrows(h, h')
    ensures GovernanceKeys(h') && TaskKeys(h') && AgentKeys(h') && OwnCase(h')
  {
    TablesEqual(h, h');
    hide TablesOf;
    GovernanceKeysStay(h, h');
    hide GovernanceKeys;
  }

  lemma EvidenceKeepsSound(h: History, w: Write, h': History)
    requires IsEvidence(w) && Sound(h) && EvidenceStep(h, w, h')
    ensures Sound(h') && TablesOf(h') == TablesOf(h)
  {
    hide EvidenceStep, GovernanceKeys, TaskKeys, AgentKeys, OwnCase, EvidenceKeys, TablesOf, RecordsOf;
    EvidenceOnlyGrows(h, w, h');
    EvidenceKeysStay(h, w, h');
    AgreementStays(h, w, h');
    AnchorsStay(h, h');
    KeysStay(h, h');
  }

  lemma RecordsOnly(h: History, w: Write, h': History)
    requires IsRecord(w) && RecordStep(h, w, h')
    ensures TablesOf(h') == TablesOf(h) && EvidenceOf(h') == EvidenceOf(h)
  {
  }

  lemma RunKeysStay(h: History, w: Write, h': History)
    requires IsRecord(w) && RecordStep(h, w, h') && GovernanceKeys(h)
    ensures GovernanceKeys(h')
  {
  }

  lemma TaskKeysStay(h: History, w: Write, h': History)
    requires IsRecord(w) && RecordStep(h, w, h') && TaskKeys(h)
    ensures TaskKeys(h')
  {
  }

  lemma RecordKeysStay(h: History, w: Write, h': History)
    requires IsRecord(w) && RecordStep(h, w, h') && GovernanceKeys(h) && TaskKeys(h)
    ensures GovernanceKeys(h') && TaskKeys(h')
  {
    hide *;
    RunKeysStay(h, w, h');
    TaskKeysStay(h, w, h');
  }

  lemma SessionKeysStay(h: History, w: Write, h': History)
    requires IsRecord(w) && RecordStep(h, w, h') && AgentKeys(h)
    ensures AgentKeys(h')
  {
  }

  lemma OwnCaseKept(h: History, w: Write, h': History)
    requires IsRecord(w) && RecordStep(h, w, h') && AgentKeys(h) && OwnCase(h)
    ensures OwnCase(h')
  {
  }

  lemma AgentKeysStay(h: History, w: Write, h': History)
    requires IsRecord(w) && RecordStep(h, w, h') && AgentKeys(h) && OwnCase(h)
    ensures AgentKeys(h') && OwnCase(h')
  {
    hide *;
    SessionKeysStay(h, w, h');
    OwnCaseKept(h, w, h');
  }

  lemma SameEvidenceKeys(h: History, h': History)
    requires EvidenceKeys(h) && Anchored(h) && TablesOf(h') == TablesOf(h) && EvidenceOf(h') == EvidenceOf(h)
    ensures EvidenceKeys(h') && Anchored(h')
  {
    TablesEqual(h, h');
    hide LinksEvent, LinksAlert, TablesOf;
  }

  lemma RecordsKeepSound(h: History, w: Write, h': History)
    requires IsRecord(w) && Sound(h) && RecordStep(h, w, h')
    ensures Sound(h') && TablesOf(h') == TablesOf(h)
  {
    hide RecordStep, GovernanceKeys, TaskKeys, AgentKeys, OwnCase, EvidenceKeys, Anchored, TablesOf, EvidenceOf;
    RecordsOnly(h, w, h');
    RecordKeysStay(h, w, h');
    AgentKeysStay(h, w, h');
    SameEvidenceKeys(h, h');
  }

  lemma CasesOnlyAdded(t: Tables, ev: GovernanceRuns.Event, t': Tables, now: int)
    requires GovernanceRuns.Step(t, ev, t', now) && !ev.Purge?
    ensures t.cases.Keys <= t'.cases.Keys
  {
    hide GovernanceRuns.EditedTasks, GovernanceRuns.PlannedTasks, TransitionedTasks, Voted, WithdrawnApprovals;
    hide InsertedApprovals, ContinuedResolutions, IsFound;
  }

  lemma ValidationsOnlyAdded(t: Tables, ev: GovernanceRuns.Event, t': Tables, now: int)
    requires GovernanceRuns.Step(t, ev, t', now) && !ev.Purge?
    ensures forall v :: v in t'.validations ==>
      || (v in t.validations && t'.validations[v] == t.validations[v])
      || (ev.AddValidation? && t'.validations[v] == ev.v && ev.v.caseId in t.cases)
  {
    hide GovernanceRuns.EditedTasks, GovernanceRuns.PlannedTasks, TransitionedTasks, Voted, WithdrawnApprovals;
    hide InsertedApprovals, ContinuedResolutions, IsFound, UpsertedCases, ProvisionedCases;
  }

  /** Governance steps add cases and tasks, and change no stored validation. */
  lemma GovernOnlyAdds(t: Tables, ev: GovernanceRuns.Event, t': Tables, now: int)
    requires GovernanceRuns.Step(t, ev, t', now) && !ev.Purge?
    ensures t.cases.Keys <= t'.cases.Keys && t.tasks.Keys <= t'.tasks.Keys
    ensures forall v :: v in t'.validations ==>
      || (v in t.validations && t'.validations[v] == t.validations[v])
      || (ev.AddValidation? && t'.validations[v] == ev.v && ev.v.caseId in t.cases)
  {
    hide *;
    GovernanceRuns.StepKeepsTasks(t, ev, t', now);
    CasesOnlyAdded(t, ev, t', now);
    ValidationsOnlyAdded(t, ev, t', now);
  }

  /** In governed tables every approval and task names the case and event of a validation. */
  lemma GovernedByValidation(t: Tables)
    requires Governed(t)
    ensures forall a :: a in t.approvals ==>
      && t.approvals[a].caseId in t.cases
      && t.approvals[a].validationId in t.validations
      && IsFor(t.validations[t.approvals[a].validationId], t.approvals[a].caseId, t.approvals[a].eventId)
    ensures forall k :: k in t.tasks ==>
      && t.tasks[k].caseId in t.cases && t.tasks[k].approvalId in t.approvals
      && t.approvals[t.tasks[k].approvalId].caseId == t.tasks[k].caseId
      && t.approvals[t.tasks[k].approvalId].eventId == t.tasks[k].eventId
  {
    forall a | a in t.approvals ensures ApprovalOk(t, t.approvals[a]) {}
    hide QuorumOk, Compensated;
  }

  ghost predicate ValidationsLinked(h: History) {
    forall v :: v in h.validations ==>
      h.validations[v].caseId in h.cases && LinksEvent(h.links, h.validations[v].caseId, h.validations[v].eventId)
  }

  lemma ValidationsAnchored(h: History, h': History, ev: GovernanceRuns.Event)
    requires Sound(h) && h'.links == h.links && h.cases.Keys <= h'.cases.Keys
    requires ev.AddValidation? ==> LinksEvent(h.links, ev.v.caseId, ev.v.eventId)
    requires forall v :: v in h'.validations ==>
      || (v in h.validations && h'.validations[v] == h.validations[v])
      || (ev.AddValidation? && h'.validations[v] == ev.v && ev.v.caseId in h.cases)
    ensures ValidationsLinked(h')
  {
    hide LinksEvent, LinksAlert;
  }

  /** What the approvals and tasks inherit from the validations they rest on. */
  ghost predicate GovernanceLinked(h: History) {
    && ValidationsLinked(h)
    && (forall a :: a in h.approvals ==>
          h.approvals[a].caseId in h.cases && LinksEvent(h.links, h.approvals[a].caseId, h.approvals[a].eventId))
    && (forall k :: k in h.tasks ==>
          && h.tasks[k].caseId in h.cases && LinksEvent(h.links, h.tasks[k].caseId, h.tasks[k].eventId)
          && h.tasks[k].approvalId in h.approvals && h.approvals[h.tasks[k].approvalId].caseId == h.tasks[k].caseId)
  }

  lemma LinkedByValidation(h: History)
    requires ValidationsLinked(h) && Governed(TablesOf(h))
    ensures GovernanceLinked(h)
  {
    GovernedByValidation(TablesOf(h));
    hide LinksEvent, Governed;
  }

  lemma LinkedEventsExist(h: History)
    requires EvidenceKeys(h)
    ensures forall c, e :: LinksEvent(h.links, c, e) ==> e in h.events
  {
  }

  lemma LinkedIsKeyed(h: History)
    requires GovernanceLinked(h) && EvidenceKeys(h)
    requires forall r :: r in h.runs ==> h.runs[r] in h.cases
    requires forall r :: r in h.attempts ==> h.attempts[r] in h.tasks
    requires forall r :: r in h.evaluations ==> h.evaluations[r] in h.tasks
    ensures GovernanceKeys(h) && TaskKeys(h)
  {
    LinkedEventsExist(h);
    hide LinksEvent, EvidenceKeys;
  }

  lemma LinkedIsAnchored(h: History)
    requires GovernanceLinked(h) && LinksAgree(h) && forall a :: a in h.dispositions ==> LinksAlert(h.links, h.dispositions[a], a)
    ensures Anchored(h)
  {
    hide LinksEvent, LinksAlert, LinksAgree;
  }

  lemma OtherTablesStay(h: History, h': History)
    requires Sound(h) && EvidenceOf(h') == EvidenceOf(h) && RecordsOf(h') == RecordsOf(h)
    ensures RecordsOf(h') == RecordsOf(h) && EvidenceOf(h') == EvidenceOf(h) && LinksAgree(h')
    ensures forall a :: a in h'.dispositions ==> LinksAlert(h'.links, h'.dispositions[a], a)
  {
    hide LinksAlert;
  }

  lemma KeysIntoGrownTables(h: History, h': History)
    requires ForeignKeys(h) && RecordsOf(h') == RecordsOf(h) && EvidenceOf(h') == EvidenceOf(h)
    requires h.cases.Keys <= h'.cases.Keys && h.tasks.Keys <= h'.tasks.Keys
    ensures EvidenceKeys(h') && AgentKeys(h')
    ensures forall r :: r in h'.runs ==> h'.runs[r] in h'.cases
    ensures forall r :: r in h'.attempts ==> h'.attempts[r] in h'.tasks
    ensures forall r :: r in h'.evaluations ==> h'.evaluations[r] in h'.tasks
  {
  }

  lemma OwnCaseStays(h: History, h': History)
    requires OwnCase(h) && RecordsOf(h') == RecordsOf(h) && GovernanceLinked(h')
    ensures OwnCase(h')
  {
    hide LinksEvent;
  }

  lemma SoundSplits(h: History)
    ensures Sound(h) <==> ForeignKeys(h) && OwnCase(h) && Anchored(h)
    ensures ForeignKeys(h) <==> EvidenceKeys(h) && GovernanceKeys(h) && TaskKeys(h) && AgentKeys(h)
  {
  }

  lemma GovernedIsSound(h: History, h': History)
    requires Sound(h) && EvidenceOf(h') == EvidenceOf(h) && RecordsOf(h') == RecordsOf(h) && GovernanceLinked(h')
    requires h.cases.Keys <= h'.cases.Keys && h.tasks.Keys <= h'.tasks.Keys
    ensures Sound(h')
  {
    hide *;
    SoundSplits(h);
    OtherTablesStay(h, h');
    KeysIntoGrownTables(h, h');
    OwnCaseStays(h, h');
    LinkedIsKeyed(h');
    LinkedIsAnchored(h');
    SoundSplits(h');
  }

  lemma GovernKeepsIntact(h: History, ev: GovernanceRuns.Event, h': History, now: int)
    requires Intact(h) && GovernStep(h, ev, h', now)
    ensures Intact(h')
  {
    hide GovernanceRuns.Step, Governed, LinksEvent, LinksAlert, GovernanceLinked, Sound;
    var t, t' := TablesOf(h), TablesOf(h');
    GovernanceRuns.StepKeepsGoverned(t, ev, t', now);
    GovernOnlyAdds(t, ev, t', now);
    ValidationsAnchored(h, h', ev);
    LinkedByValidation(h');
    GovernedIsSound(h, h');
  }

  lemma StepKeepsIntact(h: History, w: Write, h': History, now: int)
    requires Intact(h) && Step(h, w, h', now)
    ensures Intact(h')
  {
    hide Sound, Governed, EvidenceStep, RecordStep, GovernStep, TablesOf, IsPurgeBatch, AllPurged;
    if w.Govern? {
      GovernKeepsIntact(h, w.ev, h', now);
    } else if w.PurgeBatch? {
      PurgeIsLocal(h, w.before, w.limit, w.cs);
      PurgeIsGoverned(h, w.before, w.limit, w.cs, now);
    } else if IsEvidence(w) {
      EvidenceKeepsSound(h, w, h');
    } else {
      RecordsKeepSound(h, w, h');
    }
  }

  // ---- runs --------------------------------------------------------------

  datatype Stamp = Stamp(w: Write, now: int, after: History)

  ghost predicate Run(h: History, run: seq<Stamp>)
    decreases |run|
  {
    run == [] || (Step(h, run[0].w, run[0].after, run[0].now) && Run(run[0].after, run[1..]))
  }

  function Final(h: History, run: seq<Stamp>): History {
    if run == [] then h else run[|run| - 1].after
  }

  lemma {:induction false} RunKeepsIntact(h: History, run: seq<Stamp>)
    requires Run(h, run) && Intact(h)
    ensures Intact(Final(h, run))
    decreases |run|
  {
    hide Step, Intact;
    if run != [] {
      StepKeepsIntact(h, run[0].w, run[0].after, run[0].now);
      RunKeepsIntact(run[0].after, run[1..]);
    }
  }

  lemma EmptyIsIntact()
    ensures Intact(EMPTY)
  {
  }

  lemma IntactSplits(h: History)
    ensures Intact(h) <==> Sound(h) && Governed(TablesOf(h))
  {
  }

  /** Wherever any run of intake, governance, investigation and retention has led: the
      history is intact, and a further retention purge loses a batch of due cases and what
      only they needed, stays intact, and forgets no rule that was not rolled back. */
  lemma RetentionInEveryRun(run: seq<Stamp>, before: int, limit: int, cs: seq<CaseId>)
    requires Run(EMPTY, run) && IsPurgeBatch(Final(EMPTY, run), before, limit, cs)
    ensures var h := Final(EMPTY, run);
      var d := AllPurged(h, cs);
      && Intact(h) && Intact(d)
      && OnlyLost(h, d, Members(cs)) && DetailsLost(h, d) && EvidenceKept(h, d, Members(cs)) && HoldsDue(h, before, limit, cs)
      && |h.cases.Keys| - |d.cases.Keys| == |cs|
      && GovernanceRuns.OnlySettledErased(TablesOf(h), TablesOf(d))
  {
    hide *;
    var h := Final(EMPTY, run);
    EmptyIsIntact();
    RunKeepsIntact(EMPTY, run);
    IntactSplits(h);
    PurgeIsLocal(h, before, limit, cs);
    PurgeIsGoverned(h, before, limit, cs, 0);
    IntactSplits(AllPurged(h, cs));
  }
}
