/** Retention purge over the whole relational history of terminal cases. */
module Retention {
  import opened Common
  import opened GovernanceModel
  import opened GovernanceRuns
  import InboxModel

  type AlertId = string
  type RowId = string

  datatype Link = Link(caseId: CaseId, alertId: AlertId, eventId: EventId)

  datatype Session = Session(caseId: CaseId, artifactId: RowId)

  datatype Report = Report(caseId: CaseId, sessionId: RowId)

  /** Every table a case purge touches; rows carry the columns it reads. */
  datatype History = History(
    raws: set<AlertId>,
    events: map<EventId, AlertId>,
    cases: map<CaseId, Case>,
    links: set<Link>,
    runs: map<RowId, CaseId>,
    validations: map<ValidationId, Validation>,
    resolutions: map<ResolutionId, Resolution>,
    approvals: map<ApprovalId, Approval>,
    tasks: map<TaskId, Task>,
    attempts: map<RowId, TaskId>,
    evaluations: map<RowId, TaskId>,
    artifacts: map<RowId, CaseId>,
    sessions: map<RowId, Session>,
    reports: map<RowId, Report>,
    dispositions: map<AlertId, CaseId>,
    inbox: map<AlertId, InboxModel.Status>)

  /** The governance part of the history. */
  function TablesOf(h: History): Tables { Tables(h.cases, h.validations, h.resolutions, h.approvals, h.tasks) }

  // ---- integrity ---------------------------------------------------------

  /** Every foreign key of the schema points at an existing row. */
  predicate EvidenceKeys(h: History) {
    && (forall e :: e in h.events ==> h.events[e] in h.raws)
    && (forall l :: l in h.links ==> l.caseId in h.cases && l.alertId in h.raws && l.eventId in h.events)
    && (forall a :: a in h.dispositions ==> a in h.raws && h.dispositions[a] in h.cases)
  }

  predicate GovernanceKeys(h: History) {
    && (forall r :: r in h.runs ==> h.runs[r] in h.cases)
    && (forall v :: v in h.validations ==> h.validations[v].caseId in h.cases && h.validations[v].eventId in h.events)
    && (forall a :: a in h.approvals ==> h.approvals[a].caseId in h.cases && h.approvals[a].eventId in h.events)
  }

  predicate TaskKeys(h: History) {
    && (forall k :: k in h.tasks ==>
          h.tasks[k].approvalId in h.approvals && h.tasks[k].caseId in h.cases && h.tasks[k].eventId in h.events)
    && (forall r :: r in h.attempts ==> h.attempts[r] in h.tasks)
    && (forall r :: r in h.evaluations ==> h.evaluations[r] in h.tasks)
  }

  predicate AgentKeys(h: History) {
    && (forall r :: r in h.artifacts ==> h.artifacts[r] in h.cases)
    && (forall r :: r in h.sessions ==> h.sessions[r].caseId in h.cases && h.sessions[r].artifactId in h.artifacts)
    && (forall r :: r in h.reports ==> h.reports[r].caseId in h.cases && h.reports[r].sessionId in h.sessions)
  }

  predicate ForeignKeys(h: History) {
    EvidenceKeys(h) && GovernanceKeys(h) && TaskKeys(h) && AgentKeys(h)
  }

  /** Dependent rows stay within one case. */
  predicate OwnCase(h: History) {
    && (forall k :: k in h.tasks && h.tasks[k].approvalId in h.approvals ==>
          h.approvals[h.tasks[k].approvalId].caseId == h.tasks[k].caseId)
    && (forall r :: r in h.sessions && h.sessions[r].artifactId in h.artifacts ==>
          h.artifacts[h.sessions[r].artifactId] == h.sessions[r].caseId)
    && (forall r :: r in h.reports && h.reports[r].sessionId in h.sessions ==>
          h.sessions[h.reports[r].sessionId].caseId == h.reports[r].caseId)
  }

  predicate LinksAgree(h: History) {
    forall l :: l in h.links && l.eventId in h.events ==> h.events[l.eventId] == l.alertId
  }

  ghost predicate LinksEvent(links: set<Link>, c: CaseId, e: EventId) {
    exists l :: l in links && l.caseId == c && l.eventId == e
  }

  ghost predicate LinksAlert(links: set<Link>, c: CaseId, a: AlertId) {
    exists l :: l in links && l.caseId == c && l.alertId == a
  }

  /** Governance rows name a linked case and event, dispositions a linked case and alert,
      and a link names the alert of its event. */
  ghost predicate Anchored(h: History) {
    && (forall v :: v in h.validations ==> LinksEvent(h.links, h.validations[v].caseId, h.validations[v].eventId))
    && (forall a :: a in h.approvals ==> LinksEvent(h.links, h.approvals[a].caseId, h.approvals[a].eventId))
    && (forall k :: k in h.tasks ==> LinksEvent(h.links, h.tasks[k].caseId, h.tasks[k].eventId))
    && (forall a :: a in h.dispositions ==> LinksAlert(h.links, h.dispositions[a], a))
    && LinksAgree(h)
  }

  /** What intake guarantees of every history. */
  ghost predicate Sound(h: History) { ForeignKeys(h) && OwnCase(h) && Anchored(h) }

  // ---- the DELETE statements for one case, in order ----------------------

  function WithoutTasks(h: History, c: CaseId): History {
    h.(tasks := map k | k in h.tasks && h.tasks[k].caseId != c :: h.tasks[k],
       evaluations := map r | r in h.evaluations && !(h.evaluations[r] in h.tasks && h.tasks[h.evaluations[r]].caseId == c)
                        :: h.evaluations[r])
  }

  function WithoutAttempts(h: History, c: CaseId): History {
    h.(attempts := map r | r in h.attempts && !(h.attempts[r] in h.tasks && h.tasks[h.attempts[r]].caseId == c)
                     :: h.attempts[r])
  }

  function WithoutApprovals(h: History, c: CaseId): History {
    h.(approvals := map a | a in h.approvals && h.approvals[a].caseId != c :: h.approvals[a])
  }

  function WithoutValidations(h: History, c: CaseId): History {
    h.(resolutions := map r | r in h.resolutions && h.resolutions[r].caseId != c :: h.resolutions[r],
       validations := map v | v in h.validations && h.validations[v].caseId != c :: h.validations[v])
  }

  function WithoutRuns(h: History, c: CaseId): History {
    h.(runs := map r | r in h.runs && h.runs[r] != c :: h.runs[r])
  }

  /** Sessions take their reports with them. */
  function WithoutSessions(h: History, c: CaseId): History {
    h.(sessions := map r | r in h.sessions && h.sessions[r].caseId != c :: h.sessions[r],
       reports := map r | r in h.reports && !(h.reports[r].sessionId in h.sessions && h.sessions[h.reports[r].sessionId].caseId == c)
                    :: h.reports[r])
  }

  function WithoutArtifacts(h: History, c: CaseId): History {
    h.(artifacts := map r | r in h.artifacts && h.artifacts[r] != c :: h.artifacts[r])
  }

  function WithoutLinks(h: History, c: CaseId): History {
    h.(dispositions := map a | a in h.dispositions && h.dispositions[a] != c :: h.dispositions[a],
       links := set l | l in h.links && l.caseId != c)
  }

  function WithoutCase(h: History, c: CaseId): History { h.(cases := h.cases - {c}) }

  function LinkedEvents(h: History, c: CaseId): set<EventId> { set l | l in h.links && l.caseId == c :: l.eventId }

  function LinkedAlerts(h: History, c: CaseId): set<AlertId> { set l | l in h.links && l.caseId == c :: l.alertId }

  /** Rows of one case are gone, its evidence is still there. */
  function CaseErased(h: History, c: CaseId): History {
    WithoutCase(WithoutLinks(WithoutArtifacts(WithoutSessions(WithoutRuns(WithoutValidations(WithoutApprovals(
      WithoutTasks(WithoutAttempts(h, c), c), c), c), c), c), c), c), c)
  }

  predicate EventUnlinked(h: History, e: EventId) { forall l :: l in h.links ==> l.eventId != e }

  function WithoutEvents(h: History, ids: set<EventId>): History {
    h.(events := map e | e in h.events && !(e in ids && EventUnlinked(h, e)) :: h.events[e])
  }

  predicate AlertUnused(h: History, a: AlertId) {
    (forall e :: e in h.events ==> h.events[e] != a) && (forall l :: l in h.links ==> l.alertId != a)
  }

  function UnfinishedInbox(inbox: map<AlertId, InboxModel.Status>, alerts: set<AlertId>): map<AlertId, InboxModel.Status> {
    map a | a in inbox && !(a in alerts && (inbox[a].Completed? || inbox[a].DeadLetter?)) :: inbox[a]
  }

  function UsedRaws(h: History, alerts: set<AlertId>): set<AlertId> {
    set a | a in h.raws && !(a in alerts && AlertUnused(h, a))
  }

  function WithoutAlerts(h: History, alerts: set<AlertId>): History {
    h.(inbox := UnfinishedInbox(h.inbox, alerts), raws := UsedRaws(h, alerts))
  }

  /** Everything the purge of one case does. */
  function CasePurged(h: History, c: CaseId): History {
    WithoutAlerts(WithoutEvents(CaseErased(h, c), LinkedEvents(h, c)), LinkedAlerts(h, c))
  }

  // ---- no statement may leave a dangling key -----------------------------

  predicate NoAttemptsOf(h: History, c: CaseId) {
    forall r :: r in h.attempts ==> !(h.attempts[r] in h.tasks && h.tasks[h.attempts[r]].caseId == c)
  }

  predicate NoTasksOf(h: History, c: CaseId) { forall k :: k in h.tasks ==> h.tasks[k].caseId != c }

  predicate NoSessionsOf(h: History, c: CaseId) {
    && (forall r :: r in h.sessions ==> h.sessions[r].caseId != c)
    && (forall r :: r in h.reports ==> h.reports[r].caseId != c)
  }

  predicate NoRecordsOf(h: History, c: CaseId) {
    && NoTasksOf(h, c) && NoSessionsOf(h, c)
    && (forall a :: a in h.approvals ==> h.approvals[a].caseId != c)
    && (forall v :: v in h.validations ==> h.validations[v].caseId != c)
    && (forall r :: r in h.runs ==> h.runs[r] != c)
    && (forall r :: r in h.artifacts ==> h.artifacts[r] != c)
  }

  lemma AttemptsDeleted(h: History, c: CaseId)
    requires ForeignKeys(h) && OwnCase(h)
    ensures var d := WithoutAttempts(h, c); ForeignKeys(d) && OwnCase(d) && NoAttemptsOf(d, c)
  {
  }

  lemma TasksDeleted(h: History, c: CaseId)
    requires ForeignKeys(h) && OwnCase(h) && NoAttemptsOf(h, c)
    ensures var d := WithoutTasks(h, c); ForeignKeys(d) && OwnCase(d) && NoTasksOf(d, c)
  {
  }

  lemma ApprovalsDeleted(h: History, c: CaseId)
    requires ForeignKeys(h) && OwnCase(h) && NoTasksOf(h, c)
    ensures var d := WithoutApprovals(h, c); ForeignKeys(d) && OwnCase(d)
  {
  }

  lemma ValidationsDeleted(h: History, c: CaseId)
    requires ForeignKeys(h) && OwnCase(h)
    ensures var d := WithoutRuns(WithoutValidations(h, c), c); ForeignKeys(d) && OwnCase(d)
  {
  }

  lemma SessionsDeleted(h: History, c: CaseId)
    requires ForeignKeys(h) && OwnCase(h)
    ensures var d := WithoutSessions(h, c); ForeignKeys(d) && OwnCase(d) && NoSessionsOf(d, c)
  {
  }

  lemma ArtifactsDeleted(h: History, c: CaseId)
    requires ForeignKeys(h) && OwnCase(h) && NoSessionsOf(h, c)
    ensures var d := WithoutArtifacts(h, c); ForeignKeys(d) && OwnCase(d)
  {
  }

  lemma LinksDeleted(h: History, c: CaseId)
    requires ForeignKeys(h) && OwnCase(h)
    ensures var d := WithoutLinks(h, c); ForeignKeys(d) && OwnCase(d)
  {
  }

  lemma OnlyCasesChanged(h: History, d: History)
    requires OwnCase(h) && d == h.(cases := d.cases)
    ensures OwnCase(d)
  {
  }

  lemma CaseRowDeleted(h: History, c: CaseId)
    requires ForeignKeys(h) && NoRecordsOf(h, c)
    requires forall l :: l in h.links ==> l.caseId != c
    requires forall a :: a in h.dispositions ==> h.dispositions[a] != c
    ensures ForeignKeys(WithoutCase(h, c))
  {
  }

  lemma CaseDeleted(h: History, c: CaseId)
    requires ForeignKeys(h) && OwnCase(h) && NoRecordsOf(h, c)
    ensures var d := WithoutCase(WithoutLinks(h, c), c); ForeignKeys(d) && OwnCase(d)
  {
    hide ForeignKeys, OwnCase;
    var d := WithoutLinks(h, c);
    LinksDeleted(h, c);
    CaseRowDeleted(d, c);
    OnlyCasesChanged(d, WithoutCase(d, c));
  }

  /** Whatever order the other statements ran in, these leave no record of the case. */
  lemma NoRecordsLeft(h: History, c: CaseId)
    requires NoTasksOf(h, c) && NoSessionsOf(WithoutSessions(h, c), c)
    requires forall a :: a in h.approvals ==> h.approvals[a].caseId != c
    requires forall v :: v in h.validations ==> h.validations[v].caseId != c
    requires forall r :: r in h.runs ==> h.runs[r] != c
    ensures NoRecordsOf(WithoutArtifacts(WithoutSessions(h, c), c), c)
  {
  }

  /** Records of one case go child first, so every statement finds no dangling key. */
  lemma ErasingKeepsKeys(h: History, c: CaseId)
    requires ForeignKeys(h) && OwnCase(h)
    ensures ForeignKeys(CaseErased(h, c)) && OwnCase(CaseErased(h, c))
  {
    hide ForeignKeys, OwnCase;
    var h1 := WithoutAttempts(h, c);
    AttemptsDeleted(h, c);
    var h2 := WithoutTasks(h1, c);
    TasksDeleted(h1, c);
    var h3 := WithoutApprovals(h2, c);
    ApprovalsDeleted(h2, c);
    var h5 := WithoutRuns(WithoutValidations(h3, c), c);
    ValidationsDeleted(h3, c);
    var h6 := WithoutSessions(h5, c);
    SessionsDeleted(h5, c);
    var h7 := WithoutArtifacts(h6, c);
    ArtifactsDeleted(h6, c);
    NoRecordsLeft(h5, c);
    CaseDeleted(h7, c);
  }

  lemma StillAnchored(h: History, d: History, c: CaseId)
    requires Anchored(h) && d.events == h.events && d.links == WithoutLinks(h, c).links
    requires d.dispositions == WithoutLinks(h, c).dispositions
    requires d.tasks == WithoutTasks(h, c).tasks && d.approvals == WithoutApprovals(h, c).approvals
    requires d.validations == WithoutValidations(h, c).validations
    ensures Anchored(d)
  {
    forall x, e | x != c && LinksEvent(h.links, x, e) ensures LinksEvent(d.links, x, e) {
      var l :| l in h.links && l.caseId == x && l.eventId == e;
      assert l in d.links;
    }
    forall x, a | x != c && LinksAlert(h.links, x, a) ensures LinksAlert(d.links, x, a) {
      var l :| l in h.links && l.caseId == x && l.alertId == a;
      assert l in d.links;
    }
    hide LinksEvent, LinksAlert;
  }

  lemma ErasedDecisions(h: History, c: CaseId)
    ensures var d := CaseErased(h, c);
      && d.cases == h.cases - {c}
      && d.tasks == WithoutTasks(h, c).tasks && d.approvals == WithoutApprovals(h, c).approvals
      && d.validations == WithoutValidations(h, c).validations && d.resolutions == WithoutValidations(h, c).resolutions
  {
  }

  lemma ErasedRecords(h: History, c: CaseId)
    ensures var d := CaseErased(h, c);
      && d.links == WithoutLinks(h, c).links && d.dispositions == WithoutLinks(h, c).dispositions
      && d.runs == WithoutRuns(h, c).runs && d.artifacts == WithoutArtifacts(h, c).artifacts
      && d.sessions == WithoutSessions(h, c).sessions
  {
  }

  lemma ErasedEvidence(h: History, c: CaseId)
    ensures var d := CaseErased(h, c);
      d.events == h.events && d.raws == h.raws && d.inbox == h.inbox && d.links == (set l | l in h.links && l.caseId != c)
  {
  }

  lemma ErasingKeepsAnchors(h: History, c: CaseId)
    requires Anchored(h)
    ensures Anchored(CaseErased(h, c))
  {
    ErasedDecisions(h, c);
    ErasedRecords(h, c);
    ErasedEvidence(h, c);
    hide CaseErased;
    StillAnchored(h, CaseErased(h, c), c);
  }

  lemma AnchoredEvidence(h: History)
    requires Anchored(h)
    ensures forall v :: v in h.validations ==> exists l :: l in h.links && l.eventId == h.validations[v].eventId
    ensures forall a :: a in h.approvals ==> exists l :: l in h.links && l.eventId == h.approvals[a].eventId
    ensures forall k :: k in h.tasks ==> exists l :: l in h.links && l.eventId == h.tasks[k].eventId
    ensures forall a :: a in h.dispositions ==> exists l :: l in h.links && l.alertId == a
  {
  }

  lemma DispositionsUnmoved(h: History, d: History)
    requires Anchored(h) && EvidenceKeys(h) && d == h.(events := d.events, raws := d.raws, inbox := d.inbox)
    requires forall e :: e in d.events ==> d.events[e] in d.raws
    requires forall l :: l in h.links ==> l.eventId in d.events && l.alertId in d.raws
    ensures EvidenceKeys(d)
  {
    AnchoredEvidence(h);
  }

  lemma DecisionsUnmoved(h: History, d: History)
    requires Anchored(h) && GovernanceKeys(h) && TaskKeys(h)
    requires d == h.(events := d.events, raws := d.raws, inbox := d.inbox)
    requires forall l :: l in h.links ==> l.eventId in d.events
    ensures GovernanceKeys(d) && TaskKeys(d)
  {
    AnchoredEvidence(h);
    hide Anchored;
  }

  lemma RecordsUnmoved(h: History, d: History)
    requires Sound(h) && d == h.(events := d.events, raws := d.raws, inbox := d.inbox)
    requires forall e :: e in d.events ==> e in h.events && d.events[e] == h.events[e]
    ensures AgentKeys(d) && OwnCase(d) && Anchored(d)
  {
    hide EvidenceKeys, GovernanceKeys, TaskKeys;
  }

  /** Dropping evidence that no link names keeps a sound history sound. */
  lemma EvidenceChanged(h: History, d: History)
    requires Sound(h) && d == h.(events := d.events, raws := d.raws, inbox := d.inbox)
    requires forall e :: e in d.events ==> e in h.events && d.events[e] == h.events[e] && d.events[e] in d.raws
    requires forall l :: l in h.links ==> l.eventId in d.events && l.alertId in d.raws
    ensures Sound(d)
  {
    RecordsUnmoved(h, d);
    DecisionsUnmoved(h, d);
    hide AgentKeys, OwnCase, Anchored, GovernanceKeys, TaskKeys;
    assert EvidenceKeys(d) by { DispositionsUnmoved(h, d); }
  }

  lemma EventsOnly(h: History, ids: set<EventId>)
    ensures var d := WithoutEvents(h, ids);
      && d == h.(events := d.events)
      && (forall e :: e in d.events ==> e in h.events && d.events[e] == h.events[e])
      && (forall l :: l in h.links && l.eventId in h.events ==> l.eventId in d.events)
  {
  }

  /** A linked event is never an orphan, so removing orphans breaks no key. */
  lemma EventsDeleted(h: History, ids: set<EventId>)
    requires Sound(h)
    ensures Sound(WithoutEvents(h, ids))
  {
    EventsOnly(h, ids);
    EvidenceChanged(h, WithoutEvents(h, ids));
  }

  lemma AlertsOnly(h: History, alerts: set<AlertId>)
    ensures var d := WithoutAlerts(h, alerts);
      && d == h.(raws := d.raws, inbox := d.inbox)
      && d.raws <= h.raws
      && (forall l :: l in h.links && l.alertId in h.raws ==> l.alertId in d.raws)
      && (forall e :: e in h.events && h.events[e] in h.raws ==> h.events[e] in d.raws)
      && (forall a :: a in h.inbox && a !in d.inbox ==> !InboxModel.Unfinished(h.inbox[a]))
      && (forall a :: a in d.inbox ==> a in h.inbox && d.inbox[a] == h.inbox[a])
  {
  }

  lemma AlertsDeleted(h: History, alerts: set<AlertId>)
    requires Sound(h)
    ensures Sound(WithoutAlerts(h, alerts))
  {
    AlertsOnly(h, alerts);
    EvidenceChanged(h, WithoutAlerts(h, alerts));
  }

  /** Purging any case of a sound history leaves a sound history. */
  lemma PurgeKeepsSound(h: History, c: CaseId)
    requires Sound(h)
    ensures Sound(CasePurged(h, c))
  {
    ErasingKeepsKeys(h, c);
    ErasingKeepsAnchors(h, c);
    hide ForeignKeys, OwnCase, Anchored, CaseErased;
    EventsDeleted(CaseErased(h, c), LinkedEvents(h, c));
    AlertsDeleted(WithoutEvents(CaseErased(h, c), LinkedEvents(h, c)), LinkedAlerts(h, c));
  }

  // ---- a batch of cases --------------------------------------------------

  function AllPurged(h: History, cs: seq<CaseId>): History
    decreases |cs|
  {
    if cs == [] then h else AllPurged(CasePurged(h, cs[0]), cs[1..])
  }

  function PurgeableCases(h: History, before: int): set<CaseId> {
    set c | c in h.cases && Purgeable(TablesOf(h), c, before)
  }

  function BatchSize(limit: int): nat { Max(1, Min(limit, 1000)) }

  /** What the candidate query returns: the longest-closed purgeable cases. */
  ghost predicate IsPurgeBatch(h: History, before: int, limit: int, cs: seq<CaseId>) {
    var all := PurgeableCases(h, before);
    && |cs| == Min(BatchSize(limit), |all|)
    && (forall i :: 0 <= i < |cs| ==> cs[i] in all)
    && (forall i, j :: 0 <= i < j < |cs| ==> cs[i] != cs[j] && ClosedSince(h.cases[cs[i]]) <= ClosedSince(h.cases[cs[j]]))
    && (forall i, c :: 0 <= i < |cs| && c in all && c !in cs ==> ClosedSince(h.cases[cs[i]]) <= ClosedSince(h.cases[c]))
  }

  ghost predicate LinkedTo(h: History, e: EventId, cs: set<CaseId>) {
    exists l :: l in h.links && l.eventId == e && l.caseId in cs
  }

  ghost predicate DecisionsLost(h: History, d: History, gone: set<CaseId>) {
    TablesOf(d) == Purged(TablesOf(h), gone)
  }

  function KeptLinks(links: set<Link>, gone: set<CaseId>): set<Link> { set l | l in links && l.caseId !in gone }

  function KeptDispositions(rows: map<AlertId, CaseId>, gone: set<CaseId>): map<AlertId, CaseId> {
    map a | a in rows && rows[a] !in gone :: rows[a]
  }

  /** Of the agent runs, or of the artifacts. */
  function KeptOfCase(rows: map<RowId, CaseId>, gone: set<CaseId>): map<RowId, CaseId> {
    map r | r in rows && rows[r] !in gone :: rows[r]
  }

  function KeptSessions(rows: map<RowId, Session>, gone: set<CaseId>): map<RowId, Session> {
    map r | r in rows && rows[r].caseId !in gone :: rows[r]
  }

  ghost predicate RecordsLost(h: History, d: History, gone: set<CaseId>) {
    && d.links == KeptLinks(h.links, gone) && d.dispositions == KeptDispositions(h.dispositions, gone)
    && d.runs == KeptOfCase(h.runs, gone) && d.artifacts == KeptOfCase(h.artifacts, gone)
    && d.sessions == KeptSessions(h.sessions, gone)
  }

  /** Exactly the cases in `gone` disappeared, with their rows and nobody else's. */
  ghost predicate OnlyLost(h: History, d: History, gone: set<CaseId>) {
    DecisionsLost(h, d, gone) && RecordsLost(h, d, gone)
  }

  ghost predicate AlertLinkedTo(h: History, a: AlertId, cs: set<CaseId>) {
    exists l :: l in h.links && l.alertId == a && l.caseId in cs
  }

  /** Exactly the events go that only purged cases were linked to. */
  ghost predicate EventsKept(h: History, d: History, gone: set<CaseId>) {
    && (forall e :: e in d.events ==> e in h.events && d.events[e] == h.events[e])
    && (forall e :: e in h.events ==>
          (e !in d.events <==> LinkedTo(h, e, gone) && !LinkedTo(h, e, h.cases.Keys - gone)))
  }

  ghost predicate RawGoes(h: History, d: History, gone: set<CaseId>, a: AlertId) {
    && AlertLinkedTo(h, a, gone) && !AlertLinkedTo(h, a, h.cases.Keys - gone)
    && forall e :: e in d.events ==> d.events[e] != a
  }

  /** Exactly the raw alerts go that only purged cases were linked to and no event is left of. */
  ghost predicate RawsKept(h: History, d: History, gone: set<CaseId>) {
    && d.raws <= h.raws
    && forall a :: a in h.raws ==> (a !in d.raws <==> RawGoes(h, d, gone, a))
  }

  predicate Finished(s: InboxModel.Status) { s.Completed? || s.DeadLetter? }

  /** Exactly the finished inbox rows of the purged cases' alerts go. */
  ghost predicate InboxKept(h: History, d: History, gone: set<CaseId>) {
    && (forall a :: a in d.inbox ==> a in h.inbox && d.inbox[a] == h.inbox[a])
    && (forall a :: a in h.inbox ==> (a !in d.inbox <==> AlertLinkedTo(h, a, gone) && Finished(h.inbox[a])))
  }

  ghost predicate EvidenceKept(h: History, d: History, gone: set<CaseId>) {
    EventsKept(h, d, gone) && RawsKept(h, d, gone) && InboxKept(h, d, gone)
  }

  /** Deleting orphaned evidence touches no other table. */
  lemma PurgedTables(h: History, c: CaseId)
    ensures var e := CaseErased(h, c);
      CasePurged(h, c) == e.(events := CasePurged(h, c).events, inbox := CasePurged(h, c).inbox, raws := CasePurged(h, c).raws)
  {
    hide CaseErased, LinkedEvents, LinkedAlerts, UsedRaws, UnfinishedInbox, EventUnlinked;
  }

  lemma TablesSplit(h: History, d: History, gone: set<CaseId>)
    requires var p := Purged(TablesOf(h), gone);
      && d.cases == p.cases && d.tasks == p.tasks && d.approvals == p.approvals
      && d.validations == p.validations && d.resolutions == p.resolutions
    ensures DecisionsLost(h, d, gone)
  {
    hide Purged;
  }

  lemma TasksOfOne(h: History, c: CaseId)
    ensures WithoutTasks(h, c).tasks == Purged(TablesOf(h), {c}).tasks
    ensures h.cases - {c} == Purged(TablesOf(h), {c}).cases
  {
  }

  lemma ApprovalsOfOne(h: History, c: CaseId)
    ensures WithoutApprovals(h, c).approvals == Purged(TablesOf(h), {c}).approvals
  {
  }

  lemma ValidationsOfOne(h: History, c: CaseId)
    ensures WithoutValidations(h, c).validations == Purged(TablesOf(h), {c}).validations
    ensures WithoutValidations(h, c).resolutions == Purged(TablesOf(h), {c}).resolutions
  {
  }

  lemma DecisionsOfOne(h: History, d: History, c: CaseId)
    requires d.cases == h.cases - {c}
    requires d.tasks == WithoutTasks(h, c).tasks && d.approvals == WithoutApprovals(h, c).approvals
    requires d.validations == WithoutValidations(h, c).validations && d.resolutions == WithoutValidations(h, c).resolutions
    ensures DecisionsLost(h, d, {c})
  {
    hide *;
    TasksOfOne(h, c);
    ApprovalsOfOne(h, c);
    ValidationsOfOne(h, c);
    TablesSplit(h, d, {c});
  }

  lemma OneCaseDecisions(h: History, c: CaseId)
    ensures DecisionsLost(h, CasePurged(h, c), {c})
  {
    hide *;
    PurgedTables(h, c);
    ErasedDecisions(h, c);
    DecisionsOfOne(h, CasePurged(h, c), c);
  }

  lemma LinksOfOne(h: History, c: CaseId)
    ensures WithoutLinks(h, c).links == KeptLinks(h.links, {c})
    ensures WithoutLinks(h, c).dispositions == KeptDispositions(h.dispositions, {c})
  {
  }

  lemma RunsOfOne(h: History, c: CaseId)
    ensures WithoutRuns(h, c).runs == KeptOfCase(h.runs, {c})
    ensures WithoutArtifacts(h, c).artifacts == KeptOfCase(h.artifacts, {c})
    ensures WithoutSessions(h, c).sessions == KeptSessions(h.sessions, {c})
  {
  }

  lemma RecordsOfOne(h: History, d: History, c: CaseId)
    requires d.links == WithoutLinks(h, c).links && d.dispositions == WithoutLinks(h, c).dispositions
    requires d.runs == WithoutRuns(h, c).runs && d.artifacts == WithoutArtifacts(h, c).artifacts
    requires d.sessions == WithoutSessions(h, c).sessions
    ensures RecordsLost(h, d, {c})
  {
    hide WithoutLinks, WithoutRuns, WithoutArtifacts, WithoutSessions, KeptLinks, KeptDispositions, KeptOfCase, KeptSessions;
    LinksOfOne(h, c);
    RunsOfOne(h, c);
  }

  lemma OneCaseRecords(h: History, c: CaseId)
    ensures RecordsLost(h, CasePurged(h, c), {c})
  {
    hide *;
    PurgedTables(h, c);
    ErasedRecords(h, c);
    RecordsOfOne(h, CasePurged(h, c), c);
  }

  lemma OneCaseEvents(h: History, d: History, c: CaseId)
    requires d.events == h.events && d.links == (set l | l in h.links && l.caseId != c) && EvidenceKeys(h)
    ensures EventsKept(h, WithoutAlerts(WithoutEvents(d, LinkedEvents(h, c)), LinkedAlerts(h, c)), {c})
  {
    var m := WithoutEvents(d, LinkedEvents(h, c));
    EventsOnly(d, LinkedEvents(h, c));
    AlertsOnly(m, LinkedAlerts(h, c));
    hide WithoutAlerts;
    forall e | e in h.events
      ensures e !in m.events <==> LinkedTo(h, e, {c}) && !LinkedTo(h, e, h.cases.Keys - {c})
    {
      if e in LinkedEvents(h, c) {
        var l :| l in h.links && l.caseId == c && l.eventId == e;
        assert LinkedTo(h, e, {c});
      }
    }
  }

  lemma LinkedAlert(h: History, c: CaseId, a: AlertId)
    ensures a in LinkedAlerts(h, c) <==> AlertLinkedTo(h, a, {c})
  {
    if a in LinkedAlerts(h, c) {
      var l :| l in h.links && l.caseId == c && l.alertId == a;
    }
  }

  lemma KeptLink(h: History, m: History, c: CaseId, a: AlertId)
    requires EvidenceKeys(h) && m.links == (set l | l in h.links && l.caseId != c)
    ensures AlertLinkedTo(h, a, h.cases.Keys - {c}) <==> exists l :: l in m.links && l.alertId == a
  {
  }

  lemma OneCaseAlerts(h: History, d: History, c: CaseId)
    requires d.links == (set l | l in h.links && l.caseId != c) && d.raws == h.raws && d.inbox == h.inbox && EvidenceKeys(h)
    ensures var w := WithoutAlerts(WithoutEvents(d, LinkedEvents(h, c)), LinkedAlerts(h, c));
      RawsKept(h, w, {c}) && InboxKept(h, w, {c})
  {
    var m := WithoutEvents(d, LinkedEvents(h, c));
    assert m.links == d.links && m.raws == h.raws && m.inbox == h.inbox;
    hide WithoutEvents;
    forall a ensures a in LinkedAlerts(h, c) <==> AlertLinkedTo(h, a, {c}) {
      LinkedAlert(h, c, a);
    }
    forall a ensures AlertLinkedTo(h, a, h.cases.Keys - {c}) <==> exists l :: l in m.links && l.alertId == a {
      KeptLink(h, m, c, a);
    }
    hide LinkedAlerts, AlertLinkedTo, EvidenceKeys;
  }

  lemma OneCaseEvidence(h: History, c: CaseId)
    requires EvidenceKeys(h)
    ensures EvidenceKept(h, CasePurged(h, c), {c})
  {
    var d := CaseErased(h, c);
    ErasedEvidence(h, c);
    hide CaseErased;
    OneCaseEvents(h, d, c);
    OneCaseAlerts(h, d, c);
  }

  lemma TasksTwice(t: Tables, first: set<CaseId>, second: set<CaseId>)
    ensures KeptTasks(KeptTasks(t.tasks, first), second) == KeptTasks(t.tasks, first + second)
    ensures KeptApprovals(KeptApprovals(t.approvals, first), second) == KeptApprovals(t.approvals, first + second)
  {
  }

  lemma RecordsTwice(t: Tables, first: set<CaseId>, second: set<CaseId>)
    ensures KeptValidations(KeptValidations(t.validations, first), second) == KeptValidations(t.validations, first + second)
    ensures KeptResolutions(KeptResolutions(t.resolutions, first), second) == KeptResolutions(t.resolutions, first + second)
  {
  }

  /** Purging in two steps is purging at once. */
  lemma PurgedTwice(t: Tables, first: set<CaseId>, second: set<CaseId>)
    ensures Purged(Purged(t, first), second) == Purged(t, first + second)
  {
    hide KeptTasks, KeptApprovals, KeptValidations, KeptResolutions;
    TasksTwice(t, first, second);
    RecordsTwice(t, first, second);
    assert t.cases - first - second == t.cases - (first + second);
  }

  lemma DecisionsCompose(h: History, m: History, d: History, c: CaseId, gone: set<CaseId>)
    requires DecisionsLost(h, m, {c}) && DecisionsLost(m, d, gone)
    ensures DecisionsLost(h, d, gone + {c})
  {
    PurgedTwice(TablesOf(h), {c}, gone);
    hide Purged;
    assert {c} + gone == gone + {c};
  }

  lemma RecordsCompose(h: History, m: History, d: History, c: CaseId, gone: set<CaseId>)
    requires RecordsLost(h, m, {c}) && RecordsLost(m, d, gone)
    ensures RecordsLost(h, d, gone + {c})
  {
  }

  lemma LinksAfter(h: History, m: History, c: CaseId)
    requires OnlyLost(h, m, {c})
    ensures m.links == (set l | l in h.links && l.caseId !in {c}) && m.cases.Keys == h.cases.Keys - {c}
  {
  }

  /** An event goes with the second purge if its last links went with either. */
  lemma LostEventsCompose(h: History, m: History, d: History, c: CaseId, gone: set<CaseId>, e: EventId)
    requires m.links == (set l | l in h.links && l.caseId !in {c}) && m.cases.Keys == h.cases.Keys - {c} && c !in gone
    ensures LinkedTo(h, e, gone + {c}) <==> LinkedTo(m, e, gone) || LinkedTo(h, e, {c})
    ensures LinkedTo(h, e, h.cases.Keys - (gone + {c})) <==> LinkedTo(m, e, m.cases.Keys - gone)
    ensures LinkedTo(h, e, h.cases.Keys - {c}) <==> LinkedTo(m, e, m.cases.Keys)
    ensures LinkedTo(m, e, m.cases.Keys) ==> LinkedTo(m, e, gone) || LinkedTo(m, e, m.cases.Keys - gone)
    ensures LinkedTo(m, e, m.cases.Keys - gone) ==> LinkedTo(m, e, m.cases.Keys)
  {
    assert forall l :: l in m.links <==> l in h.links && l.caseId != c;
  }

  /** Links name existing cases, so a link is to a lost case or to a kept one. */
  lemma UnlinkedInKeys(h: History, m: History, c: CaseId, gone: set<CaseId>, e: EventId)
    requires EvidenceKeys(h) && m.cases.Keys == h.cases.Keys - {c}
    requires m.links == (set l | l in h.links && l.caseId !in {c})
    ensures LinkedTo(m, e, gone) ==> LinkedTo(m, e, m.cases.Keys)
  {
  }

  lemma EventsCompose(h: History, m: History, d: History, c: CaseId, gone: set<CaseId>)
    requires EvidenceKeys(h) && EventsKept(h, m, {c}) && EventsKept(m, d, gone) && c !in gone
    requires m.links == (set l | l in h.links && l.caseId !in {c}) && m.cases.Keys == h.cases.Keys - {c}
    ensures EventsKept(h, d, gone + {c})
  {
    hide LinkedTo;
    forall e | e in h.events
      ensures e !in d.events <==> LinkedTo(h, e, gone + {c}) && !LinkedTo(h, e, h.cases.Keys - (gone + {c}))
    {
      LostEventsCompose(h, m, d, c, gone, e);
      UnlinkedInKeys(h, m, c, gone, e);
    }
  }

  lemma AlertLinksCompose(h: History, m: History, c: CaseId, gone: set<CaseId>, a: AlertId)
    requires m.links == (set l | l in h.links && l.caseId !in {c}) && m.cases.Keys == h.cases.Keys - {c} && c !in gone
    ensures AlertLinkedTo(h, a, gone + {c}) <==> AlertLinkedTo(m, a, gone) || AlertLinkedTo(h, a, {c})
    ensures AlertLinkedTo(h, a, h.cases.Keys - (gone + {c})) <==> AlertLinkedTo(m, a, m.cases.Keys - gone)
    ensures AlertLinkedTo(h, a, h.cases.Keys - {c}) <==> AlertLinkedTo(m, a, m.cases.Keys)
    ensures AlertLinkedTo(m, a, m.cases.Keys) ==> AlertLinkedTo(m, a, gone) || AlertLinkedTo(m, a, m.cases.Keys - gone)
    ensures AlertLinkedTo(m, a, m.cases.Keys - gone) ==> AlertLinkedTo(m, a, m.cases.Keys)
  {
    assert forall l :: l in m.links <==> l in h.links && l.caseId != c;
  }

  /** When no later case of the batch is linked to an alert, its events are settled already:
      the events that still go later are linked, with this alert, to a later case. */
  lemma EventsOfAlertSettled(h: History, m: History, d: History, c: CaseId, gone: set<CaseId>, a: AlertId)
    requires LinksAgree(h) && EventsKept(h, m, {c}) && EventsKept(m, d, gone)
    requires m.links == (set l | l in h.links && l.caseId !in {c})
    requires !AlertLinkedTo(m, a, gone) && forall e :: e in d.events ==> d.events[e] != a
    ensures forall e :: e in m.events ==> m.events[e] != a
  {
    forall l | l in m.links && l.eventId in m.events && m.events[l.eventId] == a ensures l.caseId !in gone {
      assert l in h.links;
    }
  }

  lemma EventsOnlyGo(m: History, d: History, gone: set<CaseId>, a: AlertId)
    requires EventsKept(m, d, gone)
    ensures (forall e :: e in m.events ==> m.events[e] != a) ==> forall e :: e in d.events ==> d.events[e] != a
  {
  }

  lemma AlertLinkKeys(h: History, m: History, c: CaseId, gone: set<CaseId>, a: AlertId)
    requires EvidenceKeys(h) && m.cases.Keys == h.cases.Keys - {c}
    requires m.links == (set l | l in h.links && l.caseId !in {c})
    ensures AlertLinkedTo(m, a, gone) ==> AlertLinkedTo(m, a, m.cases.Keys)
  {
  }

  lemma RawsCompose(h: History, m: History, d: History, c: CaseId, gone: set<CaseId>)
    requires LinksAgree(h) && EventsKept(h, m, {c}) && EventsKept(m, d, gone)
    requires RawsKept(h, m, {c}) && RawsKept(m, d, gone) && c !in gone
    requires m.links == (set l | l in h.links && l.caseId !in {c}) && m.cases.Keys == h.cases.Keys - {c}
    requires EvidenceKeys(h)
    ensures RawsKept(h, d, gone + {c})
  {
    hide AlertLinkedTo, LinkedTo, EvidenceKeys, LinksAgree, EventsKept;
    forall a | a in h.raws ensures a !in d.raws <==> RawGoes(h, d, gone + {c}, a) {
      AlertLinksCompose(h, m, c, gone, a);
      AlertLinkKeys(h, m, c, gone, a);
      EventsOnlyGo(m, d, gone, a);
      if RawGoes(h, d, gone + {c}, a) && a in m.raws && !AlertLinkedTo(m, a, gone) {
        EventsOfAlertSettled(h, m, d, c, gone, a);
      }
    }
  }

  lemma InboxComposes(h: History, m: History, d: History, c: CaseId, gone: set<CaseId>)
    requires InboxKept(h, m, {c}) && InboxKept(m, d, gone) && c !in gone
    requires m.links == (set l | l in h.links && l.caseId !in {c}) && m.cases.Keys == h.cases.Keys - {c}
    ensures InboxKept(h, d, gone + {c})
  {
    hide AlertLinkedTo;
    forall a | a in h.inbox
      ensures a !in d.inbox <==> AlertLinkedTo(h, a, gone + {c}) && Finished(h.inbox[a])
    {
      AlertLinksCompose(h, m, c, gone, a);
    }
  }

  lemma EvidenceComposes(h: History, m: History, d: History, c: CaseId, gone: set<CaseId>)
    requires EvidenceKeys(h) && LinksAgree(h) && OnlyLost(h, m, {c}) && EvidenceKept(h, m, {c}) && EvidenceKept(m, d, gone)
    requires c !in gone
    ensures EvidenceKept(h, d, gone + {c})
  {
    hide OnlyLost, EventsKept, RawsKept, InboxKept;
    LinksAfter(h, m, c);
    EventsCompose(h, m, d, c, gone);
    RawsCompose(h, m, d, c, gone);
    InboxComposes(h, m, d, c, gone);
  }

  lemma LossSplits(h: History, d: History, gone: set<CaseId>)
    ensures OnlyLost(h, d, gone) <==> DecisionsLost(h, d, gone) && RecordsLost(h, d, gone)
  {
  }

  function KeptOfTask(rows: map<RowId, TaskId>, tasks: map<TaskId, Task>): map<RowId, TaskId> {
    map r | r in rows && rows[r] in tasks :: rows[r]
  }

  function KeptReports(rows: map<RowId, Report>, sessions: map<RowId, Session>): map<RowId, Report> {
    map r | r in rows && rows[r].sessionId in sessions :: rows[r]
  }

  /** Attempts and evaluations go exactly with their tasks, reports with their sessions. */
  predicate DetailsLost(h: History, d: History) {
    && d.attempts == KeptOfTask(h.attempts, d.tasks) && d.evaluations == KeptOfTask(h.evaluations, d.tasks)
    && d.reports == KeptReports(h.reports, d.sessions)
    && d.tasks.Keys <= h.tasks.Keys && d.sessions.Keys <= h.sessions.Keys
  }

  lemma ErasedDetails(h: History, c: CaseId)
    ensures var d := CaseErased(h, c);
      && d.attempts == WithoutAttempts(h, c).attempts && d.evaluations == WithoutTasks(h, c).evaluations
      && d.tasks == WithoutTasks(h, c).tasks && d.reports == WithoutSessions(h, c).reports && d.sessions == WithoutSessions(h, c).sessions
  {
  }

  lemma TaskDetails(h: History, c: CaseId)
    requires TaskKeys(h)
    ensures WithoutAttempts(h, c).attempts == KeptOfTask(h.attempts, WithoutTasks(h, c).tasks)
    ensures WithoutTasks(h, c).evaluations == KeptOfTask(h.evaluations, WithoutTasks(h, c).tasks)
    ensures WithoutTasks(h, c).tasks.Keys <= h.tasks.Keys
  {
  }

  lemma SessionDetails(h: History, c: CaseId)
    requires AgentKeys(h)
    ensures WithoutSessions(h, c).reports == KeptReports(h.reports, WithoutSessions(h, c).sessions)
    ensures WithoutSessions(h, c).sessions.Keys <= h.sessions.Keys
  {
  }

  lemma OneCaseDetails(h: History, c: CaseId)
    requires ForeignKeys(h)
    ensures DetailsLost(h, CasePurged(h, c))
  {
    PurgedTables(h, c);
    ErasedDetails(h, c);
    TaskDetails(h, c);
    SessionDetails(h, c);
    hide CasePurged, CaseErased, WithoutTasks, WithoutAttempts, WithoutSessions, KeptOfTask, KeptReports;
  }

  lemma NoDetailsLost(h: History)
    requires ForeignKeys(h)
    ensures DetailsLost(h, h)
  {
    hide EvidenceKeys, GovernanceKeys;
  }

  lemma KeptTwice(rows: map<RowId, TaskId>, first: map<TaskId, Task>, second: map<TaskId, Task>)
    requires second.Keys <= first.Keys
    ensures KeptOfTask(KeptOfTask(rows, first), second) == KeptOfTask(rows, second)
  {
  }

  lemma ReportsTwice(rows: map<RowId, Report>, first: map<RowId, Session>, second: map<RowId, Session>)
    requires second.Keys <= first.Keys
    ensures KeptReports(KeptReports(rows, first), second) == KeptReports(rows, second)
  {
  }

  lemma DetailsCompose(h: History, m: History, d: History)
    requires DetailsLost(h, m) && DetailsLost(m, d)
    ensures DetailsLost(h, d)
  {
    KeptTwice(h.attempts, m.tasks, d.tasks);
    KeptTwice(h.evaluations, m.tasks, d.tasks);
    ReportsTwice(h.reports, m.sessions, d.sessions);
    hide KeptOfTask, KeptReports;
  }

  lemma SoundKeys(h: History)
    requires Sound(h)
    ensures ForeignKeys(h)
  {
  }

  lemma {:induction false} BatchDetails(h: History, cs: seq<CaseId>)
    requires Sound(h)
    ensures DetailsLost(h, AllPurged(h, cs))
    decreases |cs|
  {
    hide Sound, CasePurged, DetailsLost;
    SoundKeys(h);
    if cs == [] {
      NoDetailsLost(h);
    } else {
      OneCaseDetails(h, cs[0]);
      PurgeKeepsSound(h, cs[0]);
      BatchDetails(CasePurged(h, cs[0]), cs[1..]);
      DetailsCompose(h, CasePurged(h, cs[0]), AllPurged(h, cs));
    }
  }

  lemma OneCasePurged(h: History, c: CaseId)
    requires Sound(h)
    ensures var m := CasePurged(h, c); Sound(m) && OnlyLost(h, m, {c}) && EvidenceKept(h, m, {c})
  {
    PurgeKeepsSound(h, c);
    OneCaseDecisions(h, c);
    OneCaseRecords(h, c);
    OneCaseEvidence(h, c);
    hide *;
    assert OnlyLost(h, CasePurged(h, c), {c}) by { LossSplits(h, CasePurged(h, c), {c}); }
  }

  lemma SoundLinks(h: History)
    requires Sound(h)
    ensures LinksAgree(h) && EvidenceKeys(h)
  {
  }

  lemma LossComposes(h: History, m: History, d: History, c: CaseId, gone: set<CaseId>)
    requires Sound(h) && OnlyLost(h, m, {c}) && EvidenceKept(h, m, {c})
    requires OnlyLost(m, d, gone) && EvidenceKept(m, d, gone) && c !in gone
    ensures OnlyLost(h, d, gone + {c}) && EvidenceKept(h, d, gone + {c})
  {
    hide DecisionsLost, RecordsLost, EvidenceKept, OwnCase, Anchored, GovernanceKeys, TaskKeys, AgentKeys, EvidenceKeys;
    DecisionsCompose(h, m, d, c, gone);
    RecordsCompose(h, m, d, c, gone);
    SoundLinks(h);
    EvidenceComposes(h, m, d, c, gone);
  }

  function Members(cs: seq<CaseId>): set<CaseId> { set c | c in cs }

  lemma NothingLost(h: History)
    ensures OnlyLost(h, h, {}) && EvidenceKept(h, h, {})
  {
  }

  lemma {:induction false} BatchPurged(h: History, cs: seq<CaseId>)
    requires Sound(h) && forall i, j :: 0 <= i < j < |cs| ==> cs[i] != cs[j]
    ensures var d := AllPurged(h, cs);
      Sound(d) && OnlyLost(h, d, Members(cs)) && EvidenceKept(h, d, Members(cs))
    decreases |cs|
  {
    hide Sound, CasePurged, OnlyLost, EvidenceKept;
    if cs == [] {
      assert Members(cs) == {};
      NothingLost(h);
    } else {
      var rest := Members(cs[1..]);
      OneCasePurged(h, cs[0]);
      BatchPurged(CasePurged(h, cs[0]), cs[1..]);
      assert Members(cs) == rest + {cs[0]};
      LossComposes(h, CasePurged(h, cs[0]), AllPurged(h, cs), cs[0], rest);
    }
  }

  lemma BatchMembers(h: History, before: int, limit: int, cs: seq<CaseId>)
    requires IsPurgeBatch(h, before, limit, cs)
    ensures (forall i, j :: 0 <= i < j < |cs| ==> cs[i] != cs[j]) && Members(cs) <= h.cases.Keys
    ensures forall c :: c in Members(cs) ==> Purgeable(TablesOf(h), c, before)
  {
  }

  lemma CasesGone(h: History, d: History, cs: seq<CaseId>)
    requires OnlyLost(h, d, Members(cs))
    ensures forall c :: c in h.cases ==> (c in d.cases <==> c !in cs)
  {
    hide RecordsLost;
  }

  lemma ErasedCount(h: History, d: History, gone: set<CaseId>)
    requires OnlyLost(h, d, gone) && gone <= h.cases.Keys
    ensures |h.cases.Keys| - |d.cases.Keys| == |gone|
  {
    assert h.cases.Keys == d.cases.Keys + gone;
  }

  lemma {:induction false} DistinctCount(cs: seq<CaseId>)
    requires forall i, j :: 0 <= i < j < |cs| ==> cs[i] != cs[j]
    ensures |Members(cs)| == |cs|
  {
    if cs != [] {
      DistinctCount(cs[1..]);
      assert Members(cs) == Members(cs[1..]) + {cs[0]};
    }
  }

  /** Due for retention: closed or a false positive since before the cutoff, with every
      response task simulated, failed, cancelled or rolled back. */
  predicate IsDue(h: History, c: CaseId, before: int) {
    && c in h.cases && h.cases[c].status in {Closed, FalsePositive}
    && (match h.cases[c].closedAt case Some(at) => at < before case None => h.cases[c].updatedAt < before)
    && forall k :: k in h.tasks && h.tasks[k].caseId == c ==> h.tasks[k].status in {Shadowed, Failed, TaskCancelled, RolledBack}
  }

  /** When the case was closed, or last changed if that is not on record. */
  function Since(k: Case): int { match k.closedAt case Some(at) => at case None => k.updatedAt }

  lemma SinceIsClosedSince()
    ensures forall k: Case :: Since(k) == ClosedSince(k)
  {
  }

  lemma DueIsPurgeable(h: History, before: int, c: CaseId)
    ensures c in PurgeableCases(h, before) <==> IsDue(h, c, before)
  {
  }

  /** At least one case and at most 1000 a batch. */
  function Capacity(limit: int): int { if limit < 1 then 1 else if limit > 1000 then 1000 else limit }

  /** Every case of the batch is due, and no due case is missing unless the batch is full. */
  predicate HoldsDue(h: History, before: int, limit: int, cs: seq<CaseId>) {
    && |cs| <= Capacity(limit)
    && (forall c :: c in cs ==> IsDue(h, c, before))
    && (|cs| < Capacity(limit) ==> forall c :: c in h.cases && IsDue(h, c, before) ==> c in cs)
  }

  /** A batch holds due cases only, and every due case unless it is full, in which case it
      holds those due longest. */
  lemma BatchIsExact(h: History, before: int, limit: int, cs: seq<CaseId>, c: CaseId)
    requires IsPurgeBatch(h, before, limit, cs)
    ensures c in cs ==> IsDue(h, c, before)
    ensures IsDue(h, c, before) && c !in cs ==>
      && |cs| == Capacity(limit)
      && forall i :: 0 <= i < |cs| ==> cs[i] in h.cases && Since(h.cases[cs[i]]) <= Since(h.cases[c])
  {
    var all := PurgeableCases(h, before);
    DueIsPurgeable(h, before, c);
    SinceIsClosedSince();
    DistinctCount(cs);
    hide Purgeable, IsDue, ClosedSince, Since;
    if c in all && c !in cs { SubsetSize(Members(cs), all - {c}); }
  }

  lemma BatchNotTooBig(h: History, before: int, limit: int, cs: seq<CaseId>)
    requires IsPurgeBatch(h, before, limit, cs)
    ensures |cs| <= Capacity(limit)
  {
  }

  lemma BatchHoldsDue(h: History, before: int, limit: int, cs: seq<CaseId>)
    requires IsPurgeBatch(h, before, limit, cs)
    ensures HoldsDue(h, before, limit, cs)
  {
    BatchNotTooBig(h, before, limit, cs);
    hide IsPurgeBatch, IsDue, Capacity, Since;
    forall c | c in h.cases || c in cs
      ensures (c in cs ==> IsDue(h, c, before)) && (IsDue(h, c, before) && c !in cs ==> |cs| == Capacity(limit))
    {
      BatchIsExact(h, before, limit, cs, c);
    }
  }

  /** The retention purge of a sound history: integrity survives; at most one batch of cases
      goes, every one terminal and past the cutoff; the other cases keep all their rows; and
      exactly the evidence goes that nothing else needs. */
  lemma PurgeIsLocal(h: History, before: int, limit: int, cs: seq<CaseId>)
    requires Sound(h) && IsPurgeBatch(h, before, limit, cs)
    ensures var d := AllPurged(h, cs);
      && Sound(d) && OnlyLost(h, d, Members(cs)) && DetailsLost(h, d) && EvidenceKept(h, d, Members(cs))
      && |h.cases.Keys| - |d.cases.Keys| == |cs| && HoldsDue(h, before, limit, cs)
  {
    hide *;
    BatchMembers(h, before, limit, cs);
    BatchHoldsDue(h, before, limit, cs);
    BatchPurged(h, cs);
    BatchDetails(h, cs);
    DistinctCount(cs);
    ErasedCount(h, AllPurged(h, cs), Members(cs));
  }

  lemma LossIsPurge(h: History, d: History, gone: set<CaseId>)
    requires OnlyLost(h, d, gone)
    ensures TablesOf(d) == Purged(TablesOf(h), gone)
  {
    hide RecordsLost;
  }

  /** Seen from the governance tables the purge is one step of their runs, so it keeps
      quorum, gate, authorisation and compensation safety, and no erased task stood for a
      rule that was not rolled back. */
  lemma PurgeIsGoverned(h: History, before: int, limit: int, cs: seq<CaseId>, now: int)
    requires Sound(h) && Governed(TablesOf(h)) && IsPurgeBatch(h, before, limit, cs)
    ensures var d := AllPurged(h, cs);
      && Step(TablesOf(h), Purge(Members(cs), before), TablesOf(d), now)
      && Governed(TablesOf(d)) && OnlySettledErased(TablesOf(h), TablesOf(d))
  {
    hide *;
    var t, gone := TablesOf(h), Members(cs);
    BatchMembers(h, before, limit, cs);
    BatchPurged(h, cs);
    LossIsPurge(h, AllPurged(h, cs), gone);
    PurgeIsStep(t, gone, before, now);
    PurgeKeepsGoverned(t, gone);
    PurgeErasesNoRule(t, gone, before);
  }

  lemma OneMoreDone(all: set<RowId>, todo: set<RowId>, x: RowId)
    requires todo <= all && x in todo
    ensures all - (todo - {x}) == all - todo + {x}
  {
  }

  lemma NoEventsDeleted(h: History)
    ensures WithoutEvents(h, {}) == h
  {
  }

  lemma OneMoreEvent(h: History, done: set<EventId>, e: EventId)
    ensures WithoutEvents(WithoutEvents(h, done), {e}) == WithoutEvents(h, done + {e})
  {
  }

  lemma NoAlertsDeleted(h: History)
    ensures WithoutAlerts(h, {}) == h
  {
  }

  lemma OneMoreAlert(h: History, done: set<AlertId>, a: AlertId)
    ensures WithoutAlerts(WithoutAlerts(h, done), {a}) == WithoutAlerts(h, done + {a})
  {
    var m := WithoutAlerts(h, done);
    assert forall b :: AlertUnused(m, b) <==> AlertUnused(h, b);
  }

  // ---- the store ---------------------------------------------------------

  class HistoryStore {
    var db: History

    constructor (h: History)
      requires Sound(h)
      ensures db == h
    {
      db := h;
    }

    // Each DELETE of a parent row demands what SQLite demands: no child is left.

    method DeleteAttempts(c: CaseId)
      requires ForeignKeys(db) && OwnCase(db)
      modifies this
      ensures db == WithoutAttempts(old(db), c) && ForeignKeys(db) && OwnCase(db) && NoAttemptsOf(db, c)
    {
      AttemptsDeleted(db, c);
      db := WithoutAttempts(db, c);
    }

    method DeleteTasks(c: CaseId)
      requires ForeignKeys(db) && OwnCase(db) && NoAttemptsOf(db, c)
      modifies this
      ensures db == WithoutTasks(old(db), c) && ForeignKeys(db) && OwnCase(db) && NoTasksOf(db, c)
    {
      TasksDeleted(db, c);
      db := WithoutTasks(db, c);
    }

    method DeleteApprovals(c: CaseId)
      requires ForeignKeys(db) && OwnCase(db) && NoTasksOf(db, c)
      modifies this
      ensures db == WithoutApprovals(old(db), c) && ForeignKeys(db) && OwnCase(db)
    {
      ApprovalsDeleted(db, c);
      db := WithoutApprovals(db, c);
    }

    method DeleteValidationsAndRuns(c: CaseId)
      requires ForeignKeys(db) && OwnCase(db)
      modifies this
      ensures db == WithoutRuns(WithoutValidations(old(db), c), c) && ForeignKeys(db) && OwnCase(db)
    {
      ValidationsDeleted(db, c);
      db := WithoutRuns(WithoutValidations(db, c), c);
    }

    method DeleteSessions(c: CaseId)
      requires ForeignKeys(db) && OwnCase(db)
      modifies this
      ensures db == WithoutSessions(old(db), c) && ForeignKeys(db) && OwnCase(db) && NoSessionsOf(db, c)
    {
      SessionsDeleted(db, c);
      db := WithoutSessions(db, c);
    }

    method DeleteArtifacts(c: CaseId)
      requires ForeignKeys(db) && OwnCase(db) && NoSessionsOf(db, c)
      modifies this
      ensures db == WithoutArtifacts(old(db), c) && ForeignKeys(db) && OwnCase(db)
    {
      ArtifactsDeleted(db, c);
      db := WithoutArtifacts(db, c);
    }

    method DeleteLinksAndCase(c: CaseId)
      requires ForeignKeys(db) && OwnCase(db) && NoRecordsOf(db, c)
      modifies this
      ensures db == WithoutCase(WithoutLinks(old(db), c), c) && ForeignKeys(db) && OwnCase(db)
    {
      CaseDeleted(db, c);
      db := WithoutLinks(db, c);
      db := WithoutCase(db, c);
    }

    method DeleteOrphanEvent(e: EventId)
      modifies this
      ensures db == WithoutEvents(old(db), {e})
    {
      ghost var h := db;
      var events := db.events;
      if EventUnlinked(db, e) { events := events - {e}; }
      assert events == WithoutEvents(h, {e}).events;
      db := db.(events := events);
    }

    /** One event after the other, each only if no link names it. */
    method DeleteOrphanEvents(ids: set<EventId>)
      requires Sound(db)
      modifies this
      ensures db == WithoutEvents(old(db), ids) && Sound(db)
    {
      ghost var h := db;
      EventsDeleted(h, ids);
      hide WithoutEvents, Sound;
      NoEventsDeleted(h);
      var todo := ids;
      while todo != {}
        invariant todo <= ids && db == WithoutEvents(h, ids - todo)
        decreases |todo|
      {
        var e :| e in todo;
        OneMoreEvent(h, ids - todo, e);
        DeleteOrphanEvent(e);
        OneMoreDone(ids, todo, e);
        todo := todo - {e};
      }
      assert ids - todo == ids;
    }

    /** Its finished inbox row, then its raw row if nothing names it. */
    method DeleteOrphanAlert(a: AlertId)
      modifies this
      ensures db == WithoutAlerts(old(db), {a})
    {
      ghost var h := db;
      var inbox, raws := db.inbox, db.raws;
      if a in inbox && (inbox[a].Completed? || inbox[a].DeadLetter?) {
        inbox := inbox - {a};
      }
      if AlertUnused(db, a) {
        raws := raws - {a};
      }
      assert inbox == UnfinishedInbox(h.inbox, {a});
      assert raws == UsedRaws(h, {a});
      db := db.(inbox := inbox, raws := raws);
    }

    method DeleteOrphanAlerts(alerts: set<AlertId>)
      requires Sound(db)
      modifies this
      ensures db == WithoutAlerts(old(db), alerts) && Sound(db)
    {
      ghost var h := db;
      AlertsDeleted(h, alerts);
      hide WithoutAlerts, Sound;
      NoAlertsDeleted(h);
      var todo := alerts;
      while todo != {}
        invariant todo <= alerts && db == WithoutAlerts(h, alerts - todo)
        decreases |todo|
      {
        var a :| a in todo;
        OneMoreAlert(h, alerts - todo, a);
        DeleteOrphanAlert(a);
        OneMoreDone(alerts, todo, a);
        todo := todo - {a};
      }
      assert alerts - todo == alerts;
    }

    /** All statements of one case, in the order the source issues them. */
    method PurgeCase(c: CaseId)
      requires Sound(db)
      modifies this
      ensures db == CasePurged(old(db), c) && Sound(db)
    {
      ghost var h := db;
      var events, alerts := LinkedEvents(db, c), LinkedAlerts(db, c);
      hide Anchored;
      DeleteAttempts(c);
      DeleteTasks(c);
      DeleteApprovals(c);
      DeleteValidationsAndRuns(c);
      DeleteSessions(c);
      DeleteArtifacts(c);
      hide ForeignKeys, OwnCase;
      DeleteLinksAndCase(c);
      ErasingKeepsAnchors(h, c);
      assert db == CaseErased(h, c);
      hide CaseErased;
      DeleteOrphanEvents(events);
      DeleteOrphanAlerts(alerts);
    }

    method LongestClosed(ids: set<CaseId>) returns (first: CaseId)
      requires ids != {} && ids <= db.cases.Keys
      ensures first in ids && forall c :: c in ids ==> ClosedSince(db.cases[first]) <= ClosedSince(db.cases[c])
    {
      first :| first in ids;
      var todo := ids - {first};
      while todo != {}
        invariant todo <= ids && first in ids
        invariant forall c :: c in ids - todo ==> ClosedSince(db.cases[first]) <= ClosedSince(db.cases[c])
        decreases |todo|
      {
        var c :| c in todo;
        if ClosedSince(db.cases[c]) < ClosedSince(db.cases[first]) { first := c; }
        todo := todo - {c};
      }
    }

    /** The candidate query: repeatedly the purgeable case closed longest ago. */
    method Candidates(before: int, limit: int) returns (cs: seq<CaseId>)
      ensures IsPurgeBatch(db, before, limit, cs)
    {
      hide Purgeable, ClosedSince;
      var size := BatchSize(limit);
      var rest := PurgeableCases(db, before);
      ghost var all := rest;
      cs := [];
      while |cs| < size && rest != {}
        invariant |cs| <= size && |cs| + |rest| == |all| && rest <= all
        invariant forall i :: 0 <= i < |cs| ==> cs[i] in all && cs[i] !in rest
        invariant forall c :: c in all ==> c in cs || c in rest
        invariant forall i, j :: 0 <= i < j < |cs| ==>
          cs[i] != cs[j] && ClosedSince(db.cases[cs[i]]) <= ClosedSince(db.cases[cs[j]])
        invariant forall i, c :: 0 <= i < |cs| && c in rest ==> ClosedSince(db.cases[cs[i]]) <= ClosedSince(db.cases[c])
        decreases |rest|
      {
        var first := LongestClosed(rest);
        cs, rest := cs + [first], rest - {first};
      }
    }

    /** The data part of `purge_retained_history`. */
    method PurgeHistory(before: int, limit: int) returns (ghost batch: seq<CaseId>, count: nat)
      requires Sound(db)
      modifies this
      ensures IsPurgeBatch(old(db), before, limit, batch)
      ensures db == AllPurged(old(db), batch) && Sound(db)
      ensures count == |batch| == |old(db).cases.Keys| - |db.cases.Keys| && HoldsDue(old(db), before, limit, batch)
      ensures forall c :: c in old(db).cases ==> (c in db.cases <==> c !in batch)
    {
      hide Sound, CasePurged, IsPurgeBatch;
      var cs := Candidates(before, limit);
      batch, count := cs, |cs|;
      var i := 0;
      while i < |cs|
        invariant 0 <= i <= |cs| && Sound(db)
        invariant AllPurged(old(db), cs) == AllPurged(db, cs[i..])
      {
        PurgeCase(cs[i]);
        assert cs[i..][1..] == cs[i + 1..];
        i := i + 1;
      }
      PurgeIsLocal(old(db), before, limit, cs);
      CasesGone(old(db), db, cs);
    }
  }
}
