/** Rows of the durable alert inbox and what each repository statement does to
    them, as functions of the row map.  `now` is the clock read inside the step. */
module InboxModel {
  import opened AlertIdentity
  import opened Common
  import opened PyText

  type AlertId = string

  datatype Status = Pending | Retry | Deferred | Processing | Completed | DeadLetter

  /** The alert and the JSON text stored for it in `raw_alert_json`. */
  datatype Envelope = Envelope(alert: Alert, document: string)

  datatype Row = Row(
    envelope: Envelope,
    product: string,
    priority: int,
    status: Status,
    attempts: int,
    maxAttempts: int,
    availableAt: int,
    claimedAt: Option<int>,
    completedAt: Option<int>,
    lastError: string,
    createdAt: int,
    updatedAt: int)

  type Rows = map<AlertId, Row>
  type RawTable = map<AlertId, Alert>

  const AGED_AFTER_MS := 300_000
  const DEFERRED_PREFIX := "analysis_deferred:"
  const LEGACY_FRAGMENT := "remote LLM analysis deferred"
  const TERMINAL_FRAGMENTS := ["LLMEndpointConfigurationError", "LLMResponseContractError"]
  const DISPATCH_PRODUCTS := ["hips", "ndr", "rasp", "siem", "waf"]

  // ---- stored size -------------------------------------------------------

  function CharBytes(c: char): nat {
    var p := c as int;
    if p < 0x80 then 1 else if p < 0x800 then 2 else if p < 0x1_0000 then 3 else 4
  }

  /** Length of the UTF-8 encoding. */
  function Utf8Size(s: string): nat {
    if s == "" then 0 else CharBytes(s[0]) + Utf8Size(s[1..])
  }

  function Size(r: Row): nat { Utf8Size(r.envelope.document) }

  predicate Unfinished(s: Status) {
    s.Pending? || s.Retry? || s.Deferred? || s.Processing?
  }

  function Weight(r: Row): nat { if Unfinished(r.status) then Size(r) else 0 }

  /** The recount that the incremental counters must agree with. */
  function Backlog(rows: Rows): set<AlertId> {
    set id | id in rows && Unfinished(rows[id].status)
  }

  ghost function BacklogBytes(rows: Rows): nat
    decreases |rows|
  {
    if rows == map[] then 0
    else
      var id :| id in rows;
      Weight(rows[id]) + BacklogBytes(rows - {id})
  }

  lemma {:induction false} BacklogBytesSplit(rows: Rows, id: AlertId)
    requires id in rows
    ensures BacklogBytes(rows) == Weight(rows[id]) + BacklogBytes(rows - {id})
    decreases |rows|
  {
    var k :| k in rows && BacklogBytes(rows) == Weight(rows[k]) + BacklogBytes(rows - {k});
    if k != id {
      BacklogBytesSplit(rows - {k}, id);
      BacklogBytesSplit(rows - {id}, k);
      assert rows - {k} - {id} == rows - {id} - {k};
    }
  }

  lemma BacklogBytesPut(rows: Rows, id: AlertId, r: Row)
    ensures BacklogBytes(rows[id := r])
         == BacklogBytes(rows) - (if id in rows then Weight(rows[id]) else 0) + Weight(r)
  {
    BacklogBytesSplit(rows[id := r], id);
    if id in rows {
      BacklogBytesSplit(rows, id);
      assert rows[id := r] - {id} == rows - {id};
    } else {
      assert rows[id := r] - {id} == rows;
    }
  }

  lemma BacklogPut(rows: Rows, id: AlertId, r: Row)
    ensures |Backlog(rows[id := r])|
         == |Backlog(rows)| - (if id in Backlog(rows) then 1 else 0) + (if Unfinished(r.status) then 1 else 0)
  {
    var rest := Backlog(rows) - {id};
    assert Backlog(rows[id := r]) == if Unfinished(r.status) then rest + {id} else rest;
  }

  lemma BacklogRemove(rows: Rows, id: AlertId)
    requires id in rows
    ensures |Backlog(rows - {id})| == |Backlog(rows)| - (if id in Backlog(rows) then 1 else 0)
  {
    assert Backlog(rows - {id}) == Backlog(rows) - {id};
  }

  // ---- SQL LIKE, as the release filter uses it ---------------------------

  /** SQLite's LIKE: `%` any run, `_` any character, ASCII case ignored. */
  predicate Like(pattern: string, text: string)
    decreases |pattern| + |text|
  {
    if pattern == "" then text == ""
    else if pattern[0] == '%' then Like(pattern[1..], text) || (text != "" && Like(pattern, text[1..]))
    else
      && text != ""
      && (pattern[0] == '_' || LowerChar(pattern[0]) == LowerChar(text[0]))
      && Like(pattern[1..], text[1..])
  }

  predicate IsDeferralError(error: string) {
    Like(DEFERRED_PREFIX + "%", error) || Like("%" + LEGACY_FRAGMENT + "%", error)
  }

  predicate IsModelError(error: string) {
    || IsDeferralError(error)
    || Like("%" + TERMINAL_FRAGMENTS[0] + "%", error)
    || Like("%" + TERMINAL_FRAGMENTS[1] + "%", error)
  }

  lemma {:induction false} LikeAnything(text: string)
    ensures Like("%", text)
    decreases |text|
  {
    if text != "" { LikeAnything(text[1..]); }
  }

  lemma {:induction false} LikePrefix(prefix: string, rest: string)
    requires '%' !in prefix
    ensures Like(prefix + "%", prefix + rest)
    decreases |prefix|
  {
    if prefix == "" {
      assert prefix + "%" == "%" && prefix + rest == rest;
      LikeAnything(rest);
    } else {
      LikePrefix(prefix[1..], rest);
      assert (prefix + "%")[1..] == prefix[1..] + "%";
      assert (prefix + rest)[1..] == prefix[1..] + rest;
    }
  }

  // ---- row functions, one per UPDATE -------------------------------------

  function AlertPriority(severity: string): int {
    var s := Lower(OrElse(severity, "medium"));
    if s == "critical" then 0 else if s == "high" then 1 else if s == "medium" then 2 else 3
  }

  function FreshRow(e: Envelope, maxAttempts: int, now: int): Row {
    Row(e, Lower(OrElse(e.alert.product, "unknown")), AlertPriority(e.alert.severity), Pending,
        0, Max(1, maxAttempts), now, None, None, "", now, now)
  }

  function RecoveredRow(r: Row, maxAttempts: int, now: int): Row {
    r.(status := Pending, attempts := 0, maxAttempts := Max(1, maxAttempts), availableAt := now,
       claimedAt := None, completedAt := None, lastError := "", updatedAt := now)
  }

  function ClaimedRow(r: Row, now: int): Row {
    r.(status := Processing, attempts := r.attempts + 1, claimedAt := Some(now), updatedAt := now)
  }

  function RenewedRow(r: Row, now: int): Row {
    r.(claimedAt := Some(now), updatedAt := now)
  }

  function Cut(s: string, limit: nat): string {
    if |s| <= limit then s else s[..limit]
  }

  function DeadRow(r: Row, error: string, now: int): Row {
    r.(status := DeadLetter, availableAt := now, claimedAt := None, lastError := Cut(error, 2000), updatedAt := now)
  }

  function CompletedRow(r: Row, now: int): Row {
    r.(status := Completed, completedAt := Some(now), lastError := "", updatedAt := now)
  }

  function FailedRow(r: Row, error: string, delay: int, now: int): Row {
    if r.attempts >= r.maxAttempts then DeadRow(r, error, now)
    else DeadRow(r, error, now).(status := Retry, availableAt := now + Max(0, delay))
  }

  function DeferredRow(r: Row, reason: string, delay: int, now: int): Row {
    r.(status := Deferred, attempts := if r.attempts > 0 then r.attempts - 1 else 0,
       availableAt := now + Max(0, delay), claimedAt := None,
       lastError := DEFERRED_PREFIX + Cut(Strip(OrElse(reason, "remote_llm_unavailable")), 512), updatedAt := now)
  }

  function ReleasedRow(r: Row, now: int): Row {
    r.(status := Retry, attempts := 0, availableAt := now, claimedAt := None,
       lastError := DEFERRED_PREFIX + "recovery_dispatch", updatedAt := now)
  }

  function StaleRow(r: Row, now: int): Row {
    r.(status := if r.attempts >= r.maxAttempts then DeadLetter else Retry, availableAt := now,
       claimedAt := None, lastError := OrElse(r.lastError, "worker_claim_expired"), updatedAt := now)
  }

  // ---- claiming ----------------------------------------------------------

  predicate Queued(r: Row) { r.status.Pending? || r.status.Retry? }

  predicate Due(r: Row, now: int) { Queued(r) && r.availableAt <= now }

  predicate Aged(r: Row, now: int) { r.createdAt <= now - AGED_AFTER_MS }

  function AgeRank(r: Row, now: int): int { if Aged(r, now) then 0 else r.priority }

  function ProductRank(r: Row, preferred: string): int { if r.product == preferred then 0 else 1 }

  /** At or ahead of `b` in (available_at, created_at). */
  predicate QueuedBefore(a: Row, b: Row) {
    a.availableAt < b.availableAt || (a.availableAt == b.availableAt && a.createdAt <= b.createdAt)
  }

  /** The claim query's ORDER BY: age or priority, preferred product, due time, arrival. */
  predicate ClaimLeq(a: Row, b: Row, now: int, preferred: string) {
    || AgeRank(a, now) < AgeRank(b, now)
    || (AgeRank(a, now) == AgeRank(b, now)
        && (|| ProductRank(a, preferred) < ProductRank(b, preferred)
            || (ProductRank(a, preferred) == ProductRank(b, preferred) && QueuedBefore(a, b))))
  }

  /** What `ORDER BY … LIMIT 1` may return: any first row, ties left open. */
  ghost predicate IsNextClaim(rows: Rows, id: AlertId, now: int, preferred: string) {
    && id in rows && Due(rows[id], now)
    && forall other :: other in rows && Due(rows[other], now) ==> ClaimLeq(rows[id], rows[other], now, preferred)
  }

  // ---- batch statements --------------------------------------------------

  predicate Releasable(r: Row, force: bool, now: int) {
    && ((r.status.Deferred? && IsDeferralError(r.lastError)) || (r.status.DeadLetter? && IsModelError(r.lastError)))
    && (force || (r.status.Deferred? && r.availableAt <= now))
  }

  function ReleasableIds(rows: Rows, force: bool, now: int): set<AlertId> {
    set id | id in rows && Releasable(rows[id], force, now)
  }

  predicate ReleaseLeq(a: Row, b: Row) {
    || (a.status.DeadLetter? && !b.status.DeadLetter?)
    || (a.status.DeadLetter? == b.status.DeadLetter? && QueuedBefore(a, b))
  }

  function BatchLimit(limit: int): nat { Max(1, Min(limit, 500)) }

  /** `batch` is a prefix of the releasable rows under the release ORDER BY. */
  ghost predicate IsReleaseBatch(rows: Rows, force: bool, limit: int, now: int, batch: set<AlertId>) {
    var ids := ReleasableIds(rows, force, now);
    && batch <= ids
    && |batch| == Min(BatchLimit(limit), |ids|)
    && forall a, b :: a in batch && b in ids - batch ==> ReleaseLeq(rows[a], rows[b])
  }

  function ReleaseRows(rows: Rows, batch: set<AlertId>, now: int): Rows {
    map id | id in rows :: if id in batch then ReleasedRow(rows[id], now) else rows[id]
  }

  function DeadIn(rows: Rows, ids: set<AlertId>): set<AlertId>
    requires ids <= rows.Keys
  {
    set id | id in ids && rows[id].status.DeadLetter?
  }

  predicate Stale(r: Row, cutoff: int) {
    r.status.Processing? && r.claimedAt.Some? && r.claimedAt.value <= cutoff
  }

  function StaleIds(rows: Rows, cutoff: int): set<AlertId> {
    set id | id in rows && Stale(rows[id], cutoff)
  }

  function RecoverRows(rows: Rows, ids: set<AlertId>, now: int): Rows {
    map id | id in rows :: if id in ids then StaleRow(rows[id], now) else rows[id]
  }

  predicate PurgeableCompleted(r: Row, before: int) {
    r.status.Completed? && r.completedAt.Some? && r.completedAt.value < before
  }

  function PurgeRows(rows: Rows, before: int): Rows {
    map id | id in rows && !PurgeableCompleted(rows[id], before) :: rows[id]
  }

  // ---- admission ---------------------------------------------------------

  datatype Answer = Inserted | Recovered | Duplicate | Full | Conflict | NoAlertId

  /** The primary key: the submitted identifier without surrounding blanks. */
  function Key(a: Alert): AlertId { Strip(a.alertId) }

  predicate Collides(rows: Rows, raws: RawTable, a: Alert) {
    || (Key(a) in rows && IdentityOf(rows[Key(a)].envelope.alert) != IdentityOf(a))
    || (Key(a) in raws && IdentityOf(raws[Key(a)]) != IdentityOf(a))
  }

  predicate AtCapacity(count: int, bytes: int, incoming: int, capacity: int, capacityBytes: Option<int>) {
    || count >= Max(1, capacity)
    || (capacityBytes.Some? && bytes + incoming > Max(1, capacityBytes.value))
  }

  /** `hasResult` is whether the persisted analysis of a completed row still exists. */
  predicate Recoverable(rows: Rows, id: AlertId, hasResult: bool) {
    id in rows && rows[id].status.Completed? && !hasResult
  }

  function AdmissionAnswer(rows: Rows, id: AlertId, collides: bool, hasResult: bool, atCapacity: bool): Answer {
    if id == "" then NoAlertId
    else if collides then Conflict
    else if id in rows && !Recoverable(rows, id, hasResult) then Duplicate
    else if atCapacity then Full
    else if id in rows then Recovered
    else Inserted
  }

  function AdmittedRows(rows: Rows, id: AlertId, e: Envelope, answer: Answer, maxAttempts: int, now: int): Rows
    requires answer.Recovered? ==> id in rows
  {
    match answer
    case Inserted => rows[id := FreshRow(e, maxAttempts, now)]
    case Recovered => rows[id := RecoveredRow(rows[id], maxAttempts, now)]
    case _ => rows
  }
}
