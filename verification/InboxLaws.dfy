/** Why an inbox row changes: for every status the exact statements and states that lead
    into it, over any step, and which row the dispatcher takes, in the words of the schema. */
module InboxLaws {
  import opened AlertIdentity
  import opened Common
  import opened InboxModel
  import opened InboxRuns
  import opened Intake
  import opened PyText

  // ---- status ------------------------------------------------------------

  /** A claim of a waiting row that is due. */
  predicate Claims(s: State, ev: Event, now: int, id: AlertId)
    requires id in s.rows
  {
    && (ev == Dispatch(Some(id)) || ev == ClaimById(id))
    && s.rows[id].status in {Pending, Retry} && s.rows[id].availableAt <= now
  }

  /** The sweep takes the claim: it was made or renewed no later than the cutoff. */
  predicate Sweeps(s: State, ev: Event, id: AlertId)
    requires id in s.rows
  {
    && ev.RecoverStale? && s.rows[id].status.Processing?
    && s.rows[id].claimedAt.Some? && s.rows[id].claimedAt.value <= ev.cutoff
  }

  predicate Fails(s: State, ev: Event, id: AlertId)
    requires id in s.rows
  {
    ev.Fail? && ev.id == id && s.rows[id].status.Processing?
  }

  lemma ClaimsAre(s: State, ev: Event, s': State, id: AlertId)
    requires Step(s, ev, s') && id in s.rows
    ensures Claims(s, ev, s'.clock, id) ==> id in s'.rows && s'.rows[id] == ClaimedRow(s.rows[id], s'.clock)
    ensures ev == Dispatch(Some(id)) ==> Claims(s, ev, s'.clock, id)
    ensures (ev.Dispatch? || ev.ClaimById?) && !Claims(s, ev, s'.clock, id) ==> id in s'.rows && s'.rows[id] == s.rows[id]
  {
  }

  function OutcomeRow(r: Row, ev: Event, now: int): Row {
    match ev
    case Renew(_) => RenewedRow(r, now)
    case Complete(_) => CompletedRow(r, now)
    case Kill(_, error) => DeadRow(r, error, now)
    case Fail(_, error, delay) => FailedRow(r, error, delay, now)
    case Defer(_, reason, delay) => DeferredRow(r, reason, delay, now)
    case _ => r
  }

  lemma OutcomesAre(s: State, ev: Event, s': State, id: AlertId)
    requires Step(s, ev, s') && id in s.rows && IsWorkerOutcome(ev)
    ensures id in s'.rows
    ensures (ev.id != id || !s.rows[id].status.Processing?) ==> s'.rows[id] == s.rows[id]
    ensures ev.id == id && s.rows[id].status.Processing? ==> s'.rows[id] == OutcomeRow(s.rows[id], ev, s'.clock)
  {
    hide RenewedRow, CompletedRow, DeadRow, FailedRow, DeferredRow;
  }

  lemma SweepsAre(s: State, ev: Event, s': State, id: AlertId)
    requires Step(s, ev, s') && id in s.rows && (ev.RecoverStale? || ev.Release?)
    ensures id in s'.rows
    ensures s'.rows[id] ==
      if Sweeps(s, ev, id) then StaleRow(s.rows[id], s'.clock)
      else if ev.Release? && id in ev.batch then ReleasedRow(s.rows[id], s'.clock)
      else s.rows[id]
    ensures ev.Release? && id in ev.batch ==> s.rows[id].status in {Deferred, DeadLetter}
  {
    hide StaleRow, ReleasedRow;
  }

  /** A submission that brings the row of a completed alert back. */
  predicate Recovers(ev: Event, id: AlertId) { ev.Submit? && ev.answer.Recovered? && Key(ev.e.alert) == id }

  lemma RestAre(s: State, ev: Event, s': State, id: AlertId)
    requires Step(s, ev, s') && id in s.rows && id in s'.rows
    requires !ev.Dispatch? && !ev.ClaimById? && !IsWorkerOutcome(ev) && !ev.RecoverStale? && !ev.Release?
    ensures s'.rows[id] == if Recovers(ev, id) then RecoveredRow(s.rows[id], ev.maxAttempts, s'.clock) else s.rows[id]
    ensures Recovers(ev, id) ==> s.rows[id].status.Completed? && !ev.hasResult
  {
    hide RecoveredRow, IsValidated, Collides;
  }

  /** The row after any step that keeps it. */
  function RowAfter(s: State, ev: Event, now: int, id: AlertId): Row
    requires id in s.rows
  {
    var r := s.rows[id];
    if Claims(s, ev, now, id) then ClaimedRow(r, now)
    else if Sweeps(s, ev, id) then StaleRow(r, now)
    else if ev.Release? && id in ev.batch then ReleasedRow(r, now)
    else if Recovers(ev, id) then RecoveredRow(r, ev.maxAttempts, now)
    else if IsWorkerOutcome(ev) && ev.id == id && r.status.Processing? then OutcomeRow(r, ev, now)
    else r
  }

  lemma RowIsAfter(s: State, ev: Event, s': State, id: AlertId)
    requires Step(s, ev, s') && id in s.rows && id in s'.rows
    ensures s'.rows[id] == RowAfter(s, ev, s'.clock, id)
    ensures ev.Release? && id in ev.batch ==> s.rows[id].status in {Deferred, DeadLetter}
    ensures Recovers(ev, id) ==> s.rows[id].status.Completed? && !ev.hasResult
    ensures ev == Dispatch(Some(id)) ==> Claims(s, ev, s'.clock, id)
  {
    hide Step, ClaimedRow, StaleRow, ReleasedRow, RecoveredRow, RenewedRow, CompletedRow, DeadRow, FailedRow, DeferredRow, Key;
    if ev.Dispatch? || ev.ClaimById? { ClaimsAre(s, ev, s', id); }
    else if IsWorkerOutcome(ev) { OutcomesAre(s, ev, s', id); }
    else if ev.RecoverStale? || ev.Release? { SweepsAre(s, ev, s', id); }
    else { RestAre(s, ev, s', id); }
  }

  /** A row is buried exactly when its worker says it cannot be retried, or when it fails or
      loses its claim with its budget spent. */
  lemma WhyBuried(s: State, ev: Event, s': State, id: AlertId)
    requires Step(s, ev, s') && id in s.rows && id in s'.rows && !s.rows[id].status.DeadLetter?
    ensures var r := s.rows[id];
      s'.rows[id].status.DeadLetter? <==>
        || (ev.Kill? && ev.id == id && r.status.Processing?)
        || ((Fails(s, ev, id) || Sweeps(s, ev, id)) && r.attempts >= r.maxAttempts)
  {
    hide Step;
    RowIsAfter(s, ev, s', id);
  }

  /** It waits for another try exactly when it fails or loses its claim with budget left, or
      is released. */
  lemma WhyRetried(s: State, ev: Event, s': State, id: AlertId)
    requires Step(s, ev, s') && id in s.rows && id in s'.rows && !s.rows[id].status.Retry?
    ensures var r := s.rows[id];
      s'.rows[id].status.Retry? <==>
        || ((Fails(s, ev, id) || Sweeps(s, ev, id)) && r.attempts < r.maxAttempts)
        || (ev.Release? && id in ev.batch)
  {
    hide Step;
    RowIsAfter(s, ev, s', id);
  }

  lemma WhyTakenOrEnded(s: State, ev: Event, s': State, id: AlertId)
    requires Step(s, ev, s') && id in s.rows && id in s'.rows
    ensures var r, r' := s.rows[id], s'.rows[id];
      && (!r.status.Processing? ==> (r'.status.Processing? <==> Claims(s, ev, s'.clock, id)))
      && (!r.status.Deferred? ==> (r'.status.Deferred? <==> ev.Defer? && ev.id == id && r.status.Processing?))
      && (!r.status.Completed? ==> (r'.status.Completed? <==> ev == Complete(id) && r.status.Processing?))
      && (!r.status.Pending? ==> (r'.status.Pending? <==> Recovers(ev, id)))
  {
    hide Step, Key;
    RowIsAfter(s, ev, s', id);
  }

  // ---- budget, times and errors ------------------------------------------

  /** Attempts: one spent by a claim, given back by a deferral, all by release and recovery. */
  lemma WhyAttemptsChange(s: State, ev: Event, s': State, id: AlertId)
    requires Step(s, ev, s') && id in s.rows && id in s'.rows
    ensures var r, r' := s.rows[id], s'.rows[id];
      && r'.attempts == (if Claims(s, ev, s'.clock, id) then r.attempts + 1
                         else if ev.Defer? && ev.id == id && r.status.Processing? then (if r.attempts > 0 then r.attempts - 1 else 0)
                         else if (ev.Release? && id in ev.batch) || Recovers(ev, id) then 0
                         else r.attempts)
      && r'.maxAttempts == (if !Recovers(ev, id) then r.maxAttempts else if ev.maxAttempts < 1 then 1 else ev.maxAttempts)
  {
    hide Step, Key;
    RowIsAfter(s, ev, s', id);
  }

  /** When a row is due again: after the delay of its failure or deferral, otherwise at once. */
  lemma WhyDueChanges(s: State, ev: Event, s': State, id: AlertId)
    requires Step(s, ev, s') && id in s.rows && id in s'.rows
    ensures var r, r' := s.rows[id], s'.rows[id];
      var held := r.status.Processing?;
      && (Fails(s, ev, id) && r'.status.Retry? ==> r'.availableAt == s'.clock + (if ev.delay < 0 then 0 else ev.delay))
      && (held && ev.Defer? && ev.id == id ==> r'.availableAt == s'.clock + (if ev.delay < 0 then 0 else ev.delay))
      && ((Sweeps(s, ev, id) || (ev.Release? && id in ev.batch) || Recovers(ev, id)) ==> r'.availableAt == s'.clock)
      && (held && r'.status.DeadLetter? ==> r'.availableAt == s'.clock)
      && (r'.status == r.status || r'.status in {Processing, Completed} ==> r'.availableAt == r.availableAt)
  {
    hide Step, Key;
    RowIsAfter(s, ev, s', id);
  }

  /** A claim is dated when it is taken or renewed and forgotten when it is lost; a
      completion keeps it and is dated itself. */
  lemma WhyClaimTimeChanges(s: State, ev: Event, s': State, id: AlertId)
    requires Step(s, ev, s') && id in s.rows && id in s'.rows
    ensures var r, r' := s.rows[id], s'.rows[id];
      && r'.claimedAt == (if Claims(s, ev, s'.clock, id) || (ev == Renew(id) && r.status.Processing?) then Some(s'.clock)
                          else if r'.status != r.status && !r'.status.Completed? then None
                          else r.claimedAt)
      && r'.completedAt == (if !r.status.Completed? && r'.status.Completed? then Some(s'.clock)
                            else if Recovers(ev, id) then None
                            else r.completedAt)
      && r'.updatedAt == (if r' != r then s'.clock else r.updatedAt)
  {
    hide Step, Key;
    RowIsAfter(s, ev, s', id);
  }

  /** What is recorded as the last error. */
  lemma WhyErrorChanges(s: State, ev: Event, s': State, id: AlertId)
    requires Step(s, ev, s') && id in s.rows && id in s'.rows
    ensures var r, r' := s.rows[id], s'.rows[id];
      var held := r.status.Processing?;
      && (held && (ev.Kill? || ev.Fail?) && ev.id == id ==>
            r'.lastError == if |ev.error| > 2000 then ev.error[..2000] else ev.error)
      && (held && ev.Defer? && ev.id == id ==>
            var reason := Strip(if ev.reason == "" then "remote_llm_unavailable" else ev.reason);
            r'.lastError == "analysis_deferred:" + if |reason| > 512 then reason[..512] else reason)
      && (Sweeps(s, ev, id) ==> r'.lastError == if r.lastError == "" then "worker_claim_expired" else r.lastError)
      && (ev.Release? && id in ev.batch ==> r'.lastError == "analysis_deferred:recovery_dispatch")
      && (r.status != r'.status && r'.status in {Completed, Pending} ==> r'.lastError == "")
      && (r.status == r'.status || Claims(s, ev, s'.clock, id) ==> r'.lastError == r.lastError)
  {
    hide Step, Key, Strip;
    RowIsAfter(s, ev, s', id);
  }

  /** Only finished rows go: completed ones with age, or with the history of their case. */
  lemma WhyRowGoes(s: State, ev: Event, s': State, id: AlertId)
    requires Step(s, ev, s') && id in s.rows
    ensures var r := s.rows[id];
      id !in s'.rows <==>
        || (ev.PurgeCompleted? && r.status.Completed? && r.completedAt.Some? && r.completedAt.value < ev.before)
        || (ev == PurgeFinished(id) && r.status in {Completed, DeadLetter})
  {
    hide AnswerTo, IsNextClaim, IsReleaseBatch;
  }

  // ---- admission ---------------------------------------------------------

  /** Rows that are neither completed nor buried. */
  function Waiting(rows: Rows): set<AlertId> { set id | id in rows && rows[id].status !in {Completed, DeadLetter} }

  /** The alert disagrees with what is on record under its id. */
  predicate Disagrees(s: State, a: Alert) {
    || (Strip(a.alertId) in s.rows && IdentityOf(s.rows[Strip(a.alertId)].envelope.alert) != IdentityOf(a))
    || (Strip(a.alertId) in s.raws && IdentityOf(s.raws[Strip(a.alertId)]) != IdentityOf(a))
  }

  /** No room: as many rows wait as the capacity, or their bytes with the new ones exceed it. */
  ghost predicate Crowded(s: State, ev: Event)
    requires ev.Submit?
  {
    || |Waiting(s.rows)| >= (if ev.capacity < 1 then 1 else ev.capacity)
    || (ev.capacityBytes.Some?
        && BacklogBytes(s.rows) + Utf8Size(ev.e.document) > (if ev.capacityBytes.value < 1 then 1 else ev.capacityBytes.value))
  }

  lemma WaitingIsBacklog(rows: Rows)
    ensures Waiting(rows) == Backlog(rows)
  {
  }

  lemma ValidatedHasKey(a: Alert)
    requires IsValidated(a)
    ensures Strip(a.alertId) != ""
  {
    hide Strip;
  }

  lemma SubmitAnswers(s: State, ev: Event, s': State)
    requires Step(s, ev, s') && ev.Submit?
    ensures IsValidated(ev.e.alert) && ev.answer == AnswerTo(s.rows, s.raws, ev)
  {
    hide IsValidated, AnswerTo, AdmittedRows;
  }

  /** The answer to a submission: what disagrees is a conflict, a known alert a duplicate
      unless its result is lost, and the rest goes in if there is room. */
  lemma WhyAnswered(s: State, ev: Event, s': State)
    requires Step(s, ev, s') && ev.Submit?
    ensures var id := Strip(ev.e.alert.alertId);
      var lost := id in s.rows && s.rows[id].status.Completed? && !ev.hasResult;
      && id != ""
      && (ev.answer.Conflict? <==> Disagrees(s, ev.e.alert))
      && (ev.answer.Duplicate? <==> !Disagrees(s, ev.e.alert) && id in s.rows && !lost)
      && (ev.answer.Full? <==> !Disagrees(s, ev.e.alert) && (id in s.rows ==> lost) && Crowded(s, ev))
      && (ev.answer.Recovered? <==> !Disagrees(s, ev.e.alert) && lost && !Crowded(s, ev))
      && (ev.answer.Inserted? <==> !Disagrees(s, ev.e.alert) && id !in s.rows && !Crowded(s, ev))
  {
    hide Step, Strip, IdentityOf, Backlog, Waiting, BacklogBytes, IsValidated, Utf8Size, AdmittedRows;
    WaitingIsBacklog(s.rows);
    SubmitAnswers(s, ev, s');
    ValidatedHasKey(ev.e.alert);
  }

  /** The place of a severity, most severe first. */
  predicate HasPlace(severity: string, place: int) {
    || (severity == "critical" && place == 0) || (severity == "high" && place == 1)
    || (severity == "medium" && place == 2) || (severity == "low" && place == 3)
  }

  lemma PriorityIsPlace(severity: string)
    requires severity in SEVERITIES
    ensures HasPlace(severity, AlertPriority(severity))
  {
    KnownWords(severity);
    hide Lower;
  }

  predicate IsPrioritised(r: Row) { HasPlace(r.envelope.alert.severity, r.priority) }

  lemma NewRowIsFresh(s: State, ev: Event, s': State, id: AlertId)
    requires Step(s, ev, s') && id !in s.rows
    ensures id in s'.rows <==> ev.Submit? && ev.answer.Inserted? && Strip(ev.e.alert.alertId) == id
    ensures id in s'.rows ==> IsValidated(ev.e.alert) && s'.rows[id] == FreshRow(ev.e, ev.maxAttempts, s'.clock)
  {
    hide Collides, AtCapacity, IsValidated, FreshRow, ClaimLeq, IsReleaseBatch, Strip;
  }

  lemma FreshIsWaiting(e: Envelope, maxAttempts: int, now: int)
    requires IsValidated(e.alert)
    ensures var r := FreshRow(e, maxAttempts, now);
      && r.envelope == e && r.product == e.alert.product && r.product in {"hips", "ndr", "rasp", "siem", "waf"}
      && IsPrioritised(r)
      && r.status.Pending? && r.attempts == 0 && r.maxAttempts == (if maxAttempts < 1 then 1 else maxAttempts)
      && r.availableAt == r.createdAt == r.updatedAt == now && r.claimedAt.None? && r.completedAt.None? && r.lastError == ""
  {
    KnownWords(e.alert.product);
    PriorityIsPlace(e.alert.severity);
    hide Lower, Strip, AlertPriority;
  }

  /** A new row waits from now on with its whole budget. */
  lemma WhyRowIsNew(s: State, ev: Event, s': State, id: AlertId)
    requires Step(s, ev, s') && id !in s.rows
    ensures id in s'.rows <==> ev.Submit? && ev.answer.Inserted? && Strip(ev.e.alert.alertId) == id
    ensures id in s'.rows ==>
      var r := s'.rows[id];
      && r.envelope == ev.e && r.product == ev.e.alert.product && r.product in {"hips", "ndr", "rasp", "siem", "waf"}
      && IsPrioritised(r)
      && r.status.Pending? && r.attempts == 0 && r.maxAttempts == (if ev.maxAttempts < 1 then 1 else ev.maxAttempts)
      && r.availableAt == r.createdAt == r.updatedAt == s'.clock && r.claimedAt.None? && r.completedAt.None? && r.lastError == ""
  {
    NewRowIsFresh(s, ev, s', id);
    if id in s'.rows {
      FreshIsWaiting(ev.e, ev.maxAttempts, s'.clock);
    }
    hide Step, FreshRow;
  }

  // ---- dispatch ----------------------------------------------------------

  /** In every state of a run a row's priority is the place of its alert's severity. */
  predicate Prioritised(s: State) {
    forall id :: id in s.rows ==> IsPrioritised(s.rows[id])
  }

  lemma StepKeepsPriorities(s: State, ev: Event, s': State)
    requires Step(s, ev, s') && Prioritised(s)
    ensures Prioritised(s')
  {
    hide Step;
    forall id | id in s'.rows ensures IsPrioritised(s'.rows[id]) {
      if id in s.rows { StepMoves(s, ev, s', id); } else { WhyRowIsNew(s, ev, s', id); }
    }
  }

  lemma {:induction false} RunKeepsPriorities(s: State, run: seq<Stamp>)
    requires Run(s, run) && Prioritised(s)
    ensures Prioritised(Final(s, run))
    decreases |run|
  {
    hide Step, Prioritised;
    if run != [] {
      StepKeepsPriorities(s, run[0].ev, run[0].after);
      RunKeepsPriorities(run[0].after, run[1..]);
    }
  }

  lemma ReachedIsPrioritised(run: seq<Stamp>)
    requires Run(EMPTY, run)
    ensures Prioritised(Final(EMPTY, run))
  {
    assert Prioritised(EMPTY);
    hide Run, Final, Prioritised;
    RunKeepsPriorities(EMPTY, run);
  }

  predicate IsDue(r: Row, now: int) { r.status in {Pending, Retry} && r.availableAt <= now }

  /** Waiting for at least 300 seconds. */
  predicate IsOld(r: Row, now: int) { now - r.createdAt >= 300_000 }

  predicate IsEarlier(a: Row, b: Row) {
    a.availableAt < b.availableAt || (a.availableAt == b.availableAt && a.createdAt <= b.createdAt)
  }

  predicate IsMoreSevere(a: string, b: string) {
    || (a == "critical" && b != "critical") || (a == "high" && b in {"medium", "low"}) || (a == "medium" && b == "low")
  }

  /** Critical, or waiting long enough to be treated so. */
  predicate IsUrgent(r: Row, now: int) { r.envelope.alert.severity == "critical" || IsOld(r, now) }

  /** What the dispatcher prefers: urgent rows; among the others the more severe alert; then
      the product whose turn it is; then whoever is due first and came first. */
  predicate Precedes(a: Row, b: Row, now: int, turn: string) {
    var level := if IsUrgent(a, now) then IsUrgent(b, now)
                 else !IsUrgent(b, now) && a.envelope.alert.severity == b.envelope.alert.severity;
    && (IsUrgent(b, now) ==> IsUrgent(a, now))
    && (!IsUrgent(a, now) ==> !IsMoreSevere(b.envelope.alert.severity, a.envelope.alert.severity))
    && (level && b.product == turn ==> a.product == turn)
    && (level && (a.product == turn <==> b.product == turn) ==> IsEarlier(a, b))
  }

  lemma LeqPrecedes(a: Row, b: Row, now: int, turn: string)
    requires IsPrioritised(a) && IsPrioritised(b) && ClaimLeq(a, b, now, turn)
    ensures Precedes(a, b, now, turn)
  {
  }

  lemma DispatchTakes(s: State, ev: Event, s': State)
    requires Step(s, ev, s') && ev.Dispatch?
    ensures ev.claimed.None? ==> forall y :: y in s.rows ==> !IsDue(s.rows[y], s'.clock)
    ensures ev.claimed.Some? ==>
      && ev.claimed.value in s.rows && IsDue(s.rows[ev.claimed.value], s'.clock)
      && forall y :: y in s.rows && IsDue(s.rows[y], s'.clock) ==>
           ClaimLeq(s.rows[ev.claimed.value], s.rows[y], s'.clock, Preferred(s.cursor))
  {
    hide ClaimLeq, Preferred, ClaimedRow;
    assert forall r: Row :: IsDue(r, s'.clock) == Due(r, s'.clock);
  }

  /** Wherever a run has led, the dispatcher takes a due row that no due row should precede,
      and comes away empty only if nothing is due. */
  lemma DispatchIsUrgent(run: seq<Stamp>, ev: Event, s': State)
    requires Run(EMPTY, run) && Step(Final(EMPTY, run), ev, s') && ev.Dispatch?
    ensures var s := Final(EMPTY, run);
      && (ev.claimed.None? ==> forall y :: y in s.rows ==> !IsDue(s.rows[y], s'.clock))
      && (ev.claimed.Some? ==>
            && ev.claimed.value in s.rows && IsDue(s.rows[ev.claimed.value], s'.clock)
            && forall y :: y in s.rows && IsDue(s.rows[y], s'.clock) ==>
                 Precedes(s.rows[ev.claimed.value], s.rows[y], s'.clock, Preferred(s.cursor)))
  {
    var s := Final(EMPTY, run);
    ReachedIsPrioritised(run);
    DispatchTakes(s, ev, s');
    hide Step, Run, Final, Precedes, Preferred, ClaimLeq, IsPrioritised;
    if ev.claimed.Some? {
      forall y | y in s.rows && IsDue(s.rows[y], s'.clock)
        ensures Precedes(s.rows[ev.claimed.value], s.rows[y], s'.clock, Preferred(s.cursor))
      {
        LeqPrecedes(s.rows[ev.claimed.value], s.rows[y], s'.clock, Preferred(s.cursor));
      }
    }
  }

  // ---- release -----------------------------------------------------------

  /** The same character up to the case of ASCII letters, or the pattern allows any. */
  predicate Fits(p: char, c: char) {
    p == '_' || p == c || ('A' <= p <= 'Z' && c as int == p as int + 32) || ('a' <= p <= 'z' && c as int == p as int - 32)
  }

  predicate FoundAt(pattern: string, text: string, k: nat) {
    k + |pattern| <= |text| && forall i :: 0 <= i < |pattern| ==> Fits(pattern[i], text[k..][i])
  }

  ghost predicate Found(pattern: string, text: string) { exists k: nat :: FoundAt(pattern, text, k) }

  lemma CharsFit(p: char, c: char)
    ensures p == '_' || LowerChar(p) == LowerChar(c) <==> Fits(p, c)
  {
  }

  lemma FoundRest(pattern: string, text: string)
    requires pattern != "" && text != ""
    ensures FoundAt(pattern, text, 0) <==> Fits(pattern[0], text[0]) && FoundAt(pattern[1..], text[1..], 0)
  {
    hide Fits;
    assert text[0..] == text && text[1..][0..] == text[1..];
    if FoundAt(pattern, text, 0) {
      forall i | 0 <= i < |pattern[1..]| ensures Fits(pattern[1..][i], text[1..][0..][i]) {
        assert Fits(pattern[i + 1], text[0..][i + 1]);
      }
    }
    if Fits(pattern[0], text[0]) && FoundAt(pattern[1..], text[1..], 0) {
      forall i | 0 <= i < |pattern| ensures Fits(pattern[i], text[0..][i]) {
        if i > 0 { assert Fits(pattern[1..][i - 1], text[1..][0..][i - 1]); }
      }
    }
  }

  lemma {:induction false} LikeFromStart(pattern: string, text: string)
    requires '%' !in pattern
    ensures Like(pattern + "%", text) <==> FoundAt(pattern, text, 0)
    decreases |pattern|
  {
    if pattern == "" {
      assert pattern + "%" == "%";
      LikeAnything(text);
    } else {
      assert (pattern + "%")[0] == pattern[0] && (pattern + "%")[1..] == pattern[1..] + "%";
      if text != "" {
        CharsFit(pattern[0], text[0]);
        LikeFromStart(pattern[1..], text[1..]);
        FoundRest(pattern, text);
      }
    }
  }

  lemma FoundLater(pattern: string, text: string)
    requires text != ""
    ensures Found(pattern, text) <==> FoundAt(pattern, text, 0) || Found(pattern, text[1..])
  {
    hide Fits;
    forall k: nat ensures k < |text| ==> text[1..][k..] == text[k + 1..] {}
    if k: nat :| FoundAt(pattern, text, k) {
      if k > 0 { assert FoundAt(pattern, text[1..], k - 1); }
    }
    if k: nat :| FoundAt(pattern, text[1..], k) {
      assert FoundAt(pattern, text, k + 1);
    }
  }

  lemma {:induction false} LikeAnywhere(pattern: string, text: string)
    requires '%' !in pattern
    ensures Like("%" + pattern + "%", text) <==> Found(pattern, text)
    decreases |text|
  {
    var p := "%" + pattern + "%";
    assert p[0] == '%' && p[1..] == pattern + "%";
    LikeFromStart(pattern, text);
    if text != "" {
      LikeAnywhere(pattern, text[1..]);
      FoundLater(pattern, text);
    } else {
      assert forall k: nat :: FoundAt(pattern, "", k) <==> k == 0 && FoundAt(pattern, "", 0);
    }
  }

  /** The error of an analysis that was deferred, in the current or the former wording. */
  ghost predicate SaysDeferred(error: string) {
    FoundAt("analysis_deferred:", error, 0) || Found("remote LLM analysis deferred", error)
  }

  /** The error of a remote model whose configuration or contract was at fault. */
  ghost predicate BlamesModel(error: string) {
    Found("LLMEndpointConfigurationError", error) || Found("LLMResponseContractError", error)
  }

  lemma DeferralErrorsAre(error: string)
    ensures IsDeferralError(error) <==> SaysDeferred(error)
    ensures IsModelError(error) <==> SaysDeferred(error) || BlamesModel(error)
  {
    hide Like, FoundAt, Found;
    LikeFromStart(DEFERRED_PREFIX, error);
    LikeAnywhere(LEGACY_FRAGMENT, error);
    LikeAnywhere(TERMINAL_FRAGMENTS[0], error);
    LikeAnywhere(TERMINAL_FRAGMENTS[1], error);
  }

  /** A deferred row, or one buried for the model's sake; unless forced, only deferred ones
      whose delay is over. */
  ghost predicate CanGoBack(r: Row, force: bool, now: int) {
    && ((r.status.Deferred? && SaysDeferred(r.lastError))
        || (r.status.DeadLetter? && (SaysDeferred(r.lastError) || BlamesModel(r.lastError))))
    && (force || (r.status.Deferred? && r.availableAt <= now))
  }

  /** At most 500 rows go back at once, at least one. */
  function Quota(limit: int): int { if limit < 1 then 1 else if limit > 500 then 500 else limit }

  lemma BatchIsReleasable(s: State, ev: Event, s': State)
    requires Step(s, ev, s') && ev.Release?
    ensures IsReleaseBatch(s.rows, ev.force, ev.limit, s'.clock, ev.batch)
  {
    hide IsReleaseBatch, ReleasedRow;
  }

  /** A release takes rows that can go back only, and all of them unless its quota is full:
      then the buried before the deferred, and those due first and created first. */
  lemma WhyReleased(s: State, ev: Event, s': State, id: AlertId)
    requires Step(s, ev, s') && ev.Release? && id in s.rows
    ensures id in ev.batch ==> CanGoBack(s.rows[id], ev.force, s'.clock)
    ensures |ev.batch| <= Quota(ev.limit)
    ensures CanGoBack(s.rows[id], ev.force, s'.clock) && id !in ev.batch ==>
      && |ev.batch| == Quota(ev.limit)
      && forall a :: a in ev.batch ==>
           && a in s.rows && (s.rows[id].status.DeadLetter? ==> s.rows[a].status.DeadLetter?)
           && (s.rows[id].status.DeadLetter? == s.rows[a].status.DeadLetter? ==> IsEarlier(s.rows[a], s.rows[id]))
  {
    hide Step, SaysDeferred, BlamesModel, IsDeferralError, IsModelError;
    BatchIsReleasable(s, ev, s');
    DeferralErrorsAre(s.rows[id].lastError);
    var ids := ReleasableIds(s.rows, ev.force, s'.clock);
    if id in ids && id !in ev.batch { SubsetSize(ev.batch, ids - {id}); }
  }

  // ---- stored size -------------------------------------------------------

  /** The bytes of one character (RFC 3629, section 3): six bits in each byte after the first. */
  function Encode(c: char): (bytes: seq<int>)
    ensures |bytes| > 0
  {
    var p := c as int;
    if p < 0x80 then [p]
    else if p < 0x800 then [0xC0 + p / 0x40, 0x80 + p % 0x40]
    else if p < 0x1_0000 then [0xE0 + p / 0x40 / 0x40, 0x80 + p / 0x40 % 0x40, 0x80 + p % 0x40]
    else [0xF0 + p / 0x40 / 0x40 / 0x40, 0x80 + p / 0x40 / 0x40 % 0x40, 0x80 + p / 0x40 % 0x40, 0x80 + p % 0x40]
  }

  /** Six more bits from a following byte. */
  function Followed(high: int, byte: int): int { high * 0x40 + (byte - 0x80) }

  /** The lead byte tells how many bytes follow. */
  function Decode(bytes: seq<int>): int
    requires |bytes| > 0
  {
    var lead := bytes[0];
    if lead < 0x80 && |bytes| == 1 then lead
    else if 0xC0 <= lead < 0xE0 && |bytes| == 2 then Followed(lead - 0xC0, bytes[1])
    else if 0xE0 <= lead < 0xF0 && |bytes| == 3 then Followed(Followed(lead - 0xE0, bytes[1]), bytes[2])
    else if 0xF0 <= lead < 0xF8 && |bytes| == 4 then Followed(Followed(Followed(lead - 0xF0, bytes[1]), bytes[2]), bytes[3])
    else -1
  }

  function EncodeAll(s: string): seq<int> { if s == "" then [] else Encode(s[0]) + EncodeAll(s[1..]) }

  lemma SixBits(p: int)
    requires 0 <= p
    ensures Followed(p / 0x40, 0x80 + p % 0x40) == p && 0 <= p % 0x40 < 0x40 && 0 <= p / 0x40
  {
  }

  lemma EncodingDecodes(c: char)
    ensures Decode(Encode(c)) == c as int && |Encode(c)| == CharBytes(c)
    ensures forall i :: 0 <= i < |Encode(c)| ==> 0 <= Encode(c)[i] < 0x100
  {
    var p := c as int;
    assert p < 0x11_0000;
    SixBits(p);
    SixBits(p / 0x40);
    SixBits(p / 0x40 / 0x40);
  }

  /** The size of a document is the number of bytes of its encoding, which can be read back. */
  lemma {:induction false} SizeIsEncoded(s: string)
    ensures Utf8Size(s) == |EncodeAll(s)|
  {
    hide Encode, CharBytes;
    if s != "" {
      EncodingDecodes(s[0]);
      SizeIsEncoded(s[1..]);
    }
  }
}
