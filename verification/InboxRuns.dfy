/** Whole runs of the inbox: every interleaving of submissions, dispatcher and
    direct claims, worker outcomes, lease renewals and maintenance sweeps. */
module InboxRuns {
  import opened AlertIdentity
  import opened Common
  import opened InboxModel
  import opened Intake
  import opened PyText

  /** `cursor` is the dispatcher's product index, `clock` the last time read. */
  datatype State = State(rows: Rows, raws: RawTable, clock: int, cursor: nat)

  datatype Event =
    | Submit(e: Envelope, maxAttempts: int, capacity: int, capacityBytes: Option<int>, hasResult: bool, answer: Answer)
    | Dispatch(claimed: Option<AlertId>)
    | ClaimById(id: AlertId)
    | Renew(id: AlertId)
    | Complete(id: AlertId)
    | Kill(id: AlertId, error: string)
    | Fail(id: AlertId, error: string, delay: int)
    | Defer(id: AlertId, reason: string, delay: int)
    | Release(force: bool, limit: int, batch: set<AlertId>)
    | RecoverStale(cutoff: int)
    | PurgeCompleted(before: int)
    | PurgeFinished(id: AlertId)
    | StoreRaw(id: AlertId)
    | PurgeRaw(id: AlertId)

  const EMPTY := State(map[], map[], 0, 0)

  function Preferred(cursor: nat): string { DISPATCH_PRODUCTS[cursor % 5] }

  predicate Held(rows: Rows, id: AlertId) { id in rows && rows[id].status.Processing? }

  /** The answer of a bounded submission in state `rows`, `raws`. */
  ghost function AnswerTo(rows: Rows, raws: RawTable, ev: Event): Answer
    requires ev.Submit?
  {
    AdmissionAnswer(rows, Key(ev.e.alert), Collides(rows, raws, ev.e.alert), ev.hasResult,
      AtCapacity(|Backlog(rows)|, BacklogBytes(rows), Utf8Size(ev.e.document), ev.capacity, ev.capacityBytes))
  }

  /** The row table after one event read the clock as `now`. */
  ghost predicate RowsStep(s: State, ev: Event, rows': Rows, now: int) {
    var rows := s.rows;
    match ev
    case Submit(e, maxAttempts, _, _, _, answer) =>
      IsValidated(e.alert) && answer == AnswerTo(rows, s.raws, ev) && rows' == AdmittedRows(rows, Key(e.alert), e, answer, maxAttempts, now)
    case Dispatch(None) => rows' == rows && forall id :: id in rows ==> !Due(rows[id], now)
    case Dispatch(Some(id)) =>
      IsNextClaim(rows, id, now, Preferred(s.cursor)) && rows' == rows[id := ClaimedRow(rows[id], now)]
    case ClaimById(id) =>
      rows' == if id in rows && Due(rows[id], now) then rows[id := ClaimedRow(rows[id], now)] else rows
    case Renew(id) => rows' == if Held(rows, id) then rows[id := RenewedRow(rows[id], now)] else rows
    case Complete(id) => rows' == if Held(rows, id) then rows[id := CompletedRow(rows[id], now)] else rows
    case Kill(id, error) => rows' == if Held(rows, id) then rows[id := DeadRow(rows[id], error, now)] else rows
    case Fail(id, error, delay) =>
      rows' == if Held(rows, id) then rows[id := FailedRow(rows[id], error, delay, now)] else rows
    case Defer(id, reason, delay) =>
      rows' == if Held(rows, id) then rows[id := DeferredRow(rows[id], reason, delay, now)] else rows
    case Release(force, limit, batch) =>
      IsReleaseBatch(rows, force, limit, now, batch) && rows' == ReleaseRows(rows, batch, now)
    case RecoverStale(cutoff) => rows' == RecoverRows(rows, StaleIds(rows, cutoff), now)
    case PurgeCompleted(before) => rows' == PurgeRows(rows, before)
    case PurgeFinished(id) =>
      rows' == if id in rows && (rows[id].status.Completed? || rows[id].status.DeadLetter?) then rows - {id} else rows
    case _ => rows' == rows
  }

  /** The orchestrator inserts the raw copy of a claimed alert once; history purges may drop it. */
  ghost predicate RawsStep(s: State, ev: Event, raws': RawTable) {
    match ev
    case StoreRaw(id) =>
      && id in s.rows
      && raws' == if id in s.raws then s.raws else s.raws[id := AsStoredRaw(s.rows[id].envelope.alert)]
    case PurgeRaw(id) => raws' == s.raws - {id}
    case _ => raws' == s.raws
  }

  ghost predicate Step(s: State, ev: Event, s': State) {
    && s.clock <= s'.clock
    && RowsStep(s, ev, s'.rows, s'.clock)
    && RawsStep(s, ev, s'.raws)
    && s'.cursor == if ev.Dispatch? && ev.claimed.Some? then (s.cursor + 1) % 5 else s.cursor
  }

  datatype Stamp = Stamp(ev: Event, after: State)

  ghost predicate Run(s: State, run: seq<Stamp>)
    decreases |run|
  {
    run == [] || (Step(s, run[0].ev, run[0].after) && Run(run[0].after, run[1..]))
  }

  function Final(s: State, run: seq<Stamp>): State {
    if run == [] then s else run[|run| - 1].after
  }

  lemma {:induction false} RunPrefix(s: State, run: seq<Stamp>, n: nat)
    requires Run(s, run) && n <= |run|
    ensures Run(s, run[..n])
    decreases n
  {
    hide Step;
    if n > 0 {
      RunPrefix(run[0].after, run[1..], n - 1);
      assert run[..n][1..] == run[1..][..n - 1];
    }
  }

  lemma {:induction false} RunSuffix(s: State, run: seq<Stamp>, n: nat)
    requires Run(s, run) && n <= |run|
    ensures Run(Final(s, run[..n]), run[n..])
    decreases n
  {
    hide Step;
    if n > 0 {
      RunSuffix(run[0].after, run[1..], n - 1);
      assert run[n..] == run[1..][n - 1..];
      assert run[..n][|run[..n]| - 1] == run[n - 1];
      assert n > 1 ==> run[1..][..n - 1][n - 2] == run[n - 1];
    } else {
      assert run[0..] == run;
    }
  }

  // ---- what any step may do to one row -----------------------------------

  /** How a claim ends: done, retried or buried with the attempt spent, or deferred with it returned. */
  predicate Ends(r: Row, r': Row, now: int) {
    || ((r'.status.Completed? || r'.status.DeadLetter?) && r'.attempts == r.attempts)
    || (r'.status.Retry? && r'.attempts == r.attempts < r.maxAttempts && now <= r'.availableAt)
    || (r'.status.Deferred? && r'.attempts == Max(0, r.attempts - 1))
  }

  /** Every way a step can leave a row that stays in the table. */
  predicate Moves(r: Row, r': Row, now: int) {
    && r'.envelope == r.envelope && r'.product == r.product
    && r'.priority == r.priority && r'.createdAt == r.createdAt
    && (|| r' == r
        || (Queued(r) && r' == ClaimedRow(r, now))
        || (r.status.Processing? && r' == RenewedRow(r, now))
        || (r.status.Processing? && r'.maxAttempts == r.maxAttempts && Ends(r, r', now))
        || ((r.status.Deferred? || r.status.DeadLetter?) && r' == ReleasedRow(r, now))
        || (r.status.Completed? && r'.status.Pending? && r'.attempts == 0 && 1 <= r'.maxAttempts && r'.availableAt == now))
  }

  /** One row over one step: it moves, or a finished row is purged, or it is newly admitted. */
  ghost predicate RowMoves(s: State, ev: Event, s': State, id: AlertId) {
    && (id in s.rows && id in s'.rows ==> Moves(s.rows[id], s'.rows[id], s'.clock))
    && (id in s.rows && id !in s'.rows ==> !Unfinished(s.rows[id].status))
    && (id !in s.rows && id in s'.rows ==>
          && ev.Submit? && ev.answer.Inserted? && id == Key(ev.e.alert)
          && s'.rows[id] == FreshRow(ev.e, ev.maxAttempts, s'.clock))
  }

  predicate IsWorkerOutcome(ev: Event) { ev.Renew? || ev.Complete? || ev.Kill? || ev.Fail? || ev.Defer? }

  lemma SubmitMoves(s: State, ev: Event, s': State, id: AlertId)
    requires ev.Submit? && Step(s, ev, s')
    ensures RowMoves(s, ev, s', id)
  {
  }

  lemma ClaimMoves(s: State, ev: Event, s': State, id: AlertId)
    requires (ev.Dispatch? || ev.ClaimById?) && Step(s, ev, s')
    ensures RowMoves(s, ev, s', id)
  {
  }

  lemma WorkerOutcomeMoves(s: State, ev: Event, s': State, id: AlertId)
    requires IsWorkerOutcome(ev) && Step(s, ev, s')
    ensures RowMoves(s, ev, s', id)
  {
  }

  lemma SweepMoves(s: State, ev: Event, s': State, id: AlertId)
    requires !ev.Submit? && !ev.Dispatch? && !ev.ClaimById? && !IsWorkerOutcome(ev) && Step(s, ev, s')
    ensures RowMoves(s, ev, s', id)
  {
  }

  /** No step deletes an unfinished row, and rows only ever move as listed. */
  lemma StepMoves(s: State, ev: Event, s': State, id: AlertId)
    requires Step(s, ev, s')
    ensures RowMoves(s, ev, s', id)
  {
    if ev.Submit? { SubmitMoves(s, ev, s', id); }
    else if ev.Dispatch? || ev.ClaimById? { ClaimMoves(s, ev, s', id); }
    else if IsWorkerOutcome(ev) { WorkerOutcomeMoves(s, ev, s', id); }
    else { SweepMoves(s, ev, s', id); }
  }

  // ---- what intake guarantees of every row -------------------------------

  /** The row holds a validated alert under its own identifier, for a dispatched product. */
  predicate IntakeRow(id: AlertId, r: Row) {
    && IsValidated(r.envelope.alert) && Key(r.envelope.alert) == id
    && r.product == r.envelope.alert.product && r.product in DISPATCH_PRODUCTS && 0 <= r.priority
  }

  predicate Orderly(s: State) {
    s.cursor < 5 && forall id :: id in s.rows ==> IntakeRow(id, s.rows[id])
  }

  /** The dispatcher rotates over exactly the products that intake accepts. */
  lemma RotationIsSupported(product: string)
    ensures product in DISPATCH_PRODUCTS <==> product in SUPPORTED_PRODUCTS
  {
  }

  lemma FreshIsIntake(e: Envelope, maxAttempts: int, now: int)
    requires IsValidated(e.alert)
    ensures IntakeRow(Key(e.alert), FreshRow(e, maxAttempts, now))
  {
    hide Strip, Lower;
    KnownWords(e.alert.product);
    RotationIsSupported(e.alert.product);
    hide SUPPORTED_PRODUCTS, DISPATCH_PRODUCTS;
  }

  lemma SubmittedIsValidated(s: State, ev: Event, s': State)
    requires Step(s, ev, s')
    ensures ev.Submit? ==> IsValidated(ev.e.alert)
    ensures s.cursor < 5 ==> s'.cursor < 5
  {
  }

  lemma StepKeepsOrder(s: State, ev: Event, s': State)
    requires Step(s, ev, s') && Orderly(s)
    ensures Orderly(s')
  {
    SubmittedIsValidated(s, ev, s');
    hide Step, IsValidated, Key, DISPATCH_PRODUCTS;
    forall id | id in s'.rows ensures IntakeRow(id, s'.rows[id]) {
      StepMoves(s, ev, s', id);
      if id !in s.rows { FreshIsIntake(ev.e, ev.maxAttempts, s'.clock); }
    }
  }

  lemma {:induction false} RunKeepsOrder(s: State, run: seq<Stamp>)
    requires Run(s, run) && Orderly(s)
    ensures Orderly(Final(s, run))
    decreases |run|
  {
    hide Step, Orderly;
    if run != [] {
      StepKeepsOrder(s, run[0].ev, run[0].after);
      RunKeepsOrder(run[0].after, run[1..]);
    }
  }

  lemma EmptyIsOrderly()
    ensures Orderly(EMPTY)
  {
  }

  /** In every state a run can reach, each row holds a validated alert of a dispatched product. */
  lemma ReachedIsOrderly(run: seq<Stamp>)
    requires Run(EMPTY, run)
    ensures Orderly(Final(EMPTY, run))
  {
    hide Step, Orderly;
    EmptyIsOrderly();
    RunKeepsOrder(EMPTY, run);
  }
}
