/** The gateway's side of the inbox (`app.py`): the dispatcher loop with its rotating
    product index, and every other call into the table.  Each call is logged as the
    step of `InboxRuns` that it is, so what holds of runs holds of this object. */
module Dispatcher {
  import opened AlertIdentity
  import opened Common
  import opened Inbox
  import opened InboxModel
  import opened InboxRuns
  import opened Intake

  const QUEUE_FULL_DELAY := 250
  const QUEUE_FULL_ERROR := "execution_queue_full"

  lemma {:induction false} RunAppend(s: State, run: seq<Stamp>, ev: Event, after: State)
    requires Run(s, run) && Step(Final(s, run), ev, after)
    ensures Run(s, run + [Stamp(ev, after)]) && Final(s, run + [Stamp(ev, after)]) == after
    decreases |run|
  {
    hide Step;
    var longer := run + [Stamp(ev, after)];
    if run == [] {
      assert longer[1..] == [];
    } else {
      assert longer[1..] == run[1..] + [Stamp(ev, after)];
      assert |run| > 1 ==> run[1..][|run[1..]| - 1] == run[|run| - 1];
      RunAppend(run[0].after, run[1..], ev, after);
    }
  }

  lemma ClaimIsStep(s: State, claimed: Option<AlertId>, rows': Rows, now: int)
    requires s.cursor < 5 && s.clock <= now
    requires claimed.None? ==> rows' == s.rows && forall id :: id in s.rows ==> !Due(s.rows[id], now)
    requires claimed.Some? ==>
      && IsNextClaim(s.rows, claimed.value, now, DISPATCH_PRODUCTS[s.cursor])
      && rows' == s.rows[claimed.value := ClaimedRow(s.rows[claimed.value], now)]
    ensures Step(s, Dispatch(claimed), State(rows', s.raws, now, if claimed.None? then s.cursor else (s.cursor + 1) % 5))
  {
    hide IsNextClaim, Due, ClaimedRow;
    assert Preferred(s.cursor) == DISPATCH_PRODUCTS[s.cursor];
  }

  /** The configured attempt, row and byte limits of the inbox. */
  datatype Limits = Limits(maxAttempts: int, rows: int, bytes: Option<int>)

  datatype Outcome = Refused | Paused | Answered(answer: Answer)

  class Gateway {
    const inbox: AlertInbox
    var productIndex: nat
    var clock: int
    ghost var log: seq<Stamp>

    ghost function Now(): State
      reads this, inbox
    {
      State(inbox.rows, inbox.rawAlerts, clock, productIndex)
    }

    /** The counters are right and the table is where the logged run leads. */
    ghost predicate Valid()
      reads this, inbox
    {
      inbox.Valid() && productIndex < 5 && Run(EMPTY, log) && Final(EMPTY, log) == Now()
    }

    constructor ()
      ensures Valid() && fresh(inbox) && log == []
    {
      inbox := new AlertInbox();
      productIndex, clock, log := 0, 0, [];
    }

    /** Log the call that just changed the table. */
    ghost method Record(ev: Event)
      requires inbox.Valid() && productIndex < 5 && Run(EMPTY, log) && Step(Final(EMPTY, log), ev, Now())
      modifies this`log
      ensures Valid() && log == old(log) + [Stamp(ev, Now())]
    {
      RunAppend(EMPTY, log, ev, Now());
      log := log + [Stamp(ev, Now())];
    }

    /** `enqueue_alert_bounded`. */
    method Enqueue(e: Envelope, limits: Limits, hasResult: bool, now: int) returns (answer: Answer)
      requires Valid() && clock <= now && IsValidated(e.alert)
      modifies this, inbox`rows, inbox`unfinishedCount, inbox`unfinishedBytes
      ensures Valid() && log == old(log) + [Stamp(Event.Submit(e, limits.maxAttempts, limits.rows, limits.bytes, hasResult, answer), Now())]
    {
      hide IsValidated, Run, Final;
      answer := inbox.EnqueueBounded(e, limits.maxAttempts, limits.rows, limits.bytes, hasResult, now);
      clock := now;
      Record(Event.Submit(e, limits.maxAttempts, limits.rows, limits.bytes, hasResult, answer));
    }

    /** `submit_alert` up to its answer: the validated alert is offered to the inbox unless
        admission is paused and the alert is not on record.  `render` is the JSON text stored. */
    method Submit(a: Alert, x: Arrival, render: Alert -> string, paused: bool, limits: Limits, hasResult: bool, now: int)
      returns (outcome: Outcome)
      requires Valid() && clock <= now && IsPlain(x)
      modifies this, inbox`rows, inbox`unfinishedCount, inbox`unfinishedBytes
      ensures Valid()
      ensures outcome.Refused? <==> Validate(a, x).None?
      ensures outcome.Paused? <==> Validate(a, x).Some? && paused && Validate(a, x).value.alertId !in old(inbox.rows)
      ensures !outcome.Answered? ==> log == old(log) && Now() == old(Now())
      ensures outcome.Answered? ==>
        var e := Envelope(Validate(a, x).value, render(Validate(a, x).value));
        log == old(log) + [Stamp(Event.Submit(e, limits.maxAttempts, limits.rows, limits.bytes, hasResult, outcome.answer), Now())]
    {
      hide Run, Final, Step, IsValidated;
      var valid := Validate(a, x);
      if valid.None? { return Refused; }
      if paused && valid.value.alertId !in inbox.rows { return Paused; }
      ValidateEstablishes(a, x);
      var e := Envelope(valid.value, render(valid.value));
      var answer := Enqueue(e, limits, hasResult, now);
      outcome := Answered(answer);
    }

    /** Claim for a product; only a successful claim passes the turn on. */
    method ClaimFor(preferred: string, now: int) returns (claimed: Option<AlertId>)
      requires Valid() && clock <= now && preferred == DISPATCH_PRODUCTS[productIndex]
      modifies this, inbox`rows, inbox`unfinishedCount, inbox`unfinishedBytes
      ensures Valid() && log == old(log) + [Stamp(Dispatch(claimed), Now())]
      ensures clock == now
      ensures productIndex == if claimed.None? then old(productIndex) else (old(productIndex) + 1) % 5
      ensures claimed.None? ==> inbox.rows == old(inbox.rows)
      ensures claimed.Some? ==>
        && claimed.value in old(inbox.rows)
        && inbox.rows == old(inbox.rows)[claimed.value := ClaimedRow(old(inbox.rows)[claimed.value], now)]
    {
      hide IsNextClaim, Due, ClaimedRow, Run, Final, Step;
      ghost var before := Now();
      claimed := inbox.Claim(preferred, now);
      ClaimIsStep(before, claimed, inbox.rows, now);
      clock := now;
      if claimed.Some? { productIndex := (productIndex + 1) % 5; }
      Record(Dispatch(claimed));
    }

    /** The executor did not take the alert: retry it shortly, the attempt is spent. */
    method PutBack(id: AlertId, now: int)
      requires Valid() && clock <= now
      modifies this`clock, this`log, inbox`rows, inbox`unfinishedCount, inbox`unfinishedBytes
      ensures Valid() && clock == now && log == old(log) + [Stamp(Event.Fail(id, QUEUE_FULL_ERROR, QUEUE_FULL_DELAY), Now())]
      ensures id in old(inbox.rows) && old(inbox.rows)[id].status.Processing? ==>
        inbox.rows == old(inbox.rows)[id := FailedRow(old(inbox.rows)[id], QUEUE_FULL_ERROR, QUEUE_FULL_DELAY, now)]
    {
      var status := inbox.Fail(id, QUEUE_FULL_ERROR, QUEUE_FULL_DELAY, now);
      clock := now;
      Record(Event.Fail(id, QUEUE_FULL_ERROR, QUEUE_FULL_DELAY));
    }

    /** One pass of `_dispatch_inbox`: claim for the product whose turn it is, rotate only
        after a claim, hand the alert over, and put it back when the executor is full. */
    method DispatchOnce(queueFull: bool, executorFull: bool, now: int, later: int) returns (claimed: Option<AlertId>)
      requires Valid() && clock <= now <= later
      modifies this, inbox`rows, inbox`unfinishedCount, inbox`unfinishedBytes
      ensures Valid()
      ensures queueFull ==> claimed.None? && log == old(log) && Now() == old(Now())
      ensures claimed.None? ==> productIndex == old(productIndex)
      ensures claimed.Some? ==> productIndex == (old(productIndex) + 1) % 5
      ensures !queueFull ==> |log| > |old(log)| && log[..|old(log)|] == old(log)
                             && log[|old(log)|].ev == Dispatch(claimed) && log[|old(log)|].after.clock == now
      ensures claimed.Some? && executorFull ==>
        && |log| == |old(log)| + 2 && clock == later
        && log[|old(log)| + 1].ev == Event.Fail(claimed.value, QUEUE_FULL_ERROR, QUEUE_FULL_DELAY)
      ensures !queueFull && !(claimed.Some? && executorFull) ==> |log| == |old(log)| + 1
      ensures claimed.None? ==> inbox.rows == old(inbox.rows)
      ensures claimed.Some? ==>
        && claimed.value in old(inbox.rows) && claimed.value in inbox.rows
        && var was, row := old(inbox.rows)[claimed.value], inbox.rows[claimed.value];
           && inbox.rows == old(inbox.rows)[claimed.value := row] && row.attempts == was.attempts + 1
           && (!executorFull ==> row.status.Processing? && row.claimedAt == Some(now))
           && (executorFull ==>
                 && row.claimedAt.None? && row.lastError == "execution_queue_full"
                 && if was.attempts + 1 < was.maxAttempts
                    then row.status.Retry? && row.availableAt == later + 250
                    else row.status.DeadLetter? && row.availableAt == later)
    {
      hide Step, Run, Final;
      if queueFull { return None; }
      var preferred := DISPATCH_PRODUCTS[productIndex];
      claimed := ClaimFor(preferred, now);
      if executorFull && claimed.Some? { PutBack(claimed.value, later); }
    }

    /** The worker calls and the maintenance sweeps. */
    method Complete(id: AlertId, now: int) returns (done: bool)
      requires Valid() && clock <= now
      modifies this, inbox`rows, inbox`unfinishedCount, inbox`unfinishedBytes
      ensures Valid() && log == old(log) + [Stamp(Event.Complete(id), Now())]
    {
      done := inbox.Complete(id, now);
      clock := now;
      Record(Event.Complete(id));
    }

    method Renew(id: AlertId, now: int) returns (renewed: bool)
      requires Valid() && clock <= now
      modifies this, inbox`rows, inbox`unfinishedCount, inbox`unfinishedBytes
      ensures Valid() && log == old(log) + [Stamp(Event.Renew(id), Now())]
    {
      renewed := inbox.Renew(id, now);
      clock := now;
      Record(Event.Renew(id));
    }

    /** `_persist_dead_letter`: bury what cannot be retried, fail the rest. */
    method PersistDeadLetter(id: AlertId, error: string, retryable: bool, delay: int, now: int)
      requires Valid() && clock <= now
      modifies this, inbox`rows, inbox`unfinishedCount, inbox`unfinishedBytes
      ensures Valid()
      ensures log == old(log) + [Stamp(if retryable then Event.Fail(id, error, delay) else Kill(id, error), Now())]
    {
      if retryable {
        var status := inbox.Fail(id, error, delay, now);
        clock := now;
        Record(Event.Fail(id, error, delay));
      } else {
        var done := inbox.SendToDeadLetter(id, error, now);
        clock := now;
        Record(Kill(id, error));
      }
    }

    /** `_persist_llm_deferred`. */
    method PersistDeferred(id: AlertId, delay: int, reason: string, now: int) returns (done: bool)
      requires Valid() && clock <= now
      modifies this, inbox`rows, inbox`unfinishedCount, inbox`unfinishedBytes
      ensures Valid() && log == old(log) + [Stamp(Event.Defer(id, reason, delay), Now())]
    {
      done := inbox.Defer(id, delay, reason, now);
      clock := now;
      Record(Event.Defer(id, reason, delay));
    }

    /** `release_llm_deferred_alerts` for one batch. */
    method Release(force: bool, limit: int, now: int) returns (ghost batch: set<AlertId>, released: nat)
      requires Valid() && clock <= now
      modifies this, inbox`rows, inbox`unfinishedCount, inbox`unfinishedBytes
      ensures Valid() && log == old(log) + [Stamp(Event.Release(force, limit, batch), Now())]
      ensures released == |batch|
    {
      var deferred, dead;
      batch, deferred, dead := inbox.Release(force, limit, now);
      released := deferred + dead;
      clock := now;
      Record(Event.Release(force, limit, batch));
    }

    method RecoverStale(cutoff: int, now: int) returns (recovered: nat)
      requires Valid() && clock <= now
      modifies this, inbox`rows, inbox`unfinishedCount, inbox`unfinishedBytes
      ensures Valid() && log == old(log) + [Stamp(Event.RecoverStale(cutoff), Now())]
    {
      recovered := inbox.RecoverStale(cutoff, now);
      clock := now;
      Record(Event.RecoverStale(cutoff));
    }

    method PurgeCompleted(before: int, now: int) returns (purged: nat)
      requires Valid() && clock <= now
      modifies this, inbox`rows, inbox`unfinishedCount, inbox`unfinishedBytes
      ensures Valid() && log == old(log) + [Stamp(Event.PurgeCompleted(before), Now())]
    {
      purged := inbox.PurgeCompleted(before);
      clock := now;
      Record(Event.PurgeCompleted(before));
    }
  }
}
