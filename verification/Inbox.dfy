/** The durable alert inbox: the table with its incremental capacity triggers. */
module Inbox {
  import opened AlertIdentity
  import opened Common
  import opened InboxModel

  /** Rows taken first to last, as many as fit, are a release batch. */
  lemma BatchIsRelease(rows: Rows, force: bool, limit: int, now: int, batch: set<AlertId>, rest: set<AlertId>)
    requires batch !! rest && batch + rest == ReleasableIds(rows, force, now)
    requires |batch| <= BatchLimit(limit) && (|batch| == BatchLimit(limit) || rest == {})
    requires forall a, b :: a in batch && b in rest ==> ReleaseLeq(rows[a], rows[b])
    ensures IsReleaseBatch(rows, force, limit, now, batch)
  {
    hide Releasable, ReleaseLeq;
    var ids := ReleasableIds(rows, force, now);
    assert |ids| == |batch| + |rest|;
    assert rest == ids - batch;
  }

  class AlertInbox {
    var rows: Rows
    var rawAlerts: RawTable
    var unfinishedCount: int
    var unfinishedBytes: int

    /** The incremental counters agree with a full recount. */
    ghost predicate Valid()
      reads this
    {
      unfinishedCount == |Backlog(rows)| && unfinishedBytes == BacklogBytes(rows)
    }

    constructor ()
      ensures Valid() && rows == map[] && rawAlerts == map[]
    {
      rows, rawAlerts, unfinishedCount, unfinishedBytes := map[], map[], 0, 0;
    }

    // ---- the table, with trg_inbox_capacity_{insert,update,delete} ---------

    method Write(id: AlertId, r: Row)
      requires Valid()
      modifies this`rows, this`unfinishedCount, this`unfinishedBytes
      ensures Valid() && rows == old(rows)[id := r]
    {
      BacklogPut(rows, id, r);
      BacklogBytesPut(rows, id, r);
      if id in rows {
        var o := rows[id];
        unfinishedCount := unfinishedCount - (if Unfinished(o.status) then 1 else 0) + (if Unfinished(r.status) then 1 else 0);
        unfinishedBytes := unfinishedBytes - (if Unfinished(o.status) then Size(o) else 0)
                                           + (if Unfinished(r.status) then Size(r) else 0);
      } else if Unfinished(r.status) {
        unfinishedCount := unfinishedCount + 1;
        unfinishedBytes := unfinishedBytes + Size(r);
      }
      rows := rows[id := r];
    }

    method Delete(id: AlertId)
      requires Valid() && id in rows
      modifies this`rows, this`unfinishedCount, this`unfinishedBytes
      ensures Valid() && rows == old(rows) - {id}
      ensures !Unfinished(old(rows)[id].status) ==>
        unfinishedCount == old(unfinishedCount) && unfinishedBytes == old(unfinishedBytes)
    {
      BacklogRemove(rows, id);
      BacklogBytesSplit(rows, id);
      var o := rows[id];
      if Unfinished(o.status) {
        unfinishedCount := Max(0, unfinishedCount - 1);
        unfinishedBytes := Max(0, unfinishedBytes - Size(o));
      }
      rows := rows - {id};
    }

    // ---- admission ---------------------------------------------------------

    method EnqueueBounded(e: Envelope, maxAttempts: int, capacity: int, capacityBytes: Option<int>,
                          hasResult: bool, now: int) returns (answer: Answer)
      requires Valid()
      modifies this`rows, this`unfinishedCount, this`unfinishedBytes
      ensures Valid()
      ensures
        var id := Key(e.alert);
        && answer == AdmissionAnswer(
             old(rows), id, Collides(old(rows), rawAlerts, e.alert), hasResult,
             AtCapacity(|Backlog(old(rows))|, BacklogBytes(old(rows)), Utf8Size(e.document), capacity, capacityBytes))
        && rows == AdmittedRows(old(rows), id, e, answer, maxAttempts, now)
    {
      var id := Key(e.alert);
      if id == "" { return NoAlertId; }
      if Collides(rows, rawAlerts, e.alert) { return Conflict; }
      var recover := Recoverable(rows, id, hasResult);
      if id in rows && !recover { return Duplicate; }
      if AtCapacity(unfinishedCount, unfinishedBytes, Utf8Size(e.document), capacity, capacityBytes) { return Full; }
      if recover {
        Write(id, RecoveredRow(rows[id], maxAttempts, now));
        return Recovered;
      }
      Write(id, FreshRow(e, maxAttempts, now));
      return Inserted;
    }

    // ---- claiming and leases -----------------------------------------------

    /** The scan behind the claim query's ORDER BY … LIMIT 1. */
    method NextClaim(now: int, preferred: string) returns (best: Option<AlertId>)
      ensures best.None? ==> forall id :: id in rows ==> !Due(rows[id], now)
      ensures best.Some? ==> IsNextClaim(rows, best.value, now, preferred)
    {
      best := None;
      var todo := rows.Keys;
      while todo != {}
        invariant todo <= rows.Keys
        invariant best.None? ==> forall id :: id in rows.Keys - todo ==> !Due(rows[id], now)
        invariant best.Some? ==>
          && best.value in rows && Due(rows[best.value], now)
          && forall id :: id in rows.Keys - todo && Due(rows[id], now) ==> ClaimLeq(rows[best.value], rows[id], now, preferred)
        decreases |todo|
      {
        var id :| id in todo;
        if Due(rows[id], now) && (best.None? || !ClaimLeq(rows[best.value], rows[id], now, preferred)) {
          best := Some(id);
        }
        todo := todo - {id};
      }
    }

    method Claim(preferred: string, now: int) returns (claimed: Option<AlertId>)
      requires Valid()
      modifies this`rows, this`unfinishedCount, this`unfinishedBytes
      ensures Valid()
      ensures claimed.None? ==> rows == old(rows) && forall id :: id in rows ==> !Due(rows[id], now)
      ensures claimed.Some? ==>
        && IsNextClaim(old(rows), claimed.value, now, preferred)
        && rows == old(rows)[claimed.value := ClaimedRow(old(rows)[claimed.value], now)]
    {
      claimed := NextClaim(now, preferred);
      if claimed.Some? {
        Write(claimed.value, ClaimedRow(rows[claimed.value], now));
      }
    }

    method ClaimById(id: AlertId, now: int) returns (claimed: bool)
      requires Valid()
      modifies this`rows, this`unfinishedCount, this`unfinishedBytes
      ensures Valid()
      ensures claimed <==> id in old(rows) && Due(old(rows)[id], now)
      ensures rows == if claimed then old(rows)[id := ClaimedRow(old(rows)[id], now)] else old(rows)
    {
      claimed := id in rows && Due(rows[id], now);
      if claimed {
        Write(id, ClaimedRow(rows[id], now));
      }
    }

    method Renew(id: AlertId, now: int) returns (renewed: bool)
      requires Valid()
      modifies this`rows, this`unfinishedCount, this`unfinishedBytes
      ensures Valid()
      ensures renewed <==> id in old(rows) && old(rows)[id].status.Processing?
      ensures rows == if renewed then old(rows)[id := RenewedRow(old(rows)[id], now)] else old(rows)
    {
      renewed := id in rows && rows[id].status.Processing?;
      if renewed {
        Write(id, RenewedRow(rows[id], now));
      }
    }

    method RecoverEach(ids: set<AlertId>, now: int)
      requires Valid() && ids <= rows.Keys
      modifies this`rows, this`unfinishedCount, this`unfinishedBytes
      ensures Valid()
      ensures rows == RecoverRows(old(rows), ids, now)
    {
      ghost var before := rows;
      var todo := ids;
      while todo != {}
        invariant todo <= ids
        invariant rows == RecoverRows(before, ids - todo, now) && Valid()
        decreases |todo|
      {
        var id :| id in todo;
        Write(id, StaleRow(rows[id], now));
        todo := todo - {id};
      }
      assert ids - todo == ids;
    }

    method RecoverStale(cutoff: int, now: int) returns (recovered: nat)
      requires Valid()
      modifies this`rows, this`unfinishedCount, this`unfinishedBytes
      ensures Valid()
      ensures rows == RecoverRows(old(rows), StaleIds(old(rows), cutoff), now)
      ensures recovered == |StaleIds(old(rows), cutoff)|
    {
      var hits := StaleIds(rows, cutoff);
      recovered := |hits|;
      RecoverEach(hits, now);
    }

    // ---- outcomes of a claimed alert ---------------------------------------

    method Complete(id: AlertId, now: int) returns (done: bool)
      requires Valid()
      modifies this`rows, this`unfinishedCount, this`unfinishedBytes
      ensures Valid()
      ensures done <==> id in old(rows) && old(rows)[id].status.Processing?
      ensures rows == if done then old(rows)[id := CompletedRow(old(rows)[id], now)] else old(rows)
    {
      done := id in rows && rows[id].status.Processing?;
      if done {
        Write(id, CompletedRow(rows[id], now));
      }
    }

    method SendToDeadLetter(id: AlertId, error: string, now: int) returns (done: bool)
      requires Valid()
      modifies this`rows, this`unfinishedCount, this`unfinishedBytes
      ensures Valid()
      ensures done <==> id in old(rows) && old(rows)[id].status.Processing?
      ensures rows == if done then old(rows)[id := DeadRow(old(rows)[id], error, now)] else old(rows)
    {
      done := id in rows && rows[id].status.Processing?;
      if done {
        Write(id, DeadRow(rows[id], error, now));
      }
    }

    method Fail(id: AlertId, error: string, delay: int, now: int) returns (status: Option<Status>)
      requires Valid()
      modifies this`rows, this`unfinishedCount, this`unfinishedBytes
      ensures Valid()
      ensures status.Some? <==> id in old(rows) && old(rows)[id].status.Processing?
      ensures rows == if status.Some? then old(rows)[id := FailedRow(old(rows)[id], error, delay, now)] else old(rows)
      ensures status.Some? ==>
        var was, row := old(rows)[id], rows[id];
        && status.value == row.status
        && (if was.attempts < was.maxAttempts
            then row.status.Retry? && row.availableAt == now + (if delay < 0 then 0 else delay)
            else row.status.DeadLetter? && row.availableAt == now)
        && row == was.(status := row.status, availableAt := row.availableAt, claimedAt := None, updatedAt := now,
                       lastError := if |error| > 2000 then error[..2000] else error)
    {
      if id !in rows || !rows[id].status.Processing? { return None; }
      var r := rows[id];
      var next, availableAt := Retry, now + Max(0, delay);
      if r.attempts >= r.maxAttempts {
        next, availableAt := DeadLetter, now;
      }
      Write(id, r.(status := next, availableAt := availableAt, claimedAt := None,
                   lastError := Cut(error, 2000), updatedAt := now));
      return Some(next);
    }

    method Defer(id: AlertId, delay: int, reason: string, now: int) returns (done: bool)
      requires Valid()
      modifies this`rows, this`unfinishedCount, this`unfinishedBytes
      ensures Valid()
      ensures done <==> id in old(rows) && old(rows)[id].status.Processing?
      ensures rows == if done then old(rows)[id := DeferredRow(old(rows)[id], reason, delay, now)] else old(rows)
    {
      done := id in rows && rows[id].status.Processing?;
      if done {
        Write(id, DeferredRow(rows[id], reason, delay, now));
      }
    }

    method FirstToRelease(ids: set<AlertId>) returns (first: AlertId)
      requires ids != {} && ids <= rows.Keys
      ensures first in ids && forall id :: id in ids ==> ReleaseLeq(rows[first], rows[id])
    {
      first :| first in ids;
      var todo := ids - {first};
      while todo != {}
        invariant todo <= ids && first in ids
        invariant forall id :: id in ids - todo ==> ReleaseLeq(rows[first], rows[id])
        decreases |todo|
      {
        var id :| id in todo;
        if !ReleaseLeq(rows[first], rows[id]) { first := id; }
        todo := todo - {id};
      }
    }

    /** The release query's ORDER BY … LIMIT, one row at a time. */
    method ReleaseBatch(force: bool, limit: int, now: int) returns (batch: set<AlertId>)
      ensures IsReleaseBatch(rows, force, limit, now, batch)
    {
      hide ReleaseLeq, Releasable, IsReleaseBatch;
      var size := BatchLimit(limit);
      var rest := ReleasableIds(rows, force, now);
      ghost var ids := rest;
      batch := {};
      while |batch| < size && rest != {}
        invariant batch !! rest && batch + rest == ids
        invariant |batch| <= size && |batch| + |rest| == |ids|
        invariant forall a, b :: a in batch && b in rest ==> ReleaseLeq(rows[a], rows[b])
        decreases |rest|
      {
        var first := FirstToRelease(rest);
        batch, rest := batch + {first}, rest - {first};
      }
      BatchIsRelease(rows, force, limit, now, batch, rest);
    }

    method ReleaseEach(batch: set<AlertId>, now: int)
      requires Valid() && batch <= rows.Keys
      modifies this`rows, this`unfinishedCount, this`unfinishedBytes
      ensures Valid()
      ensures rows == ReleaseRows(old(rows), batch, now)
    {
      ghost var before := rows;
      var todo := batch;
      while todo != {}
        invariant todo <= batch
        invariant rows == ReleaseRows(before, batch - todo, now) && Valid()
        decreases |todo|
      {
        var id :| id in todo;
        Write(id, ReleasedRow(rows[id], now));
        todo := todo - {id};
      }
      assert batch - todo == batch;
    }

    method Release(force: bool, limit: int, now: int)
      returns (ghost batch: set<AlertId>, deferredReleased: nat, deadRecovered: nat)
      requires Valid()
      modifies this`rows, this`unfinishedCount, this`unfinishedBytes
      ensures Valid()
      ensures IsReleaseBatch(old(rows), force, limit, now, batch)
      ensures rows == ReleaseRows(old(rows), batch, now)
      ensures deadRecovered == |set id | id in batch && id in old(rows) && old(rows)[id].status.DeadLetter?|
      ensures deferredReleased + deadRecovered == |batch|
    {
      var chosen := ReleaseBatch(force, limit, now);
      batch := chosen;
      deadRecovered := |DeadIn(rows, chosen)|;
      assert chosen == DeadIn(rows, chosen) + (chosen - DeadIn(rows, chosen));
      assert DeadIn(rows, chosen) == set id | id in chosen && id in rows && rows[id].status.DeadLetter?;
      deferredReleased := |chosen - DeadIn(rows, chosen)|;
      ReleaseEach(chosen, now);
    }

    method DeleteFinished(ids: set<AlertId>)
      requires Valid() && ids <= rows.Keys
      requires forall id :: id in ids ==> !Unfinished(rows[id].status)
      modifies this`rows, this`unfinishedCount, this`unfinishedBytes
      ensures Valid() && rows == old(rows) - ids
      ensures unfinishedCount == old(unfinishedCount) && unfinishedBytes == old(unfinishedBytes)
    {
      ghost var was := rows;
      var todo := ids;
      while todo != {}
        invariant todo <= ids && Valid()
        invariant rows == was - (ids - todo)
        invariant unfinishedCount == old(unfinishedCount) && unfinishedBytes == old(unfinishedBytes)
        decreases |todo|
      {
        var id :| id in todo;
        Delete(id);
        todo := todo - {id};
      }
    }

    method PurgeCompleted(before: int) returns (purged: nat)
      requires Valid()
      modifies this`rows, this`unfinishedCount, this`unfinishedBytes
      ensures Valid()
      ensures rows == PurgeRows(old(rows), before)
      ensures purged == |old(rows)| - |rows|
      ensures unfinishedCount == old(unfinishedCount) && unfinishedBytes == old(unfinishedBytes)
    {
      ghost var was := rows;
      var hits := set id | id in rows && PurgeableCompleted(rows[id], before);
      DeleteFinished(hits);
      assert rows == PurgeRows(was, before);
      assert |was.Keys| == |rows.Keys| + |hits| by {
        assert was.Keys == rows.Keys + hits;
      }
      purged := |hits|;
    }
  }
}
