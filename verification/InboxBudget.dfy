/** Retry budget, claim counting and release of deferred work, over whole runs. */
module InboxBudget {
  import opened AlertIdentity
  import opened Common
  import opened InboxModel
  import opened InboxRuns
  import opened PyText

  // ---- the retry budget --------------------------------------------------

  /** Waiting rows have budget left; a claimed row has used at least one attempt. */
  predicate BudgetOk(r: Row) {
    && 1 <= r.maxAttempts && 0 <= r.attempts <= r.maxAttempts
    && (Queued(r) || r.status.Deferred? ==> r.attempts < r.maxAttempts)
    && (r.status.Processing? ==> 1 <= r.attempts && r.claimedAt.Some?)
  }

  predicate BudgetsOk(rows: Rows) {
    forall id :: id in rows ==> BudgetOk(rows[id])
  }

  lemma MoveKeepsBudget(r: Row, r': Row, now: int)
    requires BudgetOk(r) && Moves(r, r', now)
    ensures BudgetOk(r')
  {
  }

  lemma StepKeepsBudgets(s: State, ev: Event, s': State)
    requires Step(s, ev, s') && BudgetsOk(s.rows)
    ensures BudgetsOk(s'.rows)
  {
    forall id | id in s'.rows ensures BudgetOk(s'.rows[id]) {
      StepMoves(s, ev, s', id);
      if id in s.rows { MoveKeepsBudget(s.rows[id], s'.rows[id], s'.clock); }
    }
  }

  /** Every reachable state keeps every row within its retry budget. */
  lemma {:induction false} RunKeepsBudgets(s: State, run: seq<Stamp>)
    requires Run(s, run) && BudgetsOk(s.rows)
    ensures BudgetsOk(Final(s, run).rows)
    decreases |run|
  {
    hide Step;
    if run != [] {
      StepKeepsBudgets(s, run[0].ev, run[0].after);
      RunKeepsBudgets(run[0].after, run[1..]);
    }
  }

  // ---- claim counting ----------------------------------------------------

  /** Whether the event hands `id` to a worker. */
  predicate IsClaimOf(s: State, ev: Event, now: int, id: AlertId) {
    || (ev.Dispatch? && ev.claimed == Some(id))
    || (ev.ClaimById? && ev.id == id && id in s.rows && Due(s.rows[id], now))
  }

  /** Whether the event gives `id` a fresh attempt budget: first admission,
      recovery of a completed row whose result is gone, or release. */
  predicate IsGrantTo(ev: Event, id: AlertId) {
    || (ev.Submit? && (ev.answer.Inserted? || ev.answer.Recovered?) && Key(ev.e.alert) == id)
    || (ev.Release? && id in ev.batch)
  }

  function Claims(s: State, run: seq<Stamp>, id: AlertId): nat
    decreases |run|
  {
    if run == [] then 0
    else (if IsClaimOf(s, run[0].ev, run[0].after.clock, id) then 1 else 0) + Claims(run[0].after, run[1..], id)
  }

  function Grants(run: seq<Stamp>, id: AlertId): nat {
    if run == [] then 0 else (if IsGrantTo(run[0].ev, id) then 1 else 0) + Grants(run[1..], id)
  }

  /** No submission of `id` asks for more than `m` attempts. */
  predicate AsksAtMost(ev: Event, id: AlertId, m: int) {
    ev.Submit? && Key(ev.e.alert) == id ==> Max(1, ev.maxAttempts) <= m
  }

  predicate RunAsksAtMost(run: seq<Stamp>, id: AlertId, m: int) {
    forall i :: 0 <= i < |run| ==> AsksAtMost(run[i].ev, id, m)
  }

  /** Claims the row can still get without a new grant. */
  function Credit(rows: Rows, id: AlertId): int {
    if id in rows && (Queued(rows[id]) || rows[id].status.Processing?)
    then rows[id].maxAttempts - rows[id].attempts else 0
  }

  lemma CreditIsNatural(rows: Rows, id: AlertId)
    requires BudgetsOk(rows)
    ensures 0 <= Credit(rows, id)
  {
  }

  lemma ClaimsAreClaims(s: State, ev: Event, s': State, id: AlertId)
    requires Step(s, ev, s') && IsClaimOf(s, ev, s'.clock, id)
    ensures id in s.rows && id in s'.rows && Queued(s.rows[id]) && s'.rows[id] == ClaimedRow(s.rows[id], s'.clock)
    ensures !IsGrantTo(ev, id)
  {
  }

  lemma GrantsAreGrants(s: State, ev: Event, s': State, id: AlertId)
    requires Step(s, ev, s')
    requires id in s.rows && id in s'.rows
    requires !s.rows[id].status.Processing? && !Queued(s.rows[id]) && Queued(s'.rows[id])
    ensures IsGrantTo(ev, id)
    ensures s.rows[id].status.Completed? ==>
      ev.Submit? && Key(ev.e.alert) == id && s'.rows[id].maxAttempts == Max(1, ev.maxAttempts)
  {
  }

  lemma StepSpendsCredit(s: State, ev: Event, s': State, id: AlertId, m: int)
    requires Step(s, ev, s') && BudgetsOk(s.rows) && AsksAtMost(ev, id, m)
    requires 1 <= m && (id in s.rows ==> s.rows[id].maxAttempts <= m)
    ensures id in s'.rows ==> s'.rows[id].maxAttempts <= m
    ensures Credit(s'.rows, id) + (if IsClaimOf(s, ev, s'.clock, id) then 1 else 0)
         <= Credit(s.rows, id) + (if IsGrantTo(ev, id) then m else 0)
  {
    hide Step;
    StepKeepsBudgets(s, ev, s');
    StepMoves(s, ev, s', id);
    if IsClaimOf(s, ev, s'.clock, id) { ClaimsAreClaims(s, ev, s', id); }
    if id in s.rows && id in s'.rows && !s.rows[id].status.Processing? && !Queued(s.rows[id]) && Queued(s'.rows[id]) {
      GrantsAreGrants(s, ev, s', id);
    }
  }

  /** Deferral gives its attempt back, yet one alert is claimed at most
      `m` times for each budget it was granted. */
  lemma {:induction false} ClaimsBounded(s: State, run: seq<Stamp>, id: AlertId, m: int)
    requires Run(s, run) && BudgetsOk(s.rows) && RunAsksAtMost(run, id, m)
    requires 1 <= m && (id in s.rows ==> s.rows[id].maxAttempts <= m)
    ensures Claims(s, run, id) <= Credit(s.rows, id) + m * Grants(run, id)
    decreases |run|
  {
    hide Step, BudgetsOk, IsClaimOf, IsGrantTo, Credit, AsksAtMost;
    if run != [] {
      StepSpendsCredit(s, run[0].ev, run[0].after, id, m);
      StepKeepsBudgets(s, run[0].ev, run[0].after);
      assert RunAsksAtMost(run[1..], id, m);
      ClaimsBounded(run[0].after, run[1..], id, m);
      assert m * (1 + Grants(run[1..], id)) == m + m * Grants(run[1..], id);
    } else {
      CreditIsNatural(s.rows, id);
    }
  }

  /** From an empty inbox: attempts are bounded by budget times grants. */
  lemma ClaimsWithinGrants(run: seq<Stamp>, id: AlertId, m: int)
    requires Run(EMPTY, run) && 1 <= m && RunAsksAtMost(run, id, m)
    ensures Claims(EMPTY, run, id) <= m * Grants(run, id)
  {
    ClaimsBounded(EMPTY, run, id, m);
  }

  // ---- deferred work is never stranded -----------------------------------

  /** Every deferred row matches the error filter that releases it. */
  predicate DeferralsOk(rows: Rows) {
    forall id :: id in rows && rows[id].status.Deferred? ==> IsDeferralError(rows[id].lastError)
  }

  lemma DeferralErrorMatches(r: Row, reason: string, delay: int, now: int)
    ensures IsDeferralError(DeferredRow(r, reason, delay, now).lastError)
  {
    LikePrefix(DEFERRED_PREFIX, Cut(Strip(OrElse(reason, "remote_llm_unavailable")), 512));
  }

  lemma OnlyDeferDefers(s: State, ev: Event, s': State, id: AlertId)
    requires Step(s, ev, s') && id in s'.rows && s'.rows[id].status.Deferred?
    ensures
      || (id in s.rows && s.rows[id].status.Deferred? && s'.rows[id].lastError == s.rows[id].lastError)
      || (ev.Defer? && id in s.rows && s'.rows[id] == DeferredRow(s.rows[id], ev.reason, ev.delay, s'.clock))
  {
  }

  lemma StepKeepsDeferrals(s: State, ev: Event, s': State)
    requires Step(s, ev, s') && DeferralsOk(s.rows)
    ensures DeferralsOk(s'.rows)
  {
    hide Step, IsDeferralError;
    forall id | id in s'.rows && s'.rows[id].status.Deferred?
      ensures IsDeferralError(s'.rows[id].lastError)
    {
      OnlyDeferDefers(s, ev, s', id);
      if ev.Defer? && id in s.rows { DeferralErrorMatches(s.rows[id], ev.reason, ev.delay, s'.clock); }
    }
  }

  lemma {:induction false} RunKeepsDeferrals(s: State, run: seq<Stamp>)
    requires Run(s, run) && DeferralsOk(s.rows)
    ensures DeferralsOk(Final(s, run).rows)
    decreases |run|
  {
    hide Step, DeferralsOk;
    if run != [] {
      StepKeepsDeferrals(s, run[0].ev, run[0].after);
      RunKeepsDeferrals(run[0].after, run[1..]);
    }
  }

  /** A forced release whose limit covers the releasable rows leaves no deferred row behind. */
  lemma ForcedReleaseDrains(rows: Rows, limit: int, now: int, batch: set<AlertId>)
    requires DeferralsOk(rows) && IsReleaseBatch(rows, true, limit, now, batch)
    requires |ReleasableIds(rows, true, now)| <= BatchLimit(limit)
    ensures forall id :: id in ReleaseRows(rows, batch, now) ==> !ReleaseRows(rows, batch, now)[id].status.Deferred?
  {
    hide IsDeferralError, IsModelError;
    var ids := ReleasableIds(rows, true, now);
    SubsetSize(batch, ids);
  }
}
