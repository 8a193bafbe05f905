/** Worker leases: the renewal interval against the stale-claim sweep. */
module InboxLease {
  import opened Common
  import opened InboxModel
  import opened InboxRuns

  function RMin(a: real, b: real): real { if a < b then a else b }
  function RMax(a: real, b: real): real { if a < b then b else a }

  /** The configured `stale_claim_seconds`, clamped to its allowed range. */
  function StaleSeconds(configured: int): int { Max(30, Min(configured, 86400)) }

  /** Seconds between lease renewals. */
  function LeaseInterval(stale: int): real { RMin(60.0, RMax(10.0, stale as real / 3.0)) }

  /** The configured limit is kept within half a minute and a day, and a lease is renewed
      every third of it, but not more often than every ten seconds nor less than every minute. */
  lemma LeaseTimesAre(configured: int, stale: int)
    ensures StaleSeconds(configured) == if configured < 30 then 30 else if configured > 86_400 then 86_400 else configured
    ensures LeaseInterval(stale) == if stale < 30 then 10.0 else if stale > 180 then 60.0 else stale as real / 3.0
  {
  }

  lemma IntervalIsAThird(configured: int)
    ensures 0.0 < LeaseInterval(StaleSeconds(configured)) <= StaleSeconds(configured) as real / 3.0
  {
  }

  /** Below the clamp the ten-second floor would break the one-third rule. */
  lemma ThirdNeedsTheClamp(stale: int)
    ensures LeaseInterval(stale) <= stale as real / 3.0 <==> stale >= 30
  {
  }

  /** Events that take a claim away on the worker's own behalf. */
  predicate EndsClaim(ev: Event, id: AlertId) {
    || (ev.Complete? && ev.id == id) || (ev.Kill? && ev.id == id)
    || (ev.Fail? && ev.id == id) || (ev.Defer? && ev.id == id)
  }

  /** What the worker and the sweeps do while `id` is processed: nobody ends the claim,
      and a sweep looks back `stale` seconds from the time it reads. */
  predicate Undisturbed(run: seq<Stamp>, id: AlertId, stale: int) {
    forall i :: 0 <= i < |run| ==>
      && !EndsClaim(run[i].ev, id)
      && (run[i].ev.RecoverStale? ==> run[i].ev.cutoff <= run[i].after.clock - 1000 * stale)
  }

  predicate IsRenewal(ev: Event, id: AlertId) { ev.Renew? && ev.id == id }

  /** The lease thread renews in time: from `last`, the time of the claim or the renewal
      before, to the next renewal, and at the end to the end of the run, at most `gap`
      milliseconds pass.  `now` is the clock where the run starts. */
  ghost predicate OnTime(run: seq<Stamp>, id: AlertId, last: int, now: int, gap: real)
    decreases |run|
  {
    if run == [] then (now - last) as real <= gap
    else
      var clock := run[0].after.clock;
      if IsRenewal(run[0].ev, id) then (clock - last) as real <= gap && OnTime(run[1..], id, clock, clock, gap)
      else OnTime(run[1..], id, last, clock, gap)
  }

  function LastRenewal(run: seq<Stamp>, id: AlertId, last: int): int {
    if run == [] then last
    else LastRenewal(run[1..], id, if IsRenewal(run[0].ev, id) then run[0].after.clock else last)
  }

  /** Whatever happens before the next renewal happens within its deadline. */
  lemma {:induction false} WithinDeadline(s: State, run: seq<Stamp>, id: AlertId, last: int, gap: real)
    requires Run(s, run) && OnTime(run, id, last, s.clock, gap)
    ensures (s.clock - last) as real <= gap
    decreases |run|
  {
    if run != [] {
      assert s.clock <= run[0].after.clock;
      hide Step;
      if !IsRenewal(run[0].ev, id) { WithinDeadline(run[0].after, run[1..], id, last, gap); }
    }
  }

  lemma AdmissionSkipsHeld(s: State, ev: Event, s': State, id: AlertId)
    requires Step(s, ev, s') && ev.Submit? && Held(s.rows, id)
    ensures Held(s'.rows, id) && s'.rows[id] == s.rows[id]
  {
  }

  lemma HeldStays(s: State, ev: Event, s': State, id: AlertId)
    requires Step(s, ev, s') && Held(s.rows, id) && !EndsClaim(ev, id)
    requires ev.RecoverStale? ==> !Stale(s.rows[id], ev.cutoff)
    ensures Held(s'.rows, id)
    ensures s'.rows[id] == if IsRenewal(ev, id) then RenewedRow(s.rows[id], s'.clock) else s.rows[id]
  {
    hide RawsStep;
    if ev.Submit? {
      AdmissionSkipsHeld(s, ev, s', id);
    } else {
      hide AnswerTo;
    }
  }

  /** A sweep that comes before the deadline does not reach the claim. */
  lemma SweepIsTooEarly(claimedAt: int, clock: int, cutoff: int, stale: int, gap: real)
    requires (clock - claimedAt) as real <= gap < 1000.0 * stale as real && cutoff <= clock - 1000 * stale
    ensures cutoff < claimedAt
  {
    assert ((clock - claimedAt) as real) < (1000 * stale) as real;
  }

  /** While the lease thread is late by less than what its interval leaves of the limit,
      no sweep takes the row from its worker, and its claim time is the last renewal. */
  lemma {:induction false} LeaseHolds(s: State, run: seq<Stamp>, id: AlertId, stale: int, late: real)
    requires Run(s, run) && Held(s.rows, id) && s.rows[id].claimedAt.Some?
    requires LeaseInterval(stale) + late < stale as real && Undisturbed(run, id, stale)
    requires OnTime(run, id, s.rows[id].claimedAt.value, s.clock, 1000.0 * (LeaseInterval(stale) + late))
    ensures Held(Final(s, run).rows, id)
    ensures Final(s, run).rows[id].attempts == s.rows[id].attempts
    ensures Final(s, run).rows[id].claimedAt == Some(LastRenewal(run, id, s.rows[id].claimedAt.value))
    decreases |run|
  {
    hide Step, LeaseInterval;
    if run != [] {
      var ev, after := run[0].ev, run[0].after;
      var last, gap := s.rows[id].claimedAt.value, 1000.0 * (LeaseInterval(stale) + late);
      if ev.RecoverStale? {
        WithinDeadline(after, run[1..], id, last, gap);
        SweepIsTooEarly(last, after.clock, ev.cutoff, stale, gap);
      }
      HeldStays(s, ev, after, id);
      assert Undisturbed(run[1..], id, stale) by { assert forall i :: 0 <= i < |run[1..]| ==> run[1..][i] == run[i + 1]; }
      LeaseHolds(after, run[1..], id, stale, late);
    }
  }

  /** For a configured limit a thread may be late by two thirds of it. */
  lemma ConfiguredLeaseHolds(s: State, run: seq<Stamp>, id: AlertId, configured: int, late: real)
    requires Run(s, run) && Held(s.rows, id) && s.rows[id].claimedAt.Some?
    requires late < 2.0 * StaleSeconds(configured) as real / 3.0 && Undisturbed(run, id, StaleSeconds(configured))
    requires OnTime(run, id, s.rows[id].claimedAt.value, s.clock, 1000.0 * (LeaseInterval(StaleSeconds(configured)) + late))
    ensures Held(Final(s, run).rows, id)
  {
    IntervalIsAThird(configured);
    hide *;
    LeaseHolds(s, run, id, StaleSeconds(configured), late);
  }

  /** The bound is exact: a thread that may be later than that can lose its claim in time. */
  lemma LateLeaseIsLost(s: State, id: AlertId, stale: int, late: real) returns (st: Stamp)
    requires Held(s.rows, id) && s.rows[id].claimedAt == Some(s.clock)
    requires stale as real <= LeaseInterval(stale) + late && 0 <= stale
    ensures Step(s, st.ev, st.after) && Undisturbed([st], id, stale)
    ensures OnTime([st], id, s.clock, s.clock, 1000.0 * (LeaseInterval(stale) + late))
    ensures !Held(st.after.rows, id)
  {
    hide LeaseInterval;
    var later := s.clock + 1000 * stale;
    st := Stamp(RecoverStale(s.clock), s.(rows := RecoverRows(s.rows, StaleIds(s.rows, s.clock), later), clock := later));
    assert [st][1..] == [];
    assert (later - s.clock) as real == 1000.0 * stale as real;
  }
}
