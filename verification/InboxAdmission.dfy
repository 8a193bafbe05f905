/** Bounded admission over whole runs: backlog count, backlog bytes and the
    one identity behind every accepted submission of an alert. */
module InboxAdmission {
  import opened AlertIdentity
  import opened Common
  import opened InboxModel
  import opened InboxRuns
  import opened Intake
  import opened PyText
  import JsonValue

  // ---- backlog count -----------------------------------------------------

  /** Dead letters that a release step puts back into the backlog. */
  function DeadReleased(rows: Rows, ev: Event): nat {
    if ev.Release? && ev.batch <= rows.Keys then |DeadIn(rows, ev.batch)| else 0
  }

  function TotalDeadReleased(s: State, run: seq<Stamp>): nat
    decreases |run|
  {
    if run == [] then 0 else DeadReleased(s.rows, run[0].ev) + TotalDeadReleased(run[0].after, run[1..])
  }

  predicate UsesCapacity(run: seq<Stamp>, capacity: int) {
    forall i :: 0 <= i < |run| && run[i].ev.Submit? ==> run[i].ev.capacity == capacity
  }

  lemma RevivedByRelease(s: State, ev: Event, s': State)
    requires Step(s, ev, s') && !ev.Submit?
    ensures ev.Release? ==> ev.batch <= s.rows.Keys
    ensures forall id :: id in s.rows && id in s'.rows && !Unfinished(s.rows[id].status) && Unfinished(s'.rows[id].status)
              ==> ev.Release? && id in ev.batch && s.rows[id].status.DeadLetter?
  {
  }

  /** Outside admission, a row that becomes unfinished is a released dead letter. */
  lemma OnlyReleaseRevives(s: State, ev: Event, s': State)
    requires Step(s, ev, s') && !ev.Submit?
    ensures Backlog(s'.rows) <= Backlog(s.rows) + (if ev.Release? then DeadIn(s.rows, ev.batch) else {})
  {
    RevivedByRelease(s, ev, s');
    hide Step;
    forall id | id in Backlog(s'.rows) && id !in Backlog(s.rows)
      ensures ev.Release? && id in DeadIn(s.rows, ev.batch)
    {
      StepMoves(s, ev, s', id);
    }
  }

  lemma SubmitBacklog(s: State, ev: Event, s': State)
    requires Step(s, ev, s') && ev.Submit?
    ensures |Backlog(s'.rows)| <= Max(|Backlog(s.rows)|, Max(1, ev.capacity))
  {
    var id := Key(ev.e.alert);
    if ev.answer.Inserted? { BacklogPut(s.rows, id, FreshRow(ev.e, ev.maxAttempts, s'.clock)); }
    if ev.answer.Recovered? { BacklogPut(s.rows, id, RecoveredRow(s.rows[id], ev.maxAttempts, s'.clock)); }
  }

  lemma StepBacklog(s: State, ev: Event, s': State, capacity: int)
    requires Step(s, ev, s') && (ev.Submit? ==> ev.capacity == capacity)
    ensures |Backlog(s'.rows)| <= Max(|Backlog(s.rows)| + DeadReleased(s.rows, ev), Max(1, capacity))
  {
    if ev.Submit? {
      SubmitBacklog(s, ev, s');
    } else {
      OnlyReleaseRevives(s, ev, s');
      RevivedByRelease(s, ev, s');
      hide Step;
      var revived := if ev.Release? then DeadIn(s.rows, ev.batch) else {};
      SubsetSize(Backlog(s'.rows), Backlog(s.rows) + revived);
    }
  }

  /** With one capacity, the backlog never exceeds it by more than the dead
      letters put back by release. */
  lemma {:induction false} BacklogBounded(s: State, run: seq<Stamp>, capacity: int, extra: nat)
    requires Run(s, run) && UsesCapacity(run, capacity) && |Backlog(s.rows)| <= Max(1, capacity) + extra
    ensures |Backlog(Final(s, run).rows)| <= Max(1, capacity) + extra + TotalDeadReleased(s, run)
    decreases |run|
  {
    hide Step, DeadReleased;
    if run != [] {
      StepBacklog(s, run[0].ev, run[0].after, capacity);
      BacklogBounded(run[0].after, run[1..], capacity, extra + DeadReleased(s.rows, run[0].ev));
    }
  }

  // ---- backlog bytes -----------------------------------------------------

  /** An "inserted" answer also leaves the backlog within its byte capacity. */
  lemma InsertedFits(s: State, ev: Event, s': State)
    requires Step(s, ev, s') && ev.Submit? && ev.answer.Inserted? && ev.capacityBytes.Some?
    ensures BacklogBytes(s'.rows) <= Max(1, ev.capacityBytes.value)
  {
    BacklogBytesPut(s.rows, Key(ev.e.alert), FreshRow(ev.e, ev.maxAttempts, s'.clock));
  }

  /** A "recovered" answer weighs the incoming copy but queues the stored one,
      so it fits exactly when the stored copy would have fitted. */
  lemma RecoveredFitsIffStoredFits(s: State, ev: Event, s': State)
    requires Step(s, ev, s') && ev.Submit? && ev.answer.Recovered? && ev.capacityBytes.Some?
    ensures Key(ev.e.alert) in s.rows
    ensures BacklogBytes(s'.rows) <= Max(1, ev.capacityBytes.value)
       <==> BacklogBytes(s.rows) + Size(s.rows[Key(ev.e.alert)]) <= Max(1, ev.capacityBytes.value)
  {
    var id := Key(ev.e.alert);
    BacklogBytesPut(s.rows, id, RecoveredRow(s.rows[id], ev.maxAttempts, s'.clock));
  }

  // ---- a run whose recovery overflows ------------------------------------

  const SAMPLE_TIME := "2026-01-01T00:00:00Z"

  /** A validated alert whose payload holds nothing but a collector receipt. */
  function Sample(id: string, receipt: string): Alert {
    Alert(id, "collector", "waf", "event", "low", SAMPLE_TIME, JsonValue.Object(map[RECEIPT_KEY := JsonValue.Text(receipt)]))
  }

  lemma TimeStays()
    ensures Strip(SAMPLE_TIME) == SAMPLE_TIME && SAMPLE_TIME != "" && |SAMPLE_TIME| <= MAX_TIMESTAMP
  {
    hide Strip;
    assert SAMPLE_TIME[0] == '2' && SAMPLE_TIME[19] == 'Z';
    StripDrops("", SAMPLE_TIME);
    assert "" + SAMPLE_TIME == SAMPLE_TIME;
  }

  lemma SampleFacts(id: string, receipt: string, other: string)
    requires IsWord(id) && |id| <= MAX_FIELD
    ensures IsValidated(Sample(id, receipt)) && Key(Sample(id, receipt)) == id
    ensures IdentityOf(Sample(id, receipt)) == IdentityOf(Sample(id, other))
  {
    hide Strip, Lower;
    assert IsWord("collector") && IsWord("event");
    WordsStay(id);
    WordsStay("collector");
    WordsStay("event");
    TimeStays();
  }

  /** A submission with room for 5000 rows and `bytes` bytes, one attempt, and no result on record. */
  function Offer(id: string, receipt: string, document: string, bytes: int, answer: Answer): (ev: Event)
    ensures ev.Submit?
  {
    Submit(Envelope(Sample(id, receipt), document), 1, 5000, Some(bytes), false, answer)
  }

  lemma OfferIsStep(s: State, ev: Event)
    requires ev.Submit? && IsValidated(ev.e.alert) && ev.answer == AnswerTo(s.rows, s.raws, ev)
    ensures Step(s, ev, s.(rows := AdmittedRows(s.rows, Key(ev.e.alert), ev.e, ev.answer, ev.maxAttempts, s.clock)))
  {
    hide AnswerTo, IsValidated, Key;
  }

  lemma SampleKey(id: string, receipt: string)
    requires IsWord(id) && |id| <= MAX_FIELD
    ensures IsValidated(Sample(id, receipt)) && Key(Sample(id, receipt)) == id && id != ""
  {
    SampleFacts(id, receipt, receipt);
    hide Strip, Lower, IsValidated;
  }

  lemma OfferAnswered(s: State, id: string, receipt: string, document: string, bytes: int, answer: Answer)
    requires IsWord(id) && |id| <= MAX_FIELD && id !in s.raws
    requires |Backlog(s.rows)| < 5000 && BacklogBytes(s.rows) + Utf8Size(document) <= Max(1, bytes)
    requires answer.Inserted? || answer.Recovered?
    requires answer.Inserted? ==> id !in s.rows
    requires answer.Recovered? ==> id in s.rows && s.rows[id].status.Completed?
                                   && IdentityOf(s.rows[id].envelope.alert) == IdentityOf(Sample(id, receipt))
    ensures answer == AnswerTo(s.rows, s.raws, Offer(id, receipt, document, bytes, answer))
  {
    SampleKey(id, receipt);
    hide Strip, Lower, IdentityOf, IsValidated, Sample, Key;
  }

  /** A new alert that fits is inserted. */
  lemma InsertStep(s: State, id: string, receipt: string, document: string, bytes: int) returns (st: Stamp)
    requires IsWord(id) && |id| <= MAX_FIELD && id !in s.rows && id !in s.raws
    requires |Backlog(s.rows)| == 0 && BacklogBytes(s.rows) + Utf8Size(document) <= Max(1, bytes)
    ensures st.ev == Offer(id, receipt, document, bytes, Inserted) && Step(s, st.ev, st.after)
    ensures st.after == s.(rows := s.rows[id := FreshRow(Envelope(Sample(id, receipt), document), 1, s.clock)])
    ensures Backlog(st.after.rows) == {id} && BacklogBytes(st.after.rows) == BacklogBytes(s.rows) + Utf8Size(document)
  {
    SampleKey(id, receipt);
    hide Strip, Lower, IsValidated, Sample, Key, AnswerTo, Step, BacklogBytes, IsWord, Utf8Size;
    OfferAnswered(s, id, receipt, document, bytes, Inserted);
    var ev := Offer(id, receipt, document, bytes, Inserted);
    OfferIsStep(s, ev);
    BacklogBytesPut(s.rows, id, FreshRow(ev.e, 1, s.clock));
    assert Backlog(s.rows) == {};
    st := Stamp(ev, s.(rows := s.rows[id := FreshRow(ev.e, 1, s.clock)]));
  }

  /** The only row waiting is dispatched and completed. */
  lemma CompleteSteps(s: State, id: string) returns (a: Stamp, b: Stamp)
    requires s.rows.Keys == {id} && s.rows[id].status.Pending? && s.rows[id].availableAt <= s.clock
    ensures a.ev == Dispatch(Some(id)) && Step(s, a.ev, a.after)
    ensures b.ev == Complete(id) && Step(a.after, b.ev, b.after)
    ensures b.after.rows == map[id := CompletedRow(ClaimedRow(s.rows[id], s.clock), s.clock)]
    ensures b.after.raws == s.raws && b.after.clock == s.clock
    ensures Backlog(b.after.rows) == {} && BacklogBytes(b.after.rows) == 0
  {
    var claimed := ClaimedRow(s.rows[id], s.clock);
    a := Stamp(Dispatch(Some(id)), State(s.rows[id := claimed], s.raws, s.clock, (s.cursor + 1) % 5));
    assert IsNextClaim(s.rows, id, s.clock, Preferred(s.cursor));
    var done := CompletedRow(claimed, s.clock);
    b := Stamp(Complete(id), a.after.(rows := a.after.rows[id := done]));
    assert b.after.rows == map[id := done];
    BacklogBytesSplit(b.after.rows, id);
    assert b.after.rows - {id} == map[];
  }

  /** A shorter copy of a completed alert whose result is gone is weighed by its own
      size but brings the stored copy back. */
  lemma RecoverStep(s: State, id: string, first: string, receipt: string, document: string, bytes: int) returns (st: Stamp)
    requires IsWord(id) && |id| <= MAX_FIELD && id in s.rows && id !in s.raws
    requires s.rows[id].status.Completed? && s.rows[id].envelope.alert == Sample(id, first)
    requires |Backlog(s.rows)| < 5000 && BacklogBytes(s.rows) + Utf8Size(document) <= Max(1, bytes)
    ensures st.ev == Offer(id, receipt, document, bytes, Recovered) && Step(s, st.ev, st.after)
    ensures BacklogBytes(st.after.rows) == BacklogBytes(s.rows) + Size(s.rows[id])
  {
    SampleFacts(id, first, receipt);
    hide Strip, Lower, IdentityOf, IsValidated, Sample, Key, AnswerTo, Step, Backlog, BacklogBytes, IsWord, Utf8Size;
    OfferAnswered(s, id, receipt, document, bytes, Recovered);
    var ev := Offer(id, receipt, document, bytes, Recovered);
    SampleKey(id, receipt);
    OfferIsStep(s, ev);
    var r := RecoveredRow(s.rows[id], 1, s.clock);
    BacklogBytesPut(s.rows, id, r);
    st := Stamp(ev, s.(rows := s.rows[id := r]));
  }

  lemma EmptyBacklog()
    ensures Backlog(EMPTY.rows) == {} && BacklogBytes(EMPTY.rows) == 0
  {
  }

  /** One alert is submitted to the empty inbox, dispatched and completed. */
  lemma ProcessedOnce(receipt: string, document: string, bytes: int) returns (a: Stamp, b: Stamp, c: Stamp)
    requires Utf8Size(document) <= Max(1, bytes)
    ensures a.ev == Offer("a", receipt, document, bytes, Inserted) && Step(EMPTY, a.ev, a.after)
    ensures b.ev.Dispatch? && Step(a.after, b.ev, b.after)
    ensures c.ev.Complete? && Step(b.after, c.ev, c.after)
    ensures c.after.rows.Keys == {"a"} && c.after.raws == map[] && c.after.rows["a"].status.Completed?
    ensures c.after.rows["a"].envelope == Envelope(Sample("a", receipt), document)
    ensures Backlog(c.after.rows) == {} && BacklogBytes(c.after.rows) == 0
  {
    hide Step, Utf8Size, Backlog, BacklogBytes, Sample;
    EmptyBacklog();
    a := InsertStep(EMPTY, "a", receipt, document, bytes);
    b, c := CompleteSteps(a.after, "a");
  }

  /** Other work fills the inbox; then a shorter copy of the completed alert arrives. */
  lemma FilledThenRecovered(s: State, long: string, short: string, filler: string, early: string, late: string, bytes: int)
    returns (d: Stamp, e: Stamp)
    requires s.rows.Keys == {"a"} && s.raws == map[] && s.rows["a"].status.Completed?
    requires s.rows["a"].envelope == Envelope(Sample("a", early), long)
    requires Backlog(s.rows) == {} && BacklogBytes(s.rows) == 0
    requires Utf8Size(filler) + Utf8Size(short) <= bytes
    ensures d.ev.Submit? && d.ev.capacityBytes == Some(bytes) && Step(s, d.ev, d.after)
    ensures e.ev == Offer("a", late, short, bytes, Recovered) && Step(d.after, e.ev, e.after)
    ensures BacklogBytes(e.after.rows) == Utf8Size(filler) + Utf8Size(long)
  {
    hide Step, Utf8Size, Backlog, BacklogBytes, Sample, FreshRow;
    d := InsertStep(s, "b", early, filler, bytes);
    assert d.after.rows["a"] == s.rows["a"];
    e := RecoverStep(d.after, "a", early, late, short, bytes);
  }

  /** A run whose last answer "recovered" leaves the backlog over the byte capacity. */
  ghost predicate Overflows(run: seq<Stamp>, bytes: int, first: Alert, last: Alert) {
    && Run(EMPTY, run) && |run| == 5
    && (forall i :: 0 <= i < 5 && run[i].ev.Submit? ==> run[i].ev.capacityBytes == Some(bytes))
    && run[0].ev.Submit? && run[0].ev.e.alert == first
    && run[4].ev.Submit? && run[4].ev.e.alert == last && run[4].ev.answer.Recovered?
    && BacklogBytes(Final(EMPTY, run).rows) > bytes
  }

  lemma SampleIdentity(early: string, late: string)
    ensures IdentityOf(Sample("a", early)) == IdentityOf(Sample("a", late))
  {
    hide IdentityOf;
    SampleFacts("a", early, late);
  }

  lemma WithinLimit(bytes: int, size: nat)
    requires size <= bytes
    ensures size <= Max(1, bytes)
  {
  }

  lemma OffersOverflow(run: seq<Stamp>, bytes: int, long: string, short: string, early: string, late: string)
    requires Run(EMPTY, run) && |run| == 5 && BacklogBytes(Final(EMPTY, run).rows) > bytes
    requires run[0].ev == Offer("a", early, long, bytes, Inserted) && run[1].ev.Dispatch? && run[2].ev.Complete?
    requires run[3].ev.Submit? && run[3].ev.capacityBytes == Some(bytes) && run[4].ev == Offer("a", late, short, bytes, Recovered)
    ensures Overflows(run, bytes, Sample("a", early), Sample("a", late))
    ensures run[0].ev.e.document == long && run[4].ev.e.document == short
  {
    hide Run, Final, BacklogBytes, Sample;
  }

  lemma FiveSteps(a: Stamp, b: Stamp, c: Stamp, d: Stamp, e: Stamp)
    requires Step(EMPTY, a.ev, a.after) && Step(a.after, b.ev, b.after) && Step(b.after, c.ev, c.after)
    requires Step(c.after, d.ev, d.after) && Step(d.after, e.ev, e.after)
    ensures Run(EMPTY, [a, b, c, d, e]) && Final(EMPTY, [a, b, c, d, e]) == e.after
  {
    hide Step;
    assert [e][1..] == [] && Run(d.after, [e]);
    assert [d, e][1..] == [e] && Run(c.after, [d, e]);
    assert [c, d, e][1..] == [d, e] && Run(b.after, [c, d, e]);
    assert [b, c, d, e][1..] == [c, d, e] && Run(a.after, [b, c, d, e]);
    assert [a, b, c, d, e][1..] == [b, c, d, e];
  }

  /** For every byte capacity that can be configured there is such a run from the empty
      inbox: a long copy is processed, other work fills the inbox, and a shorter copy of
      the first alert, with another receipt, arrives when its result is gone. */
  lemma RecoveredCanOverflow(bytes: int, long: string, short: string, filler: string, early: string, late: string)
    returns (run: seq<Stamp>)
    requires bytes >= 1024 * 1024
    requires Utf8Size(long) <= bytes && Utf8Size(filler) + Utf8Size(short) <= bytes < Utf8Size(filler) + Utf8Size(long)
    ensures Overflows(run, bytes, Sample("a", early), Sample("a", late))
    ensures run[0].ev.e.document == long && run[4].ev.e.document == short
    ensures IdentityOf(Sample("a", early)) == IdentityOf(Sample("a", late))
  {
    hide *;
    SampleIdentity(early, late);
    WithinLimit(bytes, Utf8Size(long));
    var s1, s2, s3 := ProcessedOnce(early, long, bytes);
    var s4, s5 := FilledThenRecovered(s3.after, long, short, filler, early, late, bytes);
    run := [s1, s2, s3, s4, s5];
    FiveSteps(s1, s2, s3, s4, s5);
    OffersOverflow(run, bytes, long, short, early, late);
  }

  // ---- one identity per alert --------------------------------------------

  predicate Present(s: State, id: AlertId) { id in s.rows || id in s.raws }

  /** Whatever is stored under `id` carries identity `i`. */
  predicate Bound(s: State, id: AlertId, i: Identity) {
    && (id in s.rows ==> IdentityOf(s.rows[id].envelope.alert) == i)
    && (id in s.raws ==> IdentityOf(s.raws[id]) == i)
  }

  predicate Accepts(ev: Event, id: AlertId) {
    ev.Submit? && (ev.answer.Inserted? || ev.answer.Recovered? || ev.answer.Duplicate?) && Key(ev.e.alert) == id
  }

  lemma AcceptedBinds(s: State, ev: Event, s': State, id: AlertId)
    requires Step(s, ev, s') && Accepts(ev, id)
    ensures Bound(s, id, IdentityOf(ev.e.alert)) && Bound(s', id, IdentityOf(ev.e.alert))
  {
    hide IdentityOf, IsValidated;
  }

  lemma StoredRawBinds(s: State, ev: Event, s': State, id: AlertId)
    requires Step(s, ev, s') && (id in s.rows ==> IsValidated(s.rows[id].envelope.alert))
    ensures id in s'.raws ==>
      || (id in s.raws && s'.raws[id] == s.raws[id])
      || (id in s.rows && IdentityOf(s'.raws[id]) == IdentityOf(s.rows[id].envelope.alert))
  {
    if id in s.rows { RawCopyKeepsIdentity(s.rows[id].envelope.alert); }
    hide IdentityOf, RowsStep;
  }

  /** A new row belongs to an accepted submission. */
  lemma AdmissionAccepts(s: State, ev: Event, s': State, id: AlertId)
    requires RowMoves(s, ev, s', id)
    ensures id !in s.rows && id in s'.rows ==> Accepts(ev, id)
    ensures id in s.rows && id in s'.rows ==> s'.rows[id].envelope == s.rows[id].envelope
  {
    hide Key;
  }

  lemma StepKeepsBound(s: State, ev: Event, s': State, id: AlertId, i: Identity)
    requires Step(s, ev, s') && Orderly(s) && Present(s, id) && Bound(s, id, i)
    ensures Bound(s', id, i)
  {
    StoredRawBinds(s, ev, s', id);
    if Accepts(ev, id) { AcceptedBinds(s, ev, s', id); }
    StepMoves(s, ev, s', id);
    AdmissionAccepts(s, ev, s', id);
    hide Step, IdentityOf, IsValidated, Accepts;
  }

  lemma BoundOnce(s: State, id: AlertId, i: Identity, j: Identity)
    requires Present(s, id) && Bound(s, id, i) && Bound(s, id, j)
    ensures i == j
  {
    hide IdentityOf;
  }

  lemma {:induction false} IdentityStays(s: State, run: seq<Stamp>, id: AlertId, i: Identity)
    requires Run(s, run) && Orderly(s) && Bound(s, id, i) && Present(s, id)
    requires forall k :: 0 <= k < |run| ==> Present(run[k].after, id)
    ensures forall k :: 0 <= k < |run| && Accepts(run[k].ev, id) ==> IdentityOf(run[k].ev.e.alert) == i
    ensures Bound(Final(s, run), id, i)
    decreases |run|
  {
    hide Step, IdentityOf, Present, Orderly, Bound;
    if run != [] {
      var ev, after := run[0].ev, run[0].after;
      StepKeepsBound(s, ev, after, id, i);
      StepKeepsOrder(s, ev, after);
      if Accepts(ev, id) {
        AcceptedBinds(s, ev, after, id);
        BoundOnce(s, id, i, IdentityOf(ev.e.alert));
      }
      var rest := run[1..];
      assert forall k :: 0 <= k < |rest| ==> rest[k] == run[k + 1];
      IdentityStays(after, rest, id, i);
      forall k | 0 <= k < |run| && Accepts(run[k].ev, id) ensures IdentityOf(run[k].ev.e.alert) == i {
        if k > 0 { assert rest[k - 1] == run[k]; }
      }
    }
  }

  /** Wherever a run has led: while an alert's inbox or raw row exists, every accepted
      submission under its identifier carries the identity that is on record. */
  lemma AcceptedShareIdentity(before: seq<Stamp>, run: seq<Stamp>, id: AlertId, i: Identity)
    requires Run(EMPTY, before) && Run(Final(EMPTY, before), run)
    requires Present(Final(EMPTY, before), id) && Bound(Final(EMPTY, before), id, i)
    requires forall k :: 0 <= k < |run| ==> Present(run[k].after, id)
    ensures forall k :: 0 <= k < |run| && Accepts(run[k].ev, id) ==> IdentityOf(run[k].ev.e.alert) == i
    ensures Bound(Final(Final(EMPTY, before), run), id, i)
  {
    hide *;
    ReachedIsOrderly(before);
    IdentityStays(Final(EMPTY, before), run, id, i);
  }

  lemma LaterAcceptedAgrees(s: State, run: seq<Stamp>, id: AlertId, j: nat)
    requires Run(s, run) && Orderly(s) && 0 < j < |run|
    requires forall k :: 0 <= k <= j ==> Present(run[k].after, id)
    requires Accepts(run[0].ev, id) && Accepts(run[j].ev, id)
    ensures IdentityOf(run[0].ev.e.alert) == IdentityOf(run[j].ev.e.alert)
  {
    hide Step, Orderly, IdentityOf, Present, Bound;
    AcceptedBinds(s, run[0].ev, run[0].after, id);
    StepKeepsOrder(s, run[0].ev, run[0].after);
    var rest := run[1..][..j];
    RunPrefix(run[0].after, run[1..], j);
    assert forall k :: 0 <= k < |rest| ==> rest[k] == run[k + 1];
    IdentityStays(run[0].after, rest, id, IdentityOf(run[0].ev.e.alert));
    assert rest[j - 1] == run[j];
  }

  lemma AcceptsSubmission(ev: Event, id: AlertId)
    requires Accepts(ev, id)
    ensures ev.Submit?
  {
  }

  lemma SuffixFacts(run: seq<Stamp>, id: AlertId, i: nat, j: nat)
    requires i < j < |run|
    requires forall k :: i <= k <= j ==> Present(run[k].after, id)
    ensures forall k :: 0 <= k <= j - i ==> Present(run[i..][k].after, id)
    ensures run[i..][0] == run[i] && run[i..][j - i] == run[j]
  {
    hide Present;
  }

  /** Two accepted submissions of one identifier, with the alert on record in
      between, are the same occurrence: their payloads differ in receipts at most. */
  lemma AcceptedOccurrencesAgree(run: seq<Stamp>, id: AlertId, i: nat, j: nat)
    requires Run(EMPTY, run) && i < j < |run|
    requires Accepts(run[i].ev, id) && Accepts(run[j].ev, id)
    requires forall k :: i <= k <= j ==> Present(run[k].after, id)
    ensures IdentityOf(run[i].ev.e.alert) == IdentityOf(run[j].ev.e.alert)
    ensures SameEvidence(run[i].ev.e.alert.payload, run[j].ev.e.alert.payload)
  {
    hide *;
    AcceptsSubmission(run[i].ev, id);
    AcceptsSubmission(run[j].ev, id);
    RunPrefix(EMPTY, run, i);
    ReachedIsOrderly(run[..i]);
    RunSuffix(EMPTY, run, i);
    SuffixFacts(run, id, i, j);
    LaterAcceptedAgrees(Final(EMPTY, run[..i]), run[i..], id, j - i);
    IdentityDecidesEvidence(run[i].ev.e.alert, run[j].ev.e.alert);
  }
}
