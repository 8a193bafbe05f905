/** The fixed-window request limiter of the HTTP server: one counter per key for
    the current minute, with old windows evicted when the table grows. */
module RateLimiter {
  const TABLE_LIMIT := 10000

  datatype Call = Call(key: string, minute: int)

  datatype Window = Window(minute: int, count: nat)

  type Windows = map<string, Window>

  /** Requests by `key` in `minute` according to the complete log. */
  function Count(log: seq<Call>, key: string, minute: int): nat
    decreases |log|
  {
    if log == [] then 0
    else Count(log[..|log| - 1], key, minute) + if log[|log| - 1] == Call(key, minute) then 1 else 0
  }

  /** The counter value the request is judged by. */
  function Counted(w: Windows, c: Call): nat {
    if c.key in w && w[c.key].minute == c.minute then w[c.key].count + 1 else 1
  }

  /** The table after one request, eviction included. */
  function Admitted(w: Windows, c: Call): Windows {
    var count := Counted(w, c);
    var grown := w[c.key := Window(c.minute, count)];
    if |grown| > TABLE_LIMIT then map k | k in grown && grown[k].minute == c.minute :: grown[k] else grown
  }

  function Run(w: Windows, calls: seq<Call>): Windows
    decreases |calls|
  {
    if calls == [] then w
    else Admitted(Run(w, calls[..|calls| - 1]), calls[|calls| - 1])
  }

  predicate Serialised(calls: seq<Call>) {
    forall i, j :: 0 <= i <= j < |calls| ==> calls[i].minute <= calls[j].minute
  }

  /** What the table still knows of `key` in `minute`. */
  function Seen(w: Windows, key: string, minute: int): nat {
    if key in w && w[key].minute == minute then w[key].count else 0
  }

  /** The request makes the table drop old windows. */
  predicate Evicts(w: Windows, c: Call) { |w.Keys + {c.key}| > 10_000 }

  /** A request of another minute forgets the window of `key` in `minute`: it is of the
      same key, or it makes the table drop old windows. */
  predicate Resets(w: Windows, c: Call, key: string, minute: int) {
    c.minute != minute && (c.key == key || Evicts(w, c))
  }

  /** Since the first request of `key` in `minute`, nothing forgot its window. */
  predicate Undisturbed(calls: seq<Call>, key: string, minute: int) {
    forall j :: 0 <= j < |calls| && Resets(Run(map[], calls[..j]), calls[j], key, minute) ==>
      Count(calls[..j], key, minute) == 0
  }

  lemma AdmittedSees(w: Windows, c: Call, key: string, minute: int)
    ensures Seen(Admitted(w, c), key, minute) ==
      if c == Call(key, minute) then Seen(w, key, minute) + 1
      else if Resets(w, c, key, minute) then 0
      else Seen(w, key, minute)
  {
    var grown := w[c.key := Window(c.minute, Counted(w, c))];
    assert grown.Keys == w.Keys + {c.key};
    assert |grown| == |grown.Keys|;
  }

  lemma UndisturbedGrows(before: seq<Call>, c: Call, key: string, minute: int)
    ensures Undisturbed(before + [c], key, minute) <==>
      Undisturbed(before, key, minute)
      && (Resets(Run(map[], before), c, key, minute) ==> Count(before, key, minute) == 0)
  {
    hide Run, Count, Resets;
    var calls := before + [c];
    assert calls[..|before|] == before;
    assert forall j :: 0 <= j < |before| ==> calls[j] == before[j] && calls[..j] == before[..j];
  }

  lemma NothingSeen(key: string, minute: int)
    ensures Seen(map[], key, minute) == 0 && Undisturbed([], key, minute)
  {
  }

  lemma NoResetBy(w: Windows, c: Call, key: string, minute: int)
    ensures Resets(w, c, key, minute) ==> c != Call(key, minute)
  {
  }

  /** The table never knows more requests than there were, and it knows all of them
      exactly when nothing forgot the window. */
  lemma {:induction false} SeenExactly(calls: seq<Call>, key: string, minute: int)
    ensures Seen(Run(map[], calls), key, minute) <= Count(calls, key, minute)
    ensures Seen(Run(map[], calls), key, minute) == Count(calls, key, minute) <==> Undisturbed(calls, key, minute)
    decreases |calls|
  {
    hide Seen, Admitted, Resets, Undisturbed;
    if calls == [] {
      NothingSeen(key, minute);
    } else {
      var before, c := calls[..|calls| - 1], calls[|calls| - 1];
      assert calls == before + [c];
      SeenExactly(before, key, minute);
      AdmittedSees(Run(map[], before), c, key, minute);
      UndisturbedGrows(before, c, key, minute);
      NoResetBy(Run(map[], before), c, key, minute);
    }
  }

  /** The number a request is judged by: never more than the requests of its key in its
      minute, this one included, and exactly as many if and only if nothing forgot the
      window since the first of them. */
  lemma AnswerIsExactIffUndisturbed(calls: seq<Call>, c: Call)
    ensures Counted(Run(map[], calls), c) <= Count(calls + [c], c.key, c.minute)
    ensures Counted(Run(map[], calls), c) == Count(calls + [c], c.key, c.minute) <==> Undisturbed(calls, c.key, c.minute)
  {
    SeenExactly(calls, c.key, c.minute);
    assert (calls + [c])[..|calls|] == calls;
    hide Undisturbed, Run;
  }

  lemma {:induction false} NothingLater(log: seq<Call>, key: string, minute: int)
    requires forall c :: c in log ==> c.minute < minute
    ensures Count(log, key, minute) == 0
    decreases |log|
  {
    if log != [] {
      assert log[|log| - 1] in log;
      NothingLater(log[..|log| - 1], key, minute);
    }
  }

  /** However often old windows are evicted, when the requests take the lock in the order
      they read the clock, every answer is exact. */
  lemma AnswersAreExact(calls: seq<Call>, i: nat)
    requires Serialised(calls) && i < |calls|
    ensures Counted(Run(map[], calls[..i]), calls[i]) == Count(calls[..i + 1], calls[i].key, calls[i].minute)
  {
    var before, c := calls[..i], calls[i];
    assert calls[..i + 1] == before + [c];
    AnswerIsExactIffUndisturbed(before, c);
    hide Run, Counted;
    forall j | 0 <= j < |before| && Resets(Run(map[], before[..j]), before[j], c.key, c.minute)
      ensures Count(before[..j], c.key, c.minute) == 0
    {
      NothingLater(before[..j], c.key, c.minute);
    }
  }

  /** The minute is read before the lock is taken: calls that take the lock in
      another order than they read the clock restart the window. */
  lemma LateCallRestartsTheWindow()
    ensures var calls := [Call("k", 6), Call("k", 5)];
      var last := Call("k", 6);
      Counted(Run(map[], calls), last) == 1 && Count(calls + [last], "k", 6) == 2
  {
    var first, late, last := Call("k", 6), Call("k", 5), Call("k", 6);
    var calls := [first, late];
    assert calls[..1] == [first] && [first][..0] == [];
    var w1 := map["k" := Window(6, 1)];
    assert Run(map[], []) == map[];
    assert |w1| == 1;
    assert Run(map[], [first]) == Admitted(map[], first) == w1;
    var w2 := w1["k" := Window(5, 1)];
    assert w2 == map["k" := Window(5, 1)] && |w2| == 1;
    assert Run(map[], calls) == Admitted(w1, late) == w2;
    assert (calls + [last])[..2] == calls;
    assert Count([], "k", 6) == 0;
    assert Count([first], "k", 6) == 1;
    assert Count(calls, "k", 6) == 1;
  }

  class Limiter {
    const requestsPerMinute: int
    var windows: Windows
    ghost var log: seq<Call>

    /** The table is what the logged requests, in the order they took the lock, make it. */
    ghost predicate Valid()
      reads this
    {
      windows == Run(map[], log)
    }

    constructor (requestsPerMinute: int)
      ensures Valid() && this.requestsPerMinute == requestsPerMinute && log == []
    {
      this.requestsPerMinute := requestsPerMinute;
      windows, log := map[], [];
    }

    /** `allow_api_request`; `minute` is the clock reading.  A refusal is always right, and
        the answer is exact unless the window was forgotten. */
    method Allow(key: string, minute: int) returns (ok: bool)
      requires Valid()
      modifies this
      ensures Valid() && log == old(log) + [Call(key, minute)]
      ensures !ok ==> Count(log, key, minute) > requestsPerMinute
      ensures Undisturbed(old(log), key, minute) ==> (ok <==> Count(log, key, minute) <= requestsPerMinute)
      ensures windows == Admitted(old(windows), Call(key, minute))
    {
      hide Count, Undisturbed;
      AnswerIsExactIffUndisturbed(log, Call(key, minute));
      log := log + [Call(key, minute)];
      assert log[..|log| - 1] == old(log);
      var window := if key in windows then windows[key] else Window(minute, 0);
      if window.minute != minute { window := Window(minute, 0); }
      window := Window(window.minute, window.count + 1);
      windows := windows[key := window];
      if |windows| > TABLE_LIMIT {
        windows := map k | k in windows && windows[k].minute == minute :: windows[k];
      }
      ok := window.count <= requestsPerMinute;
    }
  }
}
