/** Bounded overtaking: how many dispatcher claims an overdue, aged row can wait. */
module InboxFairness {
  import opened Common
  import opened InboxModel
  import opened InboxRuns
  import opened InboxBudget

  /** Rows that can be served before `x` on its own product's turn, `x` included. */
  function Ahead(rows: Rows, x: AlertId): set<AlertId>
    requires x in rows
  {
    set y | y in rows && Queued(rows[y]) && rows[y].product == rows[x].product && QueuedBefore(rows[y], rows[x])
  }

  /** Waiting, past its due time and old enough to outrank severity. */
  predicate Overdue(s: State, x: AlertId) {
    && x in s.rows && Queued(s.rows[x])
    && s.rows[x].availableAt < s.clock && Aged(s.rows[x], s.clock)
  }

  /** `x` waits for its turn in a state that intake keeps in order. */
  predicate FairState(s: State, x: AlertId) {
    Overdue(s, x) && Orderly(s)
  }

  /** Successful claims still to come before the product's turn. */
  function Turn(product: string, cursor: nat): nat
    requires product in DISPATCH_PRODUCTS
  {
    var k :| 0 <= k < 5 && DISPATCH_PRODUCTS[k] == product;
    (k + 5 - cursor % 5) % 5
  }

  lemma ProductsDiffer()
    ensures |DISPATCH_PRODUCTS| == 5
    ensures forall i, j :: 0 <= i < j < 5 ==> DISPATCH_PRODUCTS[i] != DISPATCH_PRODUCTS[j]
  {
    assert DISPATCH_PRODUCTS[0][0] == 'h' && DISPATCH_PRODUCTS[1][0] == 'n' && DISPATCH_PRODUCTS[2][0] == 'r'
        && DISPATCH_PRODUCTS[3][0] == 's' && DISPATCH_PRODUCTS[4][0] == 'w';
  }

  lemma TurnAdvances(product: string, cursor: nat)
    requires product in DISPATCH_PRODUCTS && cursor < 5
    ensures Turn(product, cursor) < 5
    ensures Turn(product, cursor) == 0 <==> Preferred(cursor) == product
    ensures Turn(product, (cursor + 1) % 5) == if Turn(product, cursor) == 0 then 4 else Turn(product, cursor) - 1
  {
    hide DISPATCH_PRODUCTS;
    ProductsDiffer();
    var k :| 0 <= k < 5 && DISPATCH_PRODUCTS[k] == product;
  }

  /** Upper bound on the dispatcher claims that can still pass `x`. */
  function Patience(s: State, x: AlertId): int
    requires x in s.rows && s.rows[x].product in DISPATCH_PRODUCTS
  {
    5 * (|Ahead(s.rows, x)| - 1) + Turn(s.rows[x].product, s.cursor)
  }

  function Dispatches(run: seq<Stamp>): nat {
    if run == [] then 0
    else (if run[0].ev.Dispatch? && run[0].ev.claimed.Some? then 1 else 0) + Dispatches(run[1..])
  }

  /** Rows re-enter the queue only at or after `now`. */
  lemma ReturnsAreLater(r: Row, r': Row, x: Row, now: int)
    requires Moves(r, r', now) && Queued(r') && QueuedBefore(r', x) && x.availableAt < now
    ensures Queued(r) && QueuedBefore(r, x) && r.product == r'.product
  {
  }

  lemma ArrivalsAreLater(s: State, ev: Event, s': State, y: AlertId)
    requires RowMoves(s, ev, s', y) && y !in s.rows && y in s'.rows
    ensures s'.rows[y].availableAt == s'.clock
  {
  }

  /** Nobody new gets ahead of an overdue row. */
  lemma NobodyNewAhead(s: State, ev: Event, s': State, x: AlertId, y: AlertId)
    requires RowMoves(s, ev, s', y) && x in s.rows && x in s'.rows && s'.rows[x] == s.rows[x]
    requires s.rows[x].availableAt < s'.clock
    ensures y in Ahead(s'.rows, x) ==> y in Ahead(s.rows, x)
  {
    hide Moves;
    if y in Ahead(s'.rows, x) {
      if y in s.rows {
        assert Moves(s.rows[y], s'.rows[y], s'.clock);
        ReturnsAreLater(s.rows[y], s'.rows[y], s.rows[x], s'.clock);
      } else {
        ArrivalsAreLater(s, ev, s', y);
      }
    }
  }

  lemma ClockAdvances(s: State, ev: Event, s': State)
    requires Step(s, ev, s')
    ensures s.clock <= s'.clock
    ensures s'.cursor == if ev.Dispatch? && ev.claimed.Some? then (s.cursor + 1) % 5 else s.cursor
  {
    hide RowsStep, RawsStep;
  }

  lemma UnclaimedStays(s: State, ev: Event, s': State, x: AlertId)
    requires Step(s, ev, s') && x in s.rows && Queued(s.rows[x]) && !IsClaimOf(s, ev, s'.clock, x)
    ensures x in s'.rows && s'.rows[x] == s.rows[x]
  {
    StepMoves(s, ev, s', x);
  }

  lemma StepKeepsAhead(s: State, ev: Event, s': State, x: AlertId)
    requires Step(s, ev, s') && Overdue(s, x) && !IsClaimOf(s, ev, s'.clock, x)
    ensures Overdue(s', x) && s'.rows[x] == s.rows[x]
    ensures Ahead(s'.rows, x) <= Ahead(s.rows, x)
  {
    hide Step, Ahead, IsClaimOf, RowMoves;
    UnclaimedStays(s, ev, s', x);
    ClockAdvances(s, ev, s');
    forall y | y in Ahead(s'.rows, x) ensures y in Ahead(s.rows, x) {
      StepMoves(s, ev, s', y);
      NobodyNewAhead(s, ev, s', x, y);
    }
  }

  lemma DispatchClaims(s: State, ev: Event, s': State)
    requires Step(s, ev, s') && ev.Dispatch? && ev.claimed.Some?
    ensures IsNextClaim(s.rows, ev.claimed.value, s'.clock, Preferred(s.cursor))
    ensures s'.rows == s.rows[ev.claimed.value := ClaimedRow(s.rows[ev.claimed.value], s'.clock)]
    ensures s.clock <= s'.clock
  {
    hide IsNextClaim, Preferred;
  }

  /** A claimed row ranks before every aged row of the preferred product. */
  lemma PreferredIsFirst(y: Row, x: Row, now: int)
    requires Aged(x, now) && 0 <= y.priority && ClaimLeq(y, x, now, x.product)
    ensures y.product == x.product && QueuedBefore(y, x)
  {
  }

  lemma PriorityIsNatural(id: AlertId, r: Row)
    requires IntakeRow(id, r)
    ensures 0 <= r.priority && r.product in DISPATCH_PRODUCTS
  {
    hide DISPATCH_PRODUCTS;
  }

  /** On its own product's turn, whoever is claimed instead of `x` was ahead of it. */
  lemma TurnServesAhead(s: State, ev: Event, s': State, x: AlertId)
    requires Step(s, ev, s') && FairState(s, x) && ev.Dispatch? && ev.claimed.Some? && ev.claimed.value != x
    requires Preferred(s.cursor) == s.rows[x].product
    ensures ev.claimed.value in Ahead(s.rows, x) && x in s'.rows && ev.claimed.value !in Ahead(s'.rows, x)
  {
    hide Step, Preferred, ClaimLeq, QueuedBefore, IntakeRow;
    DispatchClaims(s, ev, s');
    var y := ev.claimed.value;
    assert IntakeRow(y, s.rows[y]);
    PriorityIsNatural(y, s.rows[y]);
    PreferredIsFirst(s.rows[y], s.rows[x], s'.clock);
  }

  lemma FairIsDispatched(s: State, x: AlertId)
    requires FairState(s, x)
    ensures x in s.rows && s.rows[x].product in DISPATCH_PRODUCTS && s.cursor < 5
  {
    hide IntakeRow, DISPATCH_PRODUCTS;
    assert IntakeRow(x, s.rows[x]);
    PriorityIsNatural(x, s.rows[x]);
  }

  lemma NotTheClaimed(s: State, ev: Event, s': State, x: AlertId)
    requires ev.Dispatch? && ev.claimed.Some? && !IsClaimOf(s, ev, s'.clock, x)
    ensures ev.claimed.value != x
  {
  }

  lemma StepSpendsPatience(s: State, ev: Event, s': State, x: AlertId)
    requires Step(s, ev, s') && FairState(s, x) && !IsClaimOf(s, ev, s'.clock, x)
    ensures FairState(s', x)
    ensures Patience(s', x) + (if ev.Dispatch? && ev.claimed.Some? then 1 else 0) <= Patience(s, x)
  {
    hide Step, Ahead, Turn, Preferred, Orderly, Overdue, IsClaimOf, DISPATCH_PRODUCTS;
    FairIsDispatched(s, x);
    StepKeepsAhead(s, ev, s', x);
    StepKeepsOrder(s, ev, s');
    FairIsDispatched(s', x);
    ClockAdvances(s, ev, s');
    var was, now := Ahead(s.rows, x), Ahead(s'.rows, x);
    TurnAdvances(s.rows[x].product, s.cursor);
    SubsetSize(now, was);
    if ev.Dispatch? && ev.claimed.Some? && Preferred(s.cursor) == s.rows[x].product {
      NotTheClaimed(s, ev, s', x);
      TurnServesAhead(s, ev, s', x);
      SubsetSize(now, was - {ev.claimed.value});
    }
  }

  lemma PatienceIsNatural(s: State, x: AlertId)
    requires FairState(s, x)
    ensures 0 <= Patience(s, x) < 5 * |Ahead(s.rows, x)|
  {
    assert x in Ahead(s.rows, x);
    TurnAdvances(s.rows[x].product, s.cursor);
    SubsetSize({x}, Ahead(s.rows, x));
  }

  lemma {:induction false} UnclaimedRunIsShort(s: State, run: seq<Stamp>, x: AlertId)
    requires Run(s, run) && FairState(s, x) && Claims(s, run, x) == 0
    ensures Dispatches(run) <= Patience(s, x)
    decreases |run|
  {
    hide Step, Patience, FairState, IsClaimOf;
    if run == [] {
      PatienceIsNatural(s, x);
    } else {
      StepSpendsPatience(s, run[0].ev, run[0].after, x);
      UnclaimedRunIsShort(run[0].after, run[1..], x);
    }
  }

  lemma WaitingRowIsServed(s: State, run: seq<Stamp>, x: AlertId)
    requires Run(s, run) && FairState(s, x)
    requires Dispatches(run) >= 5 * |Ahead(s.rows, x)|
    ensures Claims(s, run, x) >= 1
  {
    hide Step;
    PatienceIsNatural(s, x);
    if Claims(s, run, x) == 0 { UnclaimedRunIsShort(s, run, x); }
  }

  /** Wherever a run of the gateway has led, an overdue row at least 300 seconds old is
      claimed within five dispatcher claims per same-product row at or ahead of it,
      whatever arrives, fails, is released or recovered in between. */
  lemma BoundedOvertaking(before: seq<Stamp>, run: seq<Stamp>, x: AlertId)
    requires Run(EMPTY, before) && Run(Final(EMPTY, before), run) && Overdue(Final(EMPTY, before), x)
    requires Dispatches(run) >= 5 * |Ahead(Final(EMPTY, before).rows, x)|
    ensures Claims(Final(EMPTY, before), run, x) >= 1
  {
    hide Step, Run, Final, Orderly, Ahead, Claims, Dispatches;
    ReachedIsOrderly(before);
    WaitingRowIsServed(Final(EMPTY, before), run, x);
  }
}
