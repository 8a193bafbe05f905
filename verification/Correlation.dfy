/** Case-driven correlation over stored alerts: a scan bounded by rows and bytes, its
    pages, and the single-alert lookup that must agree with it. */
module Correlation {
  import opened AlertIdentity
  import opened Common
  import opened JsonValue
  import opened Sorting

  // ---- indicators and scores ---------------------------------------------

  datatype Field = TraceId | RequestId | Host | SrcIp | DstIp | User | App | Process | Rule | Url

  /** The order in which shared indicators are listed. */
  const FIELDS := [SrcIp, DstIp, TraceId, RequestId, Host, User, App, Process, Rule, Url]
  const VALUES_PER_FIELD := 4
  const MIN_SCORE := 5

  function Weight(f: Field): nat {
    match f
    case TraceId => 8
    case RequestId => 8
    case SrcIp => 5
    case DstIp => 5
    case Host => 5
    case User => 4
    case App => 3
    case Process => 3
    case Rule => 2
    case Url => 2
  }

  type Indicators = map<Field, set<string>>

  function Values(i: Indicators, f: Field): set<string> { if f in i then i[f] else {} }

  /** A stored raw alert with its latest normalised event (`eventAt` 0 without one);
      `indicators` is what the collector finds in its payload and entities. */
  datatype Alert = Alert(
    product: string,
    createdAt: int,
    eventAt: int,
    timestamp: string,
    payloadBytes: nat,
    indicators: Indicators)

  type Alerts = map<string, Alert>

  /** What a case contributes: its linked alerts, their indicators and time spans. */
  datatype Scope = Scope(
    linked: set<string>,
    anchors: Indicators,
    eventMin: int, eventMax: int,
    createdMin: int, createdMax: int)

  datatype Match = Match(field: Field, value: string)

  function Shared(scope: Scope, a: Alert, f: Field): set<string> {
    Values(scope.anchors, f) * Values(a.indicators, f)
  }

  function FieldMatches(f: Field, values: seq<string>): (r: seq<Match>)
    ensures |r| == |values|
  {
    if values == [] then [] else [Match(f, values[0])] + FieldMatches(f, values[1..])
  }

  function Matched(scope: Scope, a: Alert, fields: seq<Field>): seq<Match> {
    if fields == [] then []
    else FieldMatches(fields[0], First(SortedKeys(Shared(scope, a, fields[0])), VALUES_PER_FIELD))
         + Matched(scope, a, fields[1..])
  }

  function TotalWeight(matched: seq<Match>): nat {
    if matched == [] then 0 else Weight(matched[0].field) + TotalWeight(matched[1..])
  }

  /** `_response_agent_match_candidate`: the score counts every match. */
  function Score(scope: Scope, a: Alert): nat { TotalWeight(Matched(scope, a, FIELDS)) }

  /** At most four shared values count per field. */
  function FieldScores(scope: Scope, a: Alert, fields: seq<Field>): nat {
    if fields == [] then 0
    else Weight(fields[0]) * Min(|Shared(scope, a, fields[0])|, VALUES_PER_FIELD) + FieldScores(scope, a, fields[1..])
  }

  lemma {:induction false} WeightConcat(a: seq<Match>, b: seq<Match>)
    ensures TotalWeight(a + b) == TotalWeight(a) + TotalWeight(b)
    decreases |a|
  {
    if a == [] {
      assert a + b == b;
    } else {
      assert (a + b)[1..] == a[1..] + b;
      WeightConcat(a[1..], b);
    }
  }

  lemma {:induction false} FieldWeight(f: Field, values: seq<string>)
    ensures TotalWeight(FieldMatches(f, values)) == Weight(f) * |values|
  {
    if values != [] {
      FieldWeight(f, values[1..]);
      assert FieldMatches(f, values)[1..] == FieldMatches(f, values[1..]);
      assert Weight(f) * |values| == Weight(f) + Weight(f) * (|values| - 1);
    }
  }

  lemma NoWeight()
    ensures TotalWeight([]) == 0
  {
  }

  lemma ShownCount(values: set<string>)
    ensures |First(SortedKeys(values), VALUES_PER_FIELD)| == Min(|values|, VALUES_PER_FIELD)
  {
  }

  /** The score is the sum of field weights times shared values, four at most each. */
  lemma {:induction false} ScoreIsWeighted(scope: Scope, a: Alert, fields: seq<Field>)
    ensures TotalWeight(Matched(scope, a, fields)) == FieldScores(scope, a, fields)
    decreases |fields|
  {
    hide TotalWeight, Weight, Shared, FieldMatches, First, Min;
    if fields == [] {
      NoWeight();
    } else {
      ScoreIsWeighted(scope, a, fields[1..]);
      var shared := Shared(scope, a, fields[0]);
      var values := First(SortedKeys(shared), VALUES_PER_FIELD);
      ShownCount(shared);
      FieldWeight(fields[0], values);
      WeightConcat(FieldMatches(fields[0], values), Matched(scope, a, fields[1..]));
    }
  }

  // ---- the candidates ----------------------------------------------------

  function Clamp(low: int, x: int, high: int): int { Max(low, Min(x, high)) }

  function BoundWindow(window: int): int { Clamp(60000, window, 7 * 24 * 60 * 60 * 1000) }

  function BoundScan(limit: int): nat { Clamp(100, limit, 10000) }

  function BoundBytes(bytes: int): nat { Clamp(1000000, bytes, 512000000) }

  function EventTime(a: Alert): int { if a.eventAt != 0 then a.eventAt else a.createdAt }

  predicate InWindow(scope: Scope, window: int, a: Alert) {
    || scope.eventMin - window <= EventTime(a) <= scope.eventMax + window
    || scope.createdMin - window <= a.createdAt <= scope.createdMax + window
  }

  predicate Selected(products: set<string>, a: Alert) { products == {} || Lower(a.product) in products }

  function Filtered(db: Alerts, scope: Scope, window: int, products: set<string>, ids: seq<string>): seq<string>
    requires forall id :: id in ids ==> id in db
  {
    if ids == [] then []
    else (if InWindow(scope, window, db[ids[0]]) && Selected(products, db[ids[0]]) then [ids[0]] else [])
         + Filtered(db, scope, window, products, ids[1..])
  }

  function RowKey(db: Alerts, id: string): SortKey {
    if id in db then SortKey(EventTime(db[id]), db[id].createdAt, 0, id, "") else SortKey(0, 0, 0, id, "")
  }

  /** The candidate SELECT without its LIMIT. */
  function CandidateRows(db: Alerts, scope: Scope, window: int, products: set<string>): seq<string> {
    SortBy(id => RowKey(db, id), Filtered(db, scope, window, products, SortedKeys(db.Keys)))
  }

  lemma {:induction false} FilteredMembers(db: Alerts, scope: Scope, window: int, products: set<string>, ids: seq<string>)
    requires forall id :: id in ids ==> id in db
    ensures forall id :: id in Filtered(db, scope, window, products, ids) <==>
              id in ids && InWindow(scope, window, db[id]) && Selected(products, db[id])
    ensures Distinct(ids) ==> Distinct(Filtered(db, scope, window, products, ids))
    decreases |ids|
  {
    hide InWindow, Selected;
    if ids != [] {
      FilteredMembers(db, scope, window, products, ids[1..]);
      assert ids == [ids[0]] + ids[1..];
      var rest := Filtered(db, scope, window, products, ids[1..]);
      if Distinct(ids) {
        forall i, j | 0 <= i < j < |ids[1..]|
          ensures ids[1..][i] != ids[1..][j]
        {
          assert ids[i + 1] != ids[j + 1];
        }
        forall j | 0 <= j < |rest|
          ensures rest[j] != ids[0]
        {
          assert rest[j] in rest && rest[j] in ids[1..];
        }
      }
    }
  }

  /** The candidates are the alerts in the window, each once. */
  lemma CandidatesAre(db: Alerts, scope: Scope, window: int, products: set<string>)
    ensures Distinct(CandidateRows(db, scope, window, products))
    ensures forall id :: id in CandidateRows(db, scope, window, products) <==>
              id in db && InWindow(scope, window, db[id]) && Selected(products, db[id])
  {
    hide InWindow, Selected, Filtered, SortBy;
    var ids := SortedKeys(db.Keys);
    var chosen := Filtered(db, scope, window, products, ids);
    FilteredMembers(db, scope, window, products, ids);
    assert Distinct(ids);
    SortMembers(id => RowKey(db, id), chosen);
    SortSorts(id => RowKey(db, id), chosen);
    hide Distinct;
    DistinctBySize(chosen);
    DistinctBySize(CandidateRows(db, scope, window, products));
  }

  // ---- the bounded scan --------------------------------------------------

  datatype Hit = Hit(id: string, score: nat, delta: nat, timestamp: string)

  function Abs(x: int): nat { if x < 0 then -x else x }

  function HitOf(scope: Scope, id: string, a: Alert): Hit {
    Hit(id, Score(scope, a),
        Min(Abs(EventTime(a) - scope.eventMin), Abs(EventTime(a) - scope.eventMax)), a.timestamp)
  }

  function HitKey(h: Hit): SortKey { SortKey(-(h.score as int), h.delta, 0, h.timestamp, h.id) }

  /** The unlinked alerts that score enough, in scan order. */
  function Hits(db: Alerts, scope: Scope, ids: seq<string>): seq<Hit>
    requires forall id :: id in ids ==> id in db
  {
    if ids == [] then []
    else (if ids[0] !in scope.linked && Score(scope, db[ids[0]]) >= MIN_SCORE then [HitOf(scope, ids[0], db[ids[0]])] else [])
         + Hits(db, scope, ids[1..])
  }

  /** How many rows are read before one does not fit the byte budget. */
  function Fits(db: Alerts, scope: Scope, ids: seq<string>, budget: int): (n: nat)
    requires forall id :: id in ids ==> id in db
    ensures n <= |ids|
    decreases |ids|
  {
    if ids == [] then 0
    else if ids[0] in scope.linked then 1 + Fits(db, scope, ids[1..], budget)
    else if db[ids[0]].payloadBytes > budget then 0
    else 1 + Fits(db, scope, ids[1..], budget - db[ids[0]].payloadBytes)
  }

  /** Rows and bytes of unlinked candidates. */
  function RowsRead(scope: Scope, ids: seq<string>): nat {
    if ids == [] then 0 else (if ids[0] in scope.linked then 0 else 1) + RowsRead(scope, ids[1..])
  }

  function BytesRead(db: Alerts, scope: Scope, ids: seq<string>): nat
    requires forall id :: id in ids ==> id in db
  {
    if ids == [] then 0
    else (if ids[0] in scope.linked then 0 else db[ids[0]].payloadBytes) + BytesRead(db, scope, ids[1..])
  }

  datatype Page = Page(
    items: seq<Hit>,
    total: nat,
    nextOffset: Option<nat>,
    scanned: nat,
    scannedBytes: nat,
    rowLimitHit: bool,
    byteLimitHit: bool)

  /** What the caller asks; `products` is the normalised product filter. */
  datatype Query = Query(window: int, products: set<string>, scanLimit: int, scanBytes: int)

  /** The rows the scan may look at, and how many of them it reads. */
  function Head(db: Alerts, scope: Scope, q: Query): (r: seq<string>)
    ensures forall id :: id in r ==> id in db
  {
    CandidatesAre(db, scope, BoundWindow(q.window), q.products);
    First(CandidateRows(db, scope, BoundWindow(q.window), q.products), BoundScan(q.scanLimit))
  }

  function Read(db: Alerts, scope: Scope, q: Query): (n: nat)
    ensures n <= |Head(db, scope, q)|
  {
    Fits(db, scope, Head(db, scope, q), BoundBytes(q.scanBytes))
  }

  /** Every match of the scan, best first. */
  function Matches(db: Alerts, scope: Scope, q: Query): seq<Hit> {
    SortBy(HitKey, Hits(db, scope, Head(db, scope, q)[..Read(db, scope, q)]))
  }

  function PageLimit(limit: int): nat { Clamp(1, limit, 100) }

  function Slice(hits: seq<Hit>, limit: nat, offset: nat): seq<Hit> {
    First(if offset >= |hits| then [] else hits[offset..], limit)
  }

  function NextOffset(hits: seq<Hit>, limit: nat, offset: nat): Option<nat> {
    var next := offset + |Slice(hits, limit, offset)|;
    if next < |hits| then Some(next) else None
  }

  lemma {:induction false} ReadConcat(db: Alerts, scope: Scope, a: seq<string>, b: seq<string>)
    requires forall id :: id in a || id in b ==> id in db
    ensures Hits(db, scope, a + b) == Hits(db, scope, a) + Hits(db, scope, b)
    ensures RowsRead(scope, a + b) == RowsRead(scope, a) + RowsRead(scope, b)
    ensures BytesRead(db, scope, a + b) == BytesRead(db, scope, a) + BytesRead(db, scope, b)
    decreases |a|
  {
    hide Score, HitOf;
    if a == [] {
      assert a + b == b;
    } else {
      assert (a + b)[1..] == a[1..] + b && (a + b)[0] == a[0];
      ReadConcat(db, scope, a[1..], b);
      var first := if a[0] !in scope.linked && Score(scope, db[a[0]]) >= MIN_SCORE then [HitOf(scope, a[0], db[a[0]])] else [];
      ConcatAssociative(first, Hits(db, scope, a[1..]), Hits(db, scope, b));
    }
  }

  lemma ReadOne(db: Alerts, scope: Scope, ids: seq<string>, i: nat)
    requires i < |ids| && forall id :: id in ids ==> id in db
    ensures Hits(db, scope, ids[..i + 1]) == Hits(db, scope, ids[..i]) + Hits(db, scope, [ids[i]])
    ensures RowsRead(scope, ids[..i + 1]) == RowsRead(scope, ids[..i]) + RowsRead(scope, [ids[i]])
    ensures BytesRead(db, scope, ids[..i + 1]) == BytesRead(db, scope, ids[..i]) + BytesRead(db, scope, [ids[i]])
  {
    assert ids[..i + 1] == ids[..i] + [ids[i]];
    ReadConcat(db, scope, ids[..i], [ids[i]]);
  }

  lemma FitsLinked(db: Alerts, scope: Scope, ids: seq<string>, budget: int)
    requires ids != [] && forall id :: id in ids ==> id in db
    ensures Fits(db, scope, ids, budget)
         == if ids[0] in scope.linked then 1 + Fits(db, scope, ids[1..], budget)
            else if db[ids[0]].payloadBytes > budget then 0
            else 1 + Fits(db, scope, ids[1..], budget - db[ids[0]].payloadBytes)
  {
  }

  lemma ReadSingle(db: Alerts, scope: Scope, id: string)
    requires id in db
    ensures Hits(db, scope, [id])
         == if id !in scope.linked && Score(scope, db[id]) >= MIN_SCORE then [HitOf(scope, id, db[id])] else []
    ensures RowsRead(scope, [id]) == if id in scope.linked then 0 else 1
    ensures BytesRead(db, scope, [id]) == if id in scope.linked then 0 else db[id].payloadBytes
  {
    assert [id][1..] == [];
    assert Hits(db, scope, []) == [] && RowsRead(scope, []) == 0 && BytesRead(db, scope, []) == 0;
    hide Score, HitOf;
  }

  /** One row of the scan leaves the loop's bookkeeping exact. */
  lemma ScanRow(db: Alerts, scope: Scope, head: seq<string>, i: nat, budget: int)
    requires i < |head| && forall id :: id in head ==> id in db
    requires Fits(db, scope, head, budget) == i + Fits(db, scope, head[i..], budget - BytesRead(db, scope, head[..i]))
    ensures head[i] in db
    ensures var id := head[i];
      var bytes := BytesRead(db, scope, head[..i]);
      if id !in scope.linked && bytes + db[id].payloadBytes > budget then
        Fits(db, scope, head, budget) == i
      else
        Fits(db, scope, head, budget)
          == i + 1 + Fits(db, scope, head[i + 1..], budget - BytesRead(db, scope, head[..i + 1]))
  {
    hide Fits, BytesRead, Hits, RowsRead, Score, HitOf;
    var rest := head[i..];
    assert rest[0] == head[i] && rest[1..] == head[i + 1..];
    FitsLinked(db, scope, rest, budget - BytesRead(db, scope, head[..i]));
    ReadOne(db, scope, head, i);
    ReadSingle(db, scope, head[i]);
  }

  /** The bookkeeping after the first `k` rows. */
  ghost predicate HasRead(db: Alerts, scope: Scope, head: seq<string>, k: nat, found: seq<Hit>,
                          scanned: set<string>, bytes: nat)
    requires forall id :: id in head ==> id in db
  {
    && k <= |head|
    && found == Hits(db, scope, head[..k])
    && (forall id :: id in scanned ==> id in head[..k])
    && |scanned| == RowsRead(scope, head[..k])
    && bytes == BytesRead(db, scope, head[..k])
  }

  /** Nothing has stopped the scan before row `k`. */
  ghost predicate Running(db: Alerts, scope: Scope, head: seq<string>, k: nat, bytes: nat, budget: nat)
    requires forall id :: id in head ==> id in db
  {
    k <= |head| && bytes <= budget && Fits(db, scope, head, budget) == k + Fits(db, scope, head[k..], budget - bytes)
  }

  lemma ScanStarts(db: Alerts, scope: Scope, head: seq<string>, budget: nat)
    requires forall id :: id in head ==> id in db
    ensures HasRead(db, scope, head, 0, [], {}, 0) && Running(db, scope, head, 0, 0, budget)
  {
    assert head[..0] == [] && head[0..] == head;
  }

  lemma BytesSoFar(db: Alerts, scope: Scope, head: seq<string>, k: nat, found: seq<Hit>, scanned: set<string>, bytes: nat)
    requires forall id :: id in head ==> id in db
    requires k < |head| && HasRead(db, scope, head, k, found, scanned, bytes)
    ensures bytes == BytesRead(db, scope, head[..k]) && head[k] in head
    ensures BytesRead(db, scope, head[..k + 1])
         == bytes + if head[k] in scope.linked then 0 else db[head[k]].payloadBytes
  {
    hide RowsRead, Hits, BytesRead;
    ReadOne(db, scope, head, k);
    ReadSingle(db, scope, head[k]);
  }

  /** A row is not among the rows read before it. */
  lemma NewRow(head: seq<string>, i: nat, before: set<string>)
    requires Distinct(head) && i < |head|
    requires forall id :: id in before ==> id in head[..i]
    ensures head[i] !in before
  {
  }

  lemma RowIsRead(db: Alerts, scope: Scope, head: seq<string>, k: nat, found: seq<Hit>, scanned: set<string>, bytes: nat)
    requires Distinct(head) && forall id :: id in head ==> id in db
    requires k < |head| && HasRead(db, scope, head, k, found, scanned, bytes)
    ensures head[k] in head && head[k] !in scanned
    ensures var id := head[k];
      if id in scope.linked then HasRead(db, scope, head, k + 1, found, scanned, bytes)
      else HasRead(db, scope, head, k + 1,
                   if Score(scope, db[id]) >= MIN_SCORE then found + [HitOf(scope, id, db[id])] else found,
                   scanned + {id}, bytes + db[id].payloadBytes)
  {
    hide Score, HitOf, BytesRead, RowsRead, Hits;
    NewRow(head, k, scanned);
    ReadOne(db, scope, head, k);
    ReadSingle(db, scope, head[k]);
    assert head[..k + 1] == head[..k] + [head[k]];
    assert found + [] == found;
  }

  lemma NextRow(db: Alerts, scope: Scope, head: seq<string>, k: nat, found: seq<Hit>, scanned: set<string>,
                bytes: nat, budget: nat)
    requires Distinct(head) && forall id :: id in head ==> id in db
    requires k < |head| && HasRead(db, scope, head, k, found, scanned, bytes)
    requires Running(db, scope, head, k, bytes, budget)
    ensures head[k] in head && head[k] !in scanned
    ensures var id := head[k];
      if id in scope.linked then
        HasRead(db, scope, head, k + 1, found, scanned, bytes) && Running(db, scope, head, k + 1, bytes, budget)
      else if bytes + db[id].payloadBytes > budget then
        Fits(db, scope, head, budget) == k
      else
        && HasRead(db, scope, head, k + 1,
                   if Score(scope, db[id]) >= MIN_SCORE then found + [HitOf(scope, id, db[id])] else found,
                   scanned + {id}, bytes + db[id].payloadBytes)
        && Running(db, scope, head, k + 1, bytes + db[id].payloadBytes, budget)
  {
    hide Score, HitOf, Fits, HasRead, BytesRead;
    BytesSoFar(db, scope, head, k, found, scanned, bytes);
    ScanRow(db, scope, head, k, budget);
    RowIsRead(db, scope, head, k, found, scanned, bytes);
  }

  lemma ScanEnds(db: Alerts, scope: Scope, head: seq<string>, found: seq<Hit>, scanned: set<string>,
                 bytes: nat, budget: nat)
    requires forall id :: id in head ==> id in db
    requires Running(db, scope, head, |head|, bytes, budget)
    ensures Fits(db, scope, head, budget) == |head|
  {
    assert head[|head|..] == [];
  }

  lemma {:induction false} RowsBound(scope: Scope, ids: seq<string>)
    ensures RowsRead(scope, ids) <= |ids|
  {
    if ids != [] { RowsBound(scope, ids[1..]); }
  }

  lemma ScannedBound(db: Alerts, scope: Scope, head: seq<string>, k: nat, found: seq<Hit>, scanned: set<string>, bytes: nat)
    requires forall id :: id in head ==> id in db
    requires HasRead(db, scope, head, k, found, scanned, bytes)
    ensures |scanned| <= |head|
  {
    RowsBound(scope, head[..k]);
  }

  /** The scan loop over the candidate rows, one sentinel row past the limit. */
  method Scan(db: Alerts, scope: Scope, rows: seq<string>, scanLimit: nat, budget: nat)
    returns (found: seq<Hit>, scanned: set<string>, scannedBytes: nat, rowHit: bool, byteHit: bool)
    requires Distinct(rows) && forall id :: id in rows ==> id in db
    ensures forall id :: id in First(rows, scanLimit) ==> id in db
    ensures var head := First(rows, scanLimit);
      var n := Fits(db, scope, head, budget);
      && HasRead(db, scope, head, n, found, scanned, scannedBytes)
      && |scanned| <= scanLimit && scannedBytes <= budget && (byteHit <==> n < |head|)
    ensures rowHit <==> |rows| > scanLimit
  {
    hide Score, HitOf, Fits, HasRead, Running;
    var limited := First(rows, scanLimit + 1);
    ghost var head := First(rows, scanLimit);
    assert forall j :: 0 <= j < |head| ==> head[j] == limited[j] == rows[j];
    found := [];
    var seen: set<string> := {};
    scanned := {};
    scannedBytes, rowHit, byteHit := 0, false, false;
    var i := 0;
    ghost var k := 0;
    ScanStarts(db, scope, head, budget);
    while i < |limited|
      invariant i <= |head| && k <= i && seen <= scanned
      invariant HasRead(db, scope, head, k, found, scanned, scannedBytes) && scannedBytes <= budget
      invariant if byteHit then Fits(db, scope, head, budget) == k < |head|
                else k == i && Running(db, scope, head, k, scannedBytes, budget)
      decreases |limited| - i
    {
      if i >= scanLimit {
        rowHit := true;
        break;
      }
      if byteHit {
        i := i + 1;
        continue;
      }
      var id := limited[i];
      NextRow(db, scope, head, i, found, scanned, scannedBytes, budget);
      i := i + 1;
      if id in seen || id in scope.linked {
        k := i;
        continue;
      }
      if id !in scanned && scannedBytes + db[id].payloadBytes > budget {
        byteHit := true;
        continue;
      }
      if id !in scanned {
        scanned := scanned + {id};
        scannedBytes := scannedBytes + db[id].payloadBytes;
      }
      k := i;
      if Score(scope, db[id]) < MIN_SCORE { continue; }
      seen := seen + {id};
      found := found + [HitOf(scope, id, db[id])];
    }
    if !byteHit { ScanEnds(db, scope, head, found, scanned, scannedBytes, budget); }
    ScannedBound(db, scope, head, k, found, scanned, scannedBytes);
  }

  /** `query_response_agent_related_alerts` for a case that exists. */
  method QueryRelated(db: Alerts, scope: Scope, q: Query, limit: int, offset: int) returns (page: Page)
    ensures var matches := Matches(db, scope, q);
      && page.total == |matches|
      && page.items == Slice(matches, PageLimit(limit), Max(0, offset))
      && page.nextOffset == NextOffset(matches, PageLimit(limit), Max(0, offset))
    ensures page.scanned == RowsRead(scope, Head(db, scope, q)[..Read(db, scope, q)]) <= BoundScan(q.scanLimit)
    ensures page.scannedBytes == BytesRead(db, scope, Head(db, scope, q)[..Read(db, scope, q)])
                              <= BoundBytes(q.scanBytes)
    ensures page.rowLimitHit
       <==> |CandidateRows(db, scope, BoundWindow(q.window), q.products)| > BoundScan(q.scanLimit)
    ensures page.byteLimitHit <==> Read(db, scope, q) < |Head(db, scope, q)|
  {
    hide CandidateRows, InWindow, Selected, Fits, BytesRead, RowsRead, Hits, SortBy, Slice, NextOffset;
    CandidatesAre(db, scope, BoundWindow(q.window), q.products);
    var rows := CandidateRows(db, scope, BoundWindow(q.window), q.products);
    var found, scanned, scannedBytes, rowHit, byteHit := Scan(db, scope, rows, BoundScan(q.scanLimit), BoundBytes(q.scanBytes));
    var matches := SortBy(HitKey, found);
    var start: nat := Max(0, offset);
    page := Page(Slice(matches, PageLimit(limit), start), |matches|, NextOffset(matches, PageLimit(limit), start),
                 |scanned|, scannedBytes, rowHit, byteHit);
  }

  // ---- pages -------------------------------------------------------------

  /** The pages a caller gets by following `next_offset`, put together. */
  function AllPages(hits: seq<Hit>, limit: nat, offset: nat): seq<Hit>
    requires limit > 0
    decreases if offset < |hits| then |hits| - offset else 0
  {
    match NextOffset(hits, limit, offset)
    case None => Slice(hits, limit, offset)
    case Some(next) => Slice(hits, limit, offset) + AllPages(hits, limit, next)
  }

  lemma {:induction false} PagesAreComplete(hits: seq<Hit>, limit: nat, offset: nat)
    requires limit > 0 && offset <= |hits|
    ensures AllPages(hits, limit, offset) == hits[offset..]
    decreases |hits| - offset
  {
    if NextOffset(hits, limit, offset).Some? {
      PagesAreComplete(hits, limit, offset + limit);
      assert hits[offset..] == hits[offset..][..limit] + hits[offset + limit..];
    }
  }

  // ---- the comprehension -------------------------------------------------

  /** What the case is related to: an unlinked alert in the window that scores enough. */
  predicate IsRelated(db: Alerts, scope: Scope, window: int, id: string) {
    && id in db && id !in scope.linked
    && InWindow(scope, BoundWindow(window), db[id]) && Score(scope, db[id]) >= 5
  }

  lemma {:induction false} HitMembers(db: Alerts, scope: Scope, ids: seq<string>)
    requires forall id :: id in ids ==> id in db
    ensures forall h :: h in Hits(db, scope, ids) <==>
              h.id in ids && h.id !in scope.linked && Score(scope, db[h.id]) >= MIN_SCORE && h == HitOf(scope, h.id, db[h.id])
    ensures Distinct(ids) ==> forall i, j :: 0 <= i < j < |Hits(db, scope, ids)| ==>
              Hits(db, scope, ids)[i].id != Hits(db, scope, ids)[j].id
    decreases |ids|
  {
    hide Score;
    if ids != [] {
      assert ids == [ids[0]] + ids[1..];
      HitMembers(db, scope, ids[1..]);
      var rest := Hits(db, scope, ids[1..]);
      if Distinct(ids) {
        forall i, j | 0 <= i < j < |ids[1..]|
          ensures ids[1..][i] != ids[1..][j]
        {
          assert ids[i + 1] != ids[j + 1];
        }
        forall j | 0 <= j < |rest|
          ensures rest[j].id != ids[0]
        {
          assert rest[j] in rest && rest[j].id in ids[1..];
        }
      }
    }
  }

  /** A scan never reports an alert that is not related. */
  lemma MatchesAreRelated(db: Alerts, scope: Scope, q: Query)
    ensures forall h :: h in Matches(db, scope, q) ==> IsRelated(db, scope, q.window, h.id) && h == HitOf(scope, h.id, db[h.id])
    ensures Sorted(HitKey, Matches(db, scope, q))
  {
    hide Score, HitOf, InWindow, Selected, SortBy, Hits, Sorted, CandidateRows, Fits;
    CandidatesAre(db, scope, BoundWindow(q.window), q.products);
    var read := Head(db, scope, q)[..Read(db, scope, q)];
    HitMembers(db, scope, read);
    SortMembers(HitKey, Hits(db, scope, read));
    SortSorts(HitKey, Hits(db, scope, read));
    var rows := CandidateRows(db, scope, BoundWindow(q.window), q.products);
    assert forall id :: id in read ==> id in rows;
  }

  lemma MatchesAreDistinct(db: Alerts, scope: Scope, q: Query)
    ensures Distinct(Matches(db, scope, q))
  {
    hide Score, InWindow, Selected, SortBy, Hits, Sorted, CandidateRows, Fits;
    CandidatesAre(db, scope, BoundWindow(q.window), q.products);
    var rows := CandidateRows(db, scope, BoundWindow(q.window), q.products);
    var read := Head(db, scope, q)[..Read(db, scope, q)];
    assert read <= rows;
    HitMembers(db, scope, read);
    SortSorts(HitKey, Hits(db, scope, read));
    DistinctBySize(Hits(db, scope, read));
    DistinctBySize(Matches(db, scope, q));
  }

  /** An untruncated scan without a product filter is the comprehension: it lists
      every related alert, each once, best first. */
  lemma CompleteScanIsExact(db: Alerts, scope: Scope, q: Query)
    requires q.products == {}
    requires |CandidateRows(db, scope, BoundWindow(q.window), q.products)| <= BoundScan(q.scanLimit)
    requires Read(db, scope, q) == |Head(db, scope, q)|
    ensures forall id: string :: IsRelated(db, scope, q.window, id) ==> HitOf(scope, id, db[id]) in Matches(db, scope, q)
    ensures forall h :: h in Matches(db, scope, q) ==> IsRelated(db, scope, q.window, h.id) && h == HitOf(scope, h.id, db[h.id])
    ensures Distinct(Matches(db, scope, q))
    ensures Sorted(HitKey, Matches(db, scope, q))
  {
    MatchesAreRelated(db, scope, q);
    MatchesAreDistinct(db, scope, q);
    hide Score, InWindow, SortBy, Hits, Sorted, CandidateRows, Fits;
    CandidatesAre(db, scope, BoundWindow(q.window), q.products);
    var rows := CandidateRows(db, scope, BoundWindow(q.window), q.products);
    var head := Head(db, scope, q);
    assert head == rows && head[..|head|] == head;
    HitMembers(db, scope, rows);
    SortMembers(HitKey, Hits(db, scope, rows));
    forall id: string | IsRelated(db, scope, q.window, id)
      ensures HitOf(scope, id, db[id]) in Matches(db, scope, q)
    {
      assert Selected(q.products, db[id]);
      assert id in rows;
      assert HitOf(scope, id, db[id]).id == id;
    }
  }

  datatype Relation = LinkedToCase | Correlated(score: nat)

  /** `get_response_agent_raw_alert`: which alert may be read in full, and why. */
  function LookUp(db: Alerts, scope: Scope, window: int, id: string): Option<Relation> {
    if id !in db then None
    else if id in scope.linked then Some(LinkedToCase)
    else
      var a := db[id];
      var w := BoundWindow(window);
      var withinEvents := scope.eventMin - w <= EventTime(a) <= scope.eventMax + w;
      var withinIngest := scope.createdMin - w <= a.createdAt <= scope.createdMax + w;
      if !(withinEvents || withinIngest) || Score(scope, a) < MIN_SCORE then None
      else Some(Correlated(Score(scope, a)))
  }

  /** The lookup and an untruncated scan agree on every unlinked alert. */
  lemma LookUpAgrees(db: Alerts, scope: Scope, q: Query, id: string)
    requires q.products == {} && id !in scope.linked
    requires |CandidateRows(db, scope, BoundWindow(q.window), q.products)| <= BoundScan(q.scanLimit)
    requires Read(db, scope, q) == |Head(db, scope, q)|
    ensures LookUp(db, scope, q.window, id).Some? <==> exists h :: h in Matches(db, scope, q) && h.id == id
  {
    hide Score, Matches, CandidateRows, Head, Read, Sorted;
    CompleteScanIsExact(db, scope, q);
    if IsRelated(db, scope, q.window, id) {
      assert HitOf(scope, id, db[id]).id == id;
    }
  }

  /** Whatever was cut off or filtered, a reported alert can be looked up, with the
      same score. */
  lemma ReportedCanBeLookedUp(db: Alerts, scope: Scope, q: Query, h: Hit)
    requires h in Matches(db, scope, q)
    ensures LookUp(db, scope, q.window, h.id) == Some(Correlated(h.score))
  {
    hide Score, Matches, Sorted;
    MatchesAreRelated(db, scope, q);
  }
}
