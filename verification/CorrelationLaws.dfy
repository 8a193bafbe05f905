/** What correlation reports, in the numbers and columns of the repository: the weights, the
    bounds, the order of the scan and the order of the result. */
module CorrelationLaws {
  import AlertIdentity
  import opened Common
  import opened Correlation
  import opened JsonValue
  import opened Sorting

  /** Values that case and alert share for a field, of which four count at most. */
  function Agreeing(scope: Scope, a: Alert, f: Field): nat {
    var ours := if f in scope.anchors then scope.anchors[f] else {};
    var theirs := if f in a.indicators then a.indicators[f] else {};
    if |ours * theirs| < 4 then |ours * theirs| else 4
  }

  function Points(scope: Scope, a: Alert): nat {
    8 * (Agreeing(scope, a, TraceId) + Agreeing(scope, a, RequestId))
    + 5 * (Agreeing(scope, a, SrcIp) + Agreeing(scope, a, DstIp) + Agreeing(scope, a, Host))
    + 4 * Agreeing(scope, a, User)
    + 3 * (Agreeing(scope, a, App) + Agreeing(scope, a, Process))
    + 2 * (Agreeing(scope, a, Rule) + Agreeing(scope, a, Url))
  }

  lemma FieldScoresAre(scope: Scope, a: Alert, f: Field, weight: nat, fields: seq<Field>)
    requires Weight(f) == weight
    ensures FieldScores(scope, a, [f] + fields) == weight * Agreeing(scope, a, f) + FieldScores(scope, a, fields)
  {
    assert ([f] + fields)[1..] == fields;
    hide Weight;
  }

  lemma NoFields(scope: Scope, a: Alert)
    ensures FieldScores(scope, a, []) == 0
  {
  }

  /** Shared trace and request ids weigh eight, addresses and hosts five, users four,
      applications and processes three, rules and paths two. */
  lemma ScoreIs(scope: Scope, a: Alert)
    ensures Score(scope, a) == Points(scope, a)
  {
    hide Agreeing, FieldScores, Matched, TotalWeight;
    ScoreIsWeighted(scope, a, FIELDS);
    NoFields(scope, a);
    var rules := [Rule] + ([Url] + []);
    var programs := [App] + ([Process] + rules);
    var people := [Host] + ([User] + programs);
    var traces := [TraceId] + ([RequestId] + people);
    assert [SrcIp] + ([DstIp] + traces) == FIELDS;
    FieldScoresAre(scope, a, Url, 2, []);
    FieldScoresAre(scope, a, Rule, 2, [Url] + []);
    FieldScoresAre(scope, a, Process, 3, rules);
    FieldScoresAre(scope, a, App, 3, [Process] + rules);
    FieldScoresAre(scope, a, User, 4, programs);
    FieldScoresAre(scope, a, Host, 5, [User] + programs);
    FieldScoresAre(scope, a, RequestId, 8, people);
    FieldScoresAre(scope, a, TraceId, 8, [RequestId] + people);
    FieldScoresAre(scope, a, DstIp, 5, traces);
    FieldScoresAre(scope, a, SrcIp, 5, [DstIp] + traces);
  }

  function Within(low: int, x: int, high: int): int { if x < low then low else if x > high then high else x }

  /** One minute to seven days, 100 to 10 000 rows, 1 to 512 million bytes, 1 to 100 a page. */
  lemma BoundsAre(window: int, rows: int, bytes: int, limit: int)
    ensures BoundWindow(window) == Within(60_000, window, 604_800_000)
    ensures BoundScan(rows) == Within(100, rows, 10_000)
    ensures BoundBytes(bytes) == Within(1_000_000, bytes, 512_000_000)
    ensures PageLimit(limit) == Within(1, limit, 100)
  {
  }

  /** When it happened, or else when it arrived. */
  function Time(a: Alert): int { if a.eventAt == 0 then a.createdAt else a.eventAt }

  /** No further than the window from the events of the case, or from their arrival. */
  predicate IsNear(scope: Scope, window: int, a: Alert) {
    var w := Within(60_000, window, 604_800_000);
    || (Time(a) >= scope.eventMin - w && Time(a) <= scope.eventMax + w)
    || (a.createdAt >= scope.createdMin - w && a.createdAt <= scope.createdMax + w)
  }

  predicate IsWanted(q: Query, a: Alert) { |q.products| > 0 ==> AlertIdentity.Lower(a.product) in q.products }

  function Distance(x: int, y: int): int { if x < y then y - x else x - y }

  lemma CandidateIs(db: Alerts, scope: Scope, q: Query, id: string)
    ensures id in CandidateRows(db, scope, BoundWindow(q.window), q.products) <==>
            id in db && IsNear(scope, q.window, db[id]) && IsWanted(q, db[id])
  {
    CandidatesAre(db, scope, BoundWindow(q.window), q.products);
    hide CandidateRows, AlertIdentity.Lower;
  }

  /** By time, arrival and id. */
  predicate ScannedBefore(db: Alerts, a: string, b: string)
    requires a in db && b in db
  {
    || Time(db[a]) < Time(db[b])
    || (Time(db[a]) == Time(db[b])
        && (db[a].createdAt < db[b].createdAt || (db[a].createdAt == db[b].createdAt && StringLeq(a, b))))
  }

  lemma KeyIsTime(db: Alerts, a: string, b: string)
    requires a in db && b in db && KeyLeq(RowKey(db, a), RowKey(db, b))
    ensures ScannedBefore(db, a, b)
  {
    hide StringLeq;
    StringLeqTotal(a, b);
  }

  /** The scan reads the candidates oldest first, up to the bounded number of rows. */
  lemma ScanIsOldestFirst(db: Alerts, scope: Scope, q: Query)
    ensures var rows, head := CandidateRows(db, scope, BoundWindow(q.window), q.products), Head(db, scope, q);
      && head <= rows && |head| == (if |rows| < Within(100, q.scanLimit, 10_000) then |rows| else Within(100, q.scanLimit, 10_000))
      && (forall i :: 0 <= i < |rows| ==> rows[i] in db)
      && (forall i, j :: 0 <= i < j < |rows| ==> ScannedBefore(db, rows[i], rows[j]))
  {
    BoundsAre(q.window, q.scanLimit, q.scanBytes, 0);
    CandidatesAre(db, scope, BoundWindow(q.window), q.products);
    var rows := CandidateRows(db, scope, BoundWindow(q.window), q.products);
    var key := id => RowKey(db, id);
    var chosen := Filtered(db, scope, BoundWindow(q.window), q.products, SortedKeys(db.Keys));
    SortSorts(key, chosen);
    hide Filtered, InWindow, Selected, BoundWindow, BoundScan, ScannedBefore, RowKey, SortBy;
    forall i, j | 0 <= i < j < |rows| ensures rows[i] in db && rows[j] in db && ScannedBefore(db, rows[i], rows[j]) {
      assert rows[i] in rows && rows[j] in rows;
      assert KeyLeq(key(rows[i]), key(rows[j]));
      KeyIsTime(db, rows[i], rows[j]);
    }
    forall i | 0 <= i < |rows| ensures rows[i] in db { assert rows[i] in rows; }
  }

  lemma ScoreOfHit(db: Alerts, scope: Scope, q: Query, h: Hit)
    requires h in Matches(db, scope, q)
    ensures h.id in CandidateRows(db, scope, BoundWindow(q.window), q.products) && h.id in db && h.id !in scope.linked
    ensures h == HitOf(scope, h.id, db[h.id]) && h.score >= 5
  {
    hide Score, InWindow, Selected, SortBy, Hits, CandidateRows, Fits;
    CandidatesAre(db, scope, BoundWindow(q.window), q.products);
    var rows := CandidateRows(db, scope, BoundWindow(q.window), q.products);
    var read := Head(db, scope, q)[..Read(db, scope, q)];
    assert forall id :: id in read ==> id in rows;
    HitMembers(db, scope, read);
    SortMembers(HitKey, Hits(db, scope, read));
  }

  /** A reported alert is stored, not linked, near, of a wanted product and scores five points
      or more, and is reported with its points, its distance from the case and its time. */
  lemma ReportIs(db: Alerts, scope: Scope, q: Query, h: Hit)
    requires h in Matches(db, scope, q)
    ensures h.id in db && h.id !in scope.linked
    ensures var a := db[h.id];
      var far, near := Distance(Time(a), scope.eventMax), Distance(Time(a), scope.eventMin);
      && IsNear(scope, q.window, a) && IsWanted(q, a)
      && h.score == Points(scope, a) >= 5 && h.timestamp == a.timestamp
      && h.delta == if near < far then near else far
  {
    ScoreOfHit(db, scope, q, h);
    ScoreIs(scope, db[h.id]);
    CandidateIs(db, scope, q, h.id);
    hide Matches, CandidateRows, IsNear, IsWanted, Score, Points;
  }

  /** Best first: more points, then closer to the case, then time and id. */
  predicate ReportedBefore(a: Hit, b: Hit) {
    || a.score > b.score
    || (a.score == b.score
        && (|| a.delta < b.delta
            || (a.delta == b.delta && if a.timestamp == b.timestamp then StringLeq(a.id, b.id) else StringLeq(a.timestamp, b.timestamp))))
  }

  lemma ReportIsOrdered(db: Alerts, scope: Scope, q: Query, i: nat, j: nat)
    requires i < j < |Matches(db, scope, q)|
    ensures ReportedBefore(Matches(db, scope, q)[i], Matches(db, scope, q)[j])
  {
    MatchesAreRelated(db, scope, q);
    hide Matches, StringLeq;
    assert KeyLeq(HitKey(Matches(db, scope, q)[i]), HitKey(Matches(db, scope, q)[j]));
  }
}
