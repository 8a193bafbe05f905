/** Stable sorting by a composite key, as `ORDER BY` and `list.sort` do it. */
module Sorting {
  import opened JsonValue

  datatype SortKey = SortKey(a: int, b: int, c: int, d: string, e: string)

  predicate KeyLeq(x: SortKey, y: SortKey) {
    if x.a != y.a then x.a < y.a
    else if x.b != y.b then x.b < y.b
    else if x.c != y.c then x.c < y.c
    else if x.d != y.d then StringLeq(x.d, y.d)
    else StringLeq(x.e, y.e)
  }

  lemma KeyTotal(x: SortKey, y: SortKey)
    ensures KeyLeq(x, y) || KeyLeq(y, x)
  {
    StringLeqTotal(x.d, y.d);
    StringLeqTotal(x.e, y.e);
  }

  lemma KeyTrans(x: SortKey, y: SortKey, z: SortKey)
    requires KeyLeq(x, y) && KeyLeq(y, z)
    ensures KeyLeq(x, z)
  {
    hide StringLeq;
    if x.a == y.a == z.a && x.b == y.b == z.b && x.c == y.c == z.c {
      if x.d == y.d == z.d {
        StringLeqTrans(x.e, y.e, z.e);
      } else if x.d == z.d {
        StringLeqAntisym(x.d, y.d);
      } else if x.d != y.d && y.d != z.d {
        StringLeqTrans(x.d, y.d, z.d);
      }
    }
  }

  function Insert<T>(key: T -> SortKey, x: T, s: seq<T>): seq<T> {
    if s == [] || KeyLeq(key(x), key(s[0])) then [x] + s else [s[0]] + Insert(key, x, s[1..])
  }

  /** `ORDER BY` and `list.sort` on the given key. */
  function SortBy<T>(key: T -> SortKey, s: seq<T>): seq<T> {
    if s == [] then [] else Insert(key, s[0], SortBy(key, s[1..]))
  }

  ghost predicate Sorted<T>(key: T -> SortKey, s: seq<T>) {
    forall i, j :: 0 <= i < j < |s| ==> KeyLeq(key(s[i]), key(s[j]))
  }

  lemma {:induction false} InsertSorts<T>(key: T -> SortKey, x: T, s: seq<T>)
    requires Sorted(key, s)
    ensures Sorted(key, Insert(key, x, s)) && multiset(Insert(key, x, s)) == multiset{x} + multiset(s)
    decreases |s|
  {
    hide KeyLeq;
    if s == [] {
    } else if KeyLeq(key(x), key(s[0])) {
      forall j | 0 <= j < |s|
        ensures KeyLeq(key(x), key(s[j]))
      {
        if j > 0 { KeyTrans(key(x), key(s[0]), key(s[j])); }
      }
    } else {
      KeyTotal(key(x), key(s[0]));
      var rest := Insert(key, x, s[1..]);
      InsertSorts(key, x, s[1..]);
      assert s == [s[0]] + s[1..];
      forall j | 0 <= j < |rest|
        ensures KeyLeq(key(s[0]), key(rest[j]))
      {
        assert rest[j] in multiset(rest);
        if rest[j] != x {
          assert rest[j] in s[1..];
          var i :| 0 <= i < |s[1..]| && s[1..][i] == rest[j];
          assert s[i + 1] == rest[j];
        }
      }
    }
  }

  lemma SortedNothing<T>(key: T -> SortKey)
    ensures Sorted(key, [])
  {
  }

  lemma {:induction false} SortSorts<T>(key: T -> SortKey, s: seq<T>)
    ensures Sorted(key, SortBy(key, s)) && multiset(SortBy(key, s)) == multiset(s)
    decreases |s|
  {
    hide Sorted;
    if s == [] {
      SortedNothing(key);
    } else {
      SortSorts(key, s[1..]);
      InsertSorts(key, s[0], SortBy(key, s[1..]));
      assert s == [s[0]] + s[1..];
    }
  }

  lemma SortMembers<T>(key: T -> SortKey, s: seq<T>)
    ensures forall x :: x in SortBy(key, s) <==> x in s
    ensures |SortBy(key, s)| == |s|
  {
    SortSorts(key, s);
    hide Sorted, SortBy;
    var sorted := SortBy(key, s);
    assert |multiset(sorted)| == |sorted| && |multiset(s)| == |s|;
    forall x
      ensures x in sorted <==> x in s
    {
      assert x in sorted <==> x in multiset(sorted);
      assert x in s <==> x in multiset(s);
    }
  }

  predicate Distinct<T(==)>(ids: seq<T>) { forall i, j :: 0 <= i < j < |ids| ==> ids[i] != ids[j] }

  lemma DistinctTail<T>(ids: seq<T>)
    requires ids != [] && ids[0] !in ids[1..]
    ensures Distinct(ids) <==> Distinct(ids[1..])
  {
    if Distinct(ids[1..]) {
      forall i, j | 0 <= i < j < |ids|
        ensures ids[i] != ids[j]
      {
        assert ids[j] == ids[1..][j - 1];
        if i > 0 { assert ids[i] == ids[1..][i - 1]; }
      }
    }
  }

  /** Having no repeats is a property of the multiset of members. */
  lemma {:induction false} DistinctBySize<T>(ids: seq<T>)
    ensures Distinct(ids) <==> forall x :: multiset(ids)[x] <= 1
    decreases |ids|
  {
    if ids != [] {
      var rest := ids[1..];
      assert ids == [ids[0]] + rest;
      DistinctBySize(rest);
      if ids[0] in rest {
        var j :| 0 <= j < |rest| && rest[j] == ids[0];
        assert ids[0] == ids[j + 1] && multiset(ids)[ids[0]] >= 2;
      } else {
        assert multiset(ids)[ids[0]] == 1;
        assert forall x :: x != ids[0] ==> multiset(ids)[x] == multiset(rest)[x];
        assert multiset(rest)[ids[0]] == 0;
        DistinctTail(ids);
      }
    }
  }
}
