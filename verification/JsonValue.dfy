/** Decoded JSON values, as `json.loads` hands them to the gateway.  A Python
    dict is a finite map, so two objects that differ only in member order are
    equal.  A number is kept as its source text. */
module JsonValue {

  datatype Value =
    | Null
    | Boolean(b: bool)
    | Number(text: string)
    | Text(s: string)
    | Array(items: seq<Value>)
    | Object(fields: map<string, Value>)

  /** Python orders strings by code point; this is that order. */
  predicate StringLeq(a: string, b: string) {
    if a == "" then true
    else if b == "" then false
    else a[0] < b[0] || (a[0] == b[0] && StringLeq(a[1..], b[1..]))
  }

  lemma {:induction false} StringLeqRefl(a: string)
    ensures StringLeq(a, a)
  {
    if a != "" { StringLeqRefl(a[1..]); }
  }

  lemma {:induction false} StringLeqTotal(a: string, b: string)
    ensures StringLeq(a, b) || StringLeq(b, a)
  {
    if a != "" && b != "" && a[0] == b[0] { StringLeqTotal(a[1..], b[1..]); }
  }

  lemma {:induction false} StringLeqAntisym(a: string, b: string)
    requires StringLeq(a, b) && StringLeq(b, a)
    ensures a == b
  {
    if a != "" && b != "" {
      StringLeqAntisym(a[1..], b[1..]);
      assert a == [a[0]] + a[1..] && b == [b[0]] + b[1..];
    }
  }

  lemma {:induction false} StringLeqTrans(a: string, b: string, c: string)
    requires StringLeq(a, b) && StringLeq(b, c)
    ensures StringLeq(a, c)
  {
    if a != "" && b != "" && c != "" && a[0] == b[0] == c[0] {
      StringLeqTrans(a[1..], b[1..], c[1..]);
    }
  }

  predicate IsLeastKey(keys: set<string>, m: string) {
    m in keys && forall k :: k in keys ==> StringLeq(m, k)
  }

  /** Every non-empty finite set of keys has a least one. */
  lemma {:induction false} LeastKeyExists(keys: set<string>)
    requires keys != {}
    ensures exists m :: IsLeastKey(keys, m)
  {
    var k :| k in keys;
    if keys == {k} {
      StringLeqRefl(k);
      assert IsLeastKey(keys, k);
    } else {
      LeastKeyExists(keys - {k});
      var m :| IsLeastKey(keys - {k}, m);
      StringLeqTotal(m, k);
      if StringLeq(m, k) {
        assert forall j :: j in keys ==> j == k || j in keys - {k};
        assert IsLeastKey(keys, m);
      } else {
        StringLeqRefl(k);
        forall j | j in keys ensures StringLeq(k, j) {
          if j != k { StringLeqTrans(k, m, j); }
        }
        assert IsLeastKey(keys, k);
      }
    }
  }

  lemma LeastKeyUnique(keys: set<string>)
    ensures forall m, n | IsLeastKey(keys, m) && IsLeastKey(keys, n) :: m == n
  {
    forall m, n | IsLeastKey(keys, m) && IsLeastKey(keys, n) ensures m == n {
      StringLeqAntisym(m, n);
    }
  }

  /** `sorted(keys, key=str)`: the one ascending listing of a key set. */
  function SortedKeys(keys: set<string>): (r: seq<string>)
    ensures |r| == |keys|
    ensures forall k :: k in r <==> k in keys
    ensures forall i, j :: 0 <= i < j < |r| ==> r[i] != r[j] && StringLeq(r[i], r[j])
    decreases |keys|
  {
    if keys == {} then []
    else
      LeastKeyExists(keys);
      LeastKeyUnique(keys);
      var m :| IsLeastKey(keys, m);
      [m] + SortedKeys(keys - {m})
  }

  /** The member values of a dict, in key order. */
  function FieldValues(fields: map<string, Value>): (r: seq<Value>)
    ensures |r| == |fields|
    ensures forall i :: 0 <= i < |r| ==> r[i] in fields.Values
    ensures forall k :: k in fields ==> fields[k] in r
  {
    var keys := SortedKeys(fields.Keys);
    var r := seq(|keys|, i requires 0 <= i < |keys| => assert keys[i] in keys; fields[keys[i]]);
    assert forall i :: 0 <= i < |r| ==> keys[i] in keys && r[i] == fields[keys[i]];
    assert forall k :: k in fields ==> k in keys;
    r
  }
}
