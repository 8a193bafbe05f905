/** The few Python string operations the gateway relies on. */
module PyText {

  /** `str.isspace` for one character, as `str.strip` and `\s` use it. */
  predicate IsSpace(c: char) {
    var p := c as int;
    || 0x09 <= p <= 0x0D
    || 0x1C <= p <= 0x20
    || p == 0x85 || p == 0xA0 || p == 0x1680
    || 0x2000 <= p <= 0x200A
    || p == 0x2028 || p == 0x2029 || p == 0x202F || p == 0x205F || p == 0x3000
  }

  /** The characters that `str.isspace` accepts. */
  lemma SpacesAre(c: char)
    ensures IsSpace(c) <==>
      c as int in {9, 10, 11, 12, 13, 28, 29, 30, 31, 32, 0x85, 0xA0, 0x1680, 0x2000, 0x2001, 0x2002, 0x2003, 0x2004, 0x2005,
                   0x2006, 0x2007, 0x2008, 0x2009, 0x200A, 0x2028, 0x2029, 0x202F, 0x205F, 0x3000}
  {
  }

  function StripLeft(s: string): string {
    if s != "" && IsSpace(s[0]) then StripLeft(s[1..]) else s
  }

  function StripRight(s: string): string {
    if s != "" && IsSpace(s[|s| - 1]) then StripRight(s[..|s| - 1]) else s
  }

  function Strip(s: string): string { StripRight(StripLeft(s)) }

  predicate AllSpace(s: string) { forall i :: 0 <= i < |s| ==> IsSpace(s[i]) }

  /** Neither end is whitespace; the empty string has no ends. */
  predicate Trimmed(s: string) { s != "" ==> !IsSpace(s[0]) && !IsSpace(s[|s| - 1]) }

  lemma {:induction false} StripLeftDrops(a: string, b: string)
    requires AllSpace(a) && (b != "" ==> !IsSpace(b[0]))
    ensures StripLeft(a + b) == b
    decreases |a|
  {
    if a == "" {
      assert a + b == b;
    } else {
      assert (a + b)[1..] == a[1..] + b;
      StripLeftDrops(a[1..], b);
    }
  }

  lemma {:induction false} StripRightDrops(a: string, b: string)
    requires AllSpace(b) && (a != "" ==> !IsSpace(a[|a| - 1]))
    ensures StripRight(a + b) == a
    decreases |b|
  {
    if b == "" {
      assert a + b == a;
    } else {
      assert (a + b)[..|a + b| - 1] == a + b[..|b| - 1];
      StripRightDrops(a, b[..|b| - 1]);
    }
  }

  lemma StripDrops(a: string, b: string)
    requires AllSpace(a) && Trimmed(b)
    ensures Strip(a + b) == b
  {
    StripLeftDrops(a, b);
    StripRightDrops(b, "");
    assert b + "" == b;
  }

  lemma {:induction false} StripLeftTrims(s: string)
    ensures StripLeft(s) != "" ==> !IsSpace(StripLeft(s)[0])
  {
    if s != "" { StripLeftTrims(s[1..]); }
  }

  lemma {:induction false} StripRightTrims(s: string)
    ensures StripRight(s) != "" ==> !IsSpace(StripRight(s)[|StripRight(s)| - 1])
    ensures StripRight(s) != "" ==> s != "" && StripRight(s)[0] == s[0]
    decreases |s|
  {
    if s != "" { StripRightTrims(s[..|s| - 1]); }
  }

  /** A string that starts visibly is not blank. */
  lemma {:induction false} StripKeeps(s: string)
    requires s != "" && !IsSpace(s[0])
    ensures Strip(s) != ""
    decreases |s|
  {
    if IsSpace(s[|s| - 1]) { StripKeeps(s[..|s| - 1]); }
  }

  lemma StripTrims(s: string)
    ensures Trimmed(Strip(s)) && Strip(Strip(s)) == Strip(s)
  {
    StripLeftTrims(s);
    StripRightTrims(StripLeft(s));
    hide StripLeft, StripRight;
    var r := Strip(s);
    StripDrops("", r);
    assert "" + r == r;
  }

  /** `s.split(sep)`. */
  function SplitOn(s: string, sep: char): (r: seq<string>)
    ensures r != []
  {
    if s == "" then [""]
    else
      var rest := SplitOn(s[1..], sep);
      if s[0] == sep then [""] + rest else [[s[0]] + rest[0]] + rest[1..]
  }

  predicate Without(s: string, c: char) { forall i :: 0 <= i < |s| ==> s[i] != c }

  lemma {:induction false} SplitFirst(a: string, sep: char, b: string)
    requires Without(a, sep)
    ensures SplitOn(a, sep) == [a]
    ensures SplitOn(a + [sep] + b, sep) == [a] + SplitOn(b, sep)
  {
    if a == "" {
      assert a + [sep] + b == [sep] + b && ([sep] + b)[1..] == b;
    } else {
      assert Without(a[1..], sep);
      SplitFirst(a[1..], sep, b);
      assert (a + [sep] + b)[1..] == a[1..] + [sep] + b;
      assert a == [a[0]] + a[1..];
    }
  }

  /** What stands before and after the first `c`; all of `s` and nothing without one. */
  function Before(s: string, c: char): string {
    if s == "" || s[0] == c then "" else [s[0]] + Before(s[1..], c)
  }

  function After(s: string, c: char): string {
    if s == "" then "" else if s[0] == c then s[1..] else After(s[1..], c)
  }

  lemma {:induction false} BeforeConcat(a: string, b: string, c: char)
    requires Without(a, c)
    ensures Before(a + b, c) == a + Before(b, c)
    ensures After(a + b, c) == After(b, c)
  {
    if a == "" {
      assert a + b == b;
    } else {
      assert Without(a[1..], c);
      BeforeConcat(a[1..], b, c);
      assert (a + b)[1..] == a[1..] + b;
    }
  }
}

/** Non-negative decimal numerals. */
module Decimals {

  function Digit(d: nat): char
    requires d < 10
  {
    ('0' as int + d) as char
  }

  function DigitValue(c: char): nat
    requires '0' <= c <= '9'
  {
    c as int - '0' as int
  }

  predicate IsNumeral(s: string) {
    s != "" && forall i :: 0 <= i < |s| ==> '0' <= s[i] <= '9'
  }

  /** `str(n)`. */
  function Decimal(n: nat): string {
    if n < 10 then [Digit(n)] else Decimal(n / 10) + [Digit(n % 10)]
  }

  function PrintInt(n: int): string { if n < 0 then "-" + Decimal(-n) else Decimal(n) }

  /** `int(s)` on a plain numeral. */
  function NumeralValue(s: string): nat
    requires IsNumeral(s)
    decreases |s|
  {
    var last := DigitValue(s[|s| - 1]);
    if |s| == 1 then last else 10 * NumeralValue(s[..|s| - 1]) + last
  }

  /** Writing a number and reading it back; no leading zero is written. */
  lemma {:induction false} DecimalReadsBack(n: nat)
    ensures IsNumeral(Decimal(n)) && NumeralValue(Decimal(n)) == n
    ensures |Decimal(n)| == 1 || Decimal(n)[0] != '0'
  {
    if n >= 10 {
      DecimalReadsBack(n / 10);
      var s := Decimal(n);
      assert s[..|s| - 1] == Decimal(n / 10);
      assert n / 10 < 10 ==> Decimal(n / 10) == [Digit(n / 10)];
    }
  }
}
