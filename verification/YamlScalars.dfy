/** How the configuration parser reads one scalar, in terms of its text: which words are
    truth values, which texts are integers, and what quotes and brackets hold. */
module YamlScalars {
  import opened Common
  import opened Decimals
  import opened PyText
  import opened SimpleYaml

  /** The parts of a text, one after the other. */
  function Flat(parts: seq<string>): string { if parts == [] then "" else parts[0] + Flat(parts[1..]) }

  /** Digits in groups, with one underscore between two groups. */
  predicate IsInGroups(s: string) {
    var groups := SplitOn(s, '_');
    forall i :: 0 <= i < |groups| ==> IsNumeral(groups[i])
  }

  predicate AllDigits(s: string) { forall i :: 0 <= i < |s| ==> '0' <= s[i] <= '9' }

  /** The same, but the first group may be empty. */
  predicate IsRestOfGroups(s: string) {
    var groups := SplitOn(s, '_');
    AllDigits(groups[0]) && forall i :: 1 <= i < |groups| ==> IsNumeral(groups[i])
  }

  predicate IsTail(s: string) {
    && (s != "" ==> s[|s| - 1] != '_')
    && (forall i :: 0 <= i < |s| ==> '0' <= s[i] <= '9' || s[i] == '_')
    && (forall i :: 0 <= i < |s| - 1 ==> s[i] == '_' ==> s[i + 1] != '_')
  }

  predicate Continues(c: char, t: string) { if c == '_' then t != "" && t[0] != '_' else '0' <= c <= '9' }

  lemma TailDown(c: char, t: string)
    requires IsTail([c] + t)
    ensures IsTail(t) && Continues(c, t)
  {
    var s := [c] + t;
    assert s[0] == c;
    forall i | 0 <= i < |t| ensures '0' <= t[i] <= '9' || t[i] == '_' { assert s[i + 1] == t[i]; }
    forall i | 0 <= i < |t| - 1 && t[i] == '_' ensures t[i + 1] != '_' { assert s[i + 1] == '_' && s[i + 2] == t[i + 1]; }
    if t != "" { assert s[1] == t[0] && s[|s| - 1] == t[|t| - 1]; }
  }

  lemma TailUp(c: char, t: string)
    requires IsTail(t) && Continues(c, t)
    ensures IsTail([c] + t)
  {
    var s := [c] + t;
    forall i | 0 <= i < |s| ensures '0' <= s[i] <= '9' || s[i] == '_' { if i > 0 { assert s[i] == t[i - 1]; } }
    forall i | 0 <= i < |s| - 1 && s[i] == '_' ensures s[i + 1] != '_' {
      if i > 0 { assert t[i - 1] == '_' && s[i + 1] == t[i]; }
    }
    if t != "" { assert s[|s| - 1] == t[|t| - 1]; }
  }

  lemma GroupStep(c: char, t: string)
    ensures IsRestOfGroups([c] + t) <==> IsRestOfGroups(t) && (if c == '_' then SplitOn(t, '_')[0] != "" else '0' <= c <= '9')
    ensures Flat(SplitOn([c] + t, '_')) == (if c == '_' then "" else [c]) + Flat(SplitOn(t, '_'))
    ensures SplitOn([c] + t, '_')[0] == if c == '_' then "" else [c] + SplitOn(t, '_')[0]
  {
    var s := [c] + t;
    assert s[1..] == t && s[0] == c;
    var rest, all := SplitOn(t, '_'), SplitOn(s, '_');
    if c == '_' {
      assert all == [""] + rest && all[1..] == rest;
      assert forall i :: 0 <= i < |rest| ==> all[i + 1] == rest[i];
    } else {
      assert all == [[c] + rest[0]] + rest[1..] && all[1..] == rest[1..];
      assert forall i :: 1 <= i < |rest| ==> all[i] == rest[i];
      assert ([c] + rest[0])[1..] == rest[0];
      if AllDigits([c] + rest[0]) {
        forall i | 0 <= i < |rest[0]| ensures '0' <= rest[0][i] <= '9' { assert ([c] + rest[0])[i + 1] == rest[0][i]; }
      }
      ConcatAssociative([c], rest[0], Flat(rest[1..]));
    }
  }

  lemma NoGroups()
    ensures IsTail("") && IsRestOfGroups("") && SplitOn("", '_') == [""]
  {
  }

  lemma {:induction false} GroupsAreTails(s: string)
    ensures IsRestOfGroups(s) <==> IsTail(s)
    ensures SplitOn(s, '_')[0] == "" <==> s == "" || s[0] == '_'
    decreases |s|
  {
    hide IsTail, IsRestOfGroups;
    if s == "" {
      NoGroups();
    } else {
      var t := s[1..];
      assert s == [s[0]] + t;
      GroupsAreTails(t);
      if IsTail(s) { TailDown(s[0], t); }
      if IsTail(t) && Continues(s[0], t) { TailUp(s[0], t); }
      GroupStep(s[0], t);
    }
  }

  lemma GroupedExactly(s: string)
    ensures IsGrouped(s) <==> IsInGroups(s)
  {
    GroupsAreTails(s);
    var groups := SplitOn(s, '_');
    hide SplitOn;
    assert IsRestOfGroups(s) && groups[0] != "" <==> IsInGroups(s);
  }

  lemma {:induction false} DroppedIsFlat(s: string)
    requires forall i :: 0 <= i < |s| ==> '0' <= s[i] <= '9' || s[i] == '_'
    ensures DropUnderscores(s) == Flat(SplitOn(s, '_'))
    decreases |s|
  {
    if s == "" {
      assert SplitOn(s, '_') == [""] && Flat([""]) == "" + Flat([]);
    } else {
      assert s == [s[0]] + s[1..];
      DroppedIsFlat(s[1..]);
      GroupStep(s[0], s[1..]);
    }
  }

  /** A text is a natural number exactly if it is digits in groups, 4300 at most, and then its
      value is that of the digits without the underscores. */
  lemma NaturalIs(s: string)
    ensures ParseNatural(s).Some? <==> IsInGroups(s) && |Flat(SplitOn(s, '_'))| <= 4300
    ensures ParseNatural(s).Some? ==>
      IsNumeral(Flat(SplitOn(s, '_'))) && ParseNatural(s).value == NumeralValue(Flat(SplitOn(s, '_')))
  {
    GroupedExactly(s);
    if IsGrouped(s) { DroppedIsFlat(s); }
    hide SplitOn, Flat, IsInGroups, NumeralValue;
  }

  /** A sign in front of it, or none. */
  lemma IntegerIs(s: string)
    ensures ParseInt("-" + s) == (match ParseNatural(s) case None => None case Some(n) => Some(-(n as int)))
    ensures ParseInt("+" + s) == (match ParseNatural(s) case None => None case Some(n) => Some(n as int))
    ensures s != "" && s[0] != '-' && s[0] != '+' ==>
      ParseInt(s) == (match ParseNatural(s) case None => None case Some(n) => Some(n as int))
  {
    assert ("-" + s)[1..] == s && ("+" + s)[1..] == s;
    hide ParseNatural;
  }

  /** No text is both an integer and a word, quoted or bracketed. */
  lemma IntegersAreBare(v: string)
    ensures ParseInt(v).Some? ==>
      && v != "" && v !in {"true", "True", "false", "False"}
      && ('0' <= v[|v| - 1] <= '9')
  {
    if ParseInt(v).Some? {
      var digits := if v[0] == '-' || v[0] == '+' then v[1..] else v;
      assert IsGrouped(digits);
      assert '0' <= digits[|digits| - 1] <= '9';
      assert digits[|digits| - 1] == v[|v| - 1];
    }
  }

  /** Both ends are the same quote. */
  predicate IsQuoted(v: string) { v != "" && v[0] == v[|v| - 1] && (v[0] == '"' || v[0] == '\'') }

  /** What a scalar is, by its trimmed text: a truth value, an integer, a quoted text, a list in
      brackets, or else the text itself. */
  lemma ScalarIs(text: string, inner: string)
    ensures var v := Strip(text);
      && (ParseScalar(text) == Bool(true) <==> v in {"true", "True"})
      && (ParseScalar(text) == Bool(false) <==> v in {"false", "False"})
      && (v == "\"" + inner + "\"" || v == "'" + inner + "'" ==> ParseScalar(text) == Str(inner))
      && (v == "[" + inner + "]" && Strip(inner) == "" ==> ParseScalar(text) == List([]))
      && (v == "[" + inner + "]" && Strip(inner) != "" ==> ParseScalar(text) == List(ParseParts(SplitOn(Strip(inner), ','))))
      && (ParseScalar(text).Int? ==> ParseInt(v) == Some(ParseScalar(text).n))
      && (ParseInt(v).Some? ==> ParseScalar(text) == Int(ParseInt(v).value))
      && (v == "" ==> ParseScalar(text) == Str(""))
      && (ParseScalar(text).List? <==> v != "" && v[0] == '[' && v[|v| - 1] == ']')
      && (ParseScalar(text).Str? && !IsQuoted(v) ==> ParseScalar(text).s == v)
  {
    var v := Strip(text);
    hide Strip, ParseParts, SplitOn, ParseInt;
    IntegersAreBare(v);
    if v == "\"" + inner + "\"" || v == "'" + inner + "'" || v == "[" + inner + "]" {
      assert Inner(v) == inner;
    }
  }

  lemma {:induction false} OnlyQuotes(s: string)
    requires forall i :: 0 <= i < |s| ==> IsQuote(s[i])
    ensures StripQuotesLeft(s) == ""
  {
    if s != "" { OnlyQuotes(s[1..]); }
  }

  lemma {:induction false} QuotesLeft(front: string, rest: string)
    requires forall i :: 0 <= i < |front| ==> IsQuote(front[i])
    requires rest != "" && !IsQuote(rest[0])
    ensures StripQuotesLeft(front + rest) == rest
    decreases |front|
  {
    if front == "" {
      assert front + rest == rest;
    } else {
      assert (front + rest)[1..] == front[1..] + rest;
      QuotesLeft(front[1..], rest);
    }
  }

  lemma {:induction false} QuotesRight(inner: string, back: string)
    requires forall i :: 0 <= i < |back| ==> IsQuote(back[i])
    requires inner != "" && !IsQuote(inner[|inner| - 1])
    ensures StripQuotesRight(inner + back) == inner
    decreases |back|
  {
    if back == "" {
      assert inner + back == inner;
    } else {
      assert (inner + back)[..|inner + back| - 1] == inner + back[..|back| - 1];
      QuotesRight(inner, back[..|back| - 1]);
    }
  }

  /** A part of a list is stripped of blanks, and then of quotes at both ends. */
  lemma PartIs(front: string, inner: string, back: string)
    requires forall i :: 0 <= i < |front| ==> front[i] == '"' || front[i] == '\''
    requires forall i :: 0 <= i < |back| ==> back[i] == '"' || back[i] == '\''
    requires inner != "" ==> !IsQuote(inner[0]) && !IsQuote(inner[|inner| - 1])
    requires Strip(front + inner + back) == front + inner + back
    ensures ParsePart(front + inner + back) == inner
  {
    hide Strip;
    ConcatAssociative(front, inner, back);
    if inner == "" {
      assert front + inner + back == front + back;
      OnlyQuotes(front + back);
    } else {
      QuotesLeft(front, inner + back);
      QuotesRight(inner, back);
    }
  }

  // ---- lines -------------------------------------------------------------

  lemma {:induction false} FirstBreakIs(a: string, rest: string)
    requires forall i :: 0 <= i < |a| ==> !IsBreak(a[i])
    requires rest == "" || IsBreak(rest[0])
    ensures FirstBreak(a + rest) == |a|
    decreases |a|
  {
    if a == "" {
      assert a + rest == rest;
    } else {
      assert (a + rest)[1..] == a[1..] + rest;
      FirstBreakIs(a[1..], rest);
    }
  }

  /** The line boundaries of Unicode. */
  lemma BreaksAre(c: char)
    ensures IsBreak(c) <==> c as int in {10, 11, 12, 13, 28, 29, 30, 0x85, 0x2028, 0x2029}
  {
  }

  /** A line ends at a line boundary. */
  lemma LinesEnd(a: string, c: char, b: string)
    requires (forall i :: 0 <= i < |a| ==> !IsBreak(a[i])) && IsBreak(c) && !(c == '\r' && b != "" && b[0] == '\n')
    ensures SplitLines(a + [c] + b) == [a] + SplitLines(b)
    ensures SplitLines("") == [] && (a != "" ==> SplitLines(a) == [a])
  {
    hide IsBreak, FirstBreak;
    FirstBreakIs(a, "");
    assert a + "" == a;
    var text := a + [c] + b;
    assert text == a + ([c] + b);
    FirstBreakIs(a, [c] + b);
    assert text[..|a|] == a && text[|a|] == c && text[|a| + 1..] == b;
    assert b != "" ==> text[|a| + 1] == b[0];
  }

  /** A carriage return takes the line feed after it along. */
  lemma ReturnTakesFeed(a: string, b: string)
    requires forall i :: 0 <= i < |a| ==> !IsBreak(a[i])
    ensures SplitLines(a + "\r\n" + b) == [a] + SplitLines(b)
  {
    assert IsBreak('\r');
    hide IsBreak, FirstBreak;
    var text := a + "\r\n" + b;
    assert text == a + ("\r\n" + b);
    FirstBreakIs(a, "\r\n" + b);
    assert text[..|a|] == a && text[|a|] == '\r' && text[|a| + 1] == '\n' && text[|a| + 2..] == b;
  }
}
