/** The YAML-subset parser of the configuration file (`config.py`): an indentation
    stack over nested dictionaries, one scalar or one-line list per line. */
module SimpleYaml {
  import opened Common
  import opened Decimals
  import opened PyText
  import JsonValue

  /** What a configuration line or section holds. */
  datatype Value =
    | Int(n: int)
    | Bool(b: bool)
    | Str(s: string)
    | List(parts: seq<string>)
    | Map(fields: map<string, Value>)

  // ---- scalars -----------------------------------------------------------

  function Inner(s: string): string { if |s| <= 2 then "" else s[1..|s| - 1] }

  predicate Encloses(s: string, open: char, close: char) {
    s != "" && s[0] == open && s[|s| - 1] == close
  }

  predicate IsQuote(c: char) { c == '\'' || c == '"' }

  function StripQuotesLeft(s: string): string {
    if s != "" && IsQuote(s[0]) then StripQuotesLeft(s[1..]) else s
  }

  function StripQuotesRight(s: string): string {
    if s != "" && IsQuote(s[|s| - 1]) then StripQuotesRight(s[..|s| - 1]) else s
  }

  /** `part.strip().strip("'\"")`. */
  function ParsePart(part: string): string { StripQuotesRight(StripQuotesLeft(Strip(part))) }

  function ParseParts(raw: seq<string>): (r: seq<string>)
    ensures |r| == |raw|
  {
    if raw == [] then [] else [ParsePart(raw[0])] + ParseParts(raw[1..])
  }

  /** Digits with single underscores between them, as `int` reads them. */
  predicate IsGrouped(s: string) {
    && s != "" && s[0] != '_' && s[|s| - 1] != '_'
    && (forall i :: 0 <= i < |s| ==> '0' <= s[i] <= '9' || s[i] == '_')
    && (forall i :: 0 <= i < |s| - 1 ==> s[i] == '_' ==> s[i + 1] != '_')
  }

  function DropUnderscores(s: string): (r: string)
    requires forall i :: 0 <= i < |s| ==> '0' <= s[i] <= '9' || s[i] == '_'
    ensures forall i :: 0 <= i < |r| ==> '0' <= r[i] <= '9'
    ensures s != "" && s[0] != '_' ==> r != ""
  {
    if s == "" then "" else (if s[0] == '_' then "" else [s[0]]) + DropUnderscores(s[1..])
  }

  /** `int` refuses longer numerals (`sys.get_int_max_str_digits`). */
  const MAX_INT_DIGITS := 4300

  function ParseNatural(s: string): Option<nat> {
    if IsGrouped(s) && |DropUnderscores(s)| <= MAX_INT_DIGITS then Some(NumeralValue(DropUnderscores(s))) else None
  }

  /** `int(value)`, `None` where it raises; only the ASCII digits are modelled. */
  function ParseInt(s: string): Option<int> {
    if s != "" && (s[0] == '-' || s[0] == '+') then
      match ParseNatural(s[1..])
      case None => None
      case Some(n) => Some(if s[0] == '-' then -(n as int) else n as int)
    else
      match ParseNatural(s)
      case None => None
      case Some(n) => Some(n)
  }

  /** `_parse_scalar`. */
  function ParseScalar(text: string): Value {
    var value := Strip(text);
    if value == "" then Str("")
    else if value in {"true", "True"} then Bool(true)
    else if value in {"false", "False"} then Bool(false)
    else if Encloses(value, '[', ']') then
      var raw := Strip(Inner(value));
      if raw == "" then List([]) else List(ParseParts(SplitOn(raw, ',')))
    else if Encloses(value, '"', '"') || Encloses(value, '\'', '\'') then Str(Inner(value))
    else
      match ParseInt(value)
      case Some(n) => Int(n)
      case None => Str(value)
  }

  // ---- lines -------------------------------------------------------------

  /** The characters `str.splitlines` breaks at. */
  predicate IsBreak(c: char) {
    var p := c as int;
    0x0A <= p <= 0x0D || 0x1C <= p <= 0x1E || p == 0x85 || p == 0x2028 || p == 0x2029
  }

  predicate OneLine(s: string) { forall i :: 0 <= i < |s| ==> !IsBreak(s[i]) }

  function FirstBreak(text: string): (k: nat)
    ensures k <= |text|
  {
    if text == "" || IsBreak(text[0]) then 0 else 1 + FirstBreak(text[1..])
  }

  /** `text.splitlines()`. */
  function SplitLines(text: string): seq<string>
    decreases |text|
  {
    if text == "" then []
    else
      var k := FirstBreak(text);
      if k == |text| then [text]
      else
        var next := if text[k] == '\r' && k + 1 < |text| && text[k + 1] == '\n' then k + 2 else k + 1;
        [text[..k]] + SplitLines(text[next..])
  }

  function LeadingSpaces(s: string): (n: nat)
    ensures n <= |s|
  {
    if s != "" && s[0] == ' ' then 1 + LeadingSpaces(s[1..]) else 0
  }

  datatype Line = Skipped | Invalid | Entry(indent: nat, key: string, value: string)

  /** Cut the comment, skip blank lines, split at the first colon. */
  function ReadLine(raw: string): Line {
    var line := StripRight(Before(raw, '#'));
    var text := Strip(line);
    if text == "" then Skipped
    else if Without(text, ':') then Invalid
    else Entry(LeadingSpaces(line), Before(text, ':'), After(text, ':'))
  }

  // ---- the indentation stack ---------------------------------------------

  /** An open section: the indentation of its line and the keys that lead to its map. */
  datatype Frame = Frame(indent: int, path: seq<string>)

  datatype State = State(root: Value, stack: seq<Frame>)

  const START := State(Map(map[]), [Frame(-1, [])])

  /** The map that `path` leads to. */
  function Find(v: Value, path: seq<string>): Option<map<string, Value>>
    decreases |path|
  {
    if !v.Map? then None
    else if path == [] then Some(v.fields)
    else if path[0] in v.fields then Find(v.fields[path[0]], path[1..])
    else None
  }

  /** `v` with the map at `path` replaced. */
  function Replace(v: Value, path: seq<string>, fields: map<string, Value>): Value
    requires Find(v, path).Some?
    decreases |path|
  {
    if path == [] then Map(fields)
    else Map(v.fields[path[0] := Replace(v.fields[path[0]], path[1..], fields)])
  }

  function PopTo(stack: seq<Frame>, indent: nat): (r: seq<Frame>)
    ensures r <= stack
    decreases |stack|
  {
    if stack != [] && indent <= stack[|stack| - 1].indent then PopTo(stack[..|stack| - 1], indent) else stack
  }

  predicate Nested(outer: Frame, inner: Frame) {
    && outer.indent < inner.indent
    && inner.path != [] && outer.path == inner.path[..|inner.path| - 1]
  }

  /** What every reached state satisfies: the root frame is at the bottom, each frame
      is deeper than the one it stands on and one key further, and the innermost
      section exists. */
  ghost predicate Good(s: State) {
    && s.stack != [] && s.stack[0] == Frame(-1, [])
    && (forall i :: 0 <= i < |s.stack| - 1 ==> Nested(s.stack[i], s.stack[i + 1]))
    && Find(s.root, s.stack[|s.stack| - 1].path).Some?
  }

  function Assign(root: Value, path: seq<string>, key: string, value: Value): Value
    requires Find(root, path).Some?
  {
    Replace(root, path, Find(root, path).value[key := value])
  }

  lemma {:induction false} FindPrefix(v: Value, path: seq<string>, n: nat)
    requires Find(v, path).Some? && n <= |path|
    ensures Find(v, path[..n]).Some?
    decreases n
  {
    if n > 0 {
      FindPrefix(v.fields[path[0]], path[1..], n - 1);
      assert path[..n][1..] == path[1..][..n - 1];
    }
  }

  /** Popping never removes the root frame. */
  lemma {:induction false} PopKeepsGood(s: State, indent: nat)
    requires Good(s)
    ensures Good(State(s.root, PopTo(s.stack, indent)))
    ensures var r := PopTo(s.stack, indent); r[|r| - 1].indent < indent
    decreases |s.stack|
  {
    var n := |s.stack|;
    if indent <= s.stack[n - 1].indent {
      assert n > 1;
      assert Nested(s.stack[n - 2], s.stack[n - 2 + 1]);
      var inner := s.stack[n - 1].path;
      FindPrefix(s.root, inner, |inner| - 1);
      PopKeepsGood(State(s.root, s.stack[..n - 1]), indent);
    }
  }

  /** One line of the loop; `None` is the ValueError. */
  function Step(s: State, line: Line): Option<State>
    requires Good(s)
  {
    match line
    case Skipped => Some(s)
    case Invalid => None
    case Entry(indent, key, value) =>
      PopKeepsGood(s, indent);
      var stack := PopTo(s.stack, indent);
      var path := stack[|stack| - 1].path;
      if Strip(value) == "" then
        Some(State(Assign(s.root, path, key, Map(map[])), stack + [Frame(indent, path + [key])]))
      else
        Some(State(Assign(s.root, path, key, ParseScalar(value)), stack))
  }

  lemma {:induction false} FindReplace(v: Value, path: seq<string>, fields: map<string, Value>)
    requires Find(v, path).Some?
    ensures Find(Replace(v, path, fields), path) == Some(fields)
    decreases |path|
  {
    if path != [] { FindReplace(v.fields[path[0]], path[1..], fields); }
  }

  lemma {:induction false} FindChild(v: Value, path: seq<string>, key: string)
    requires Find(v, path).Some? && key in Find(v, path).value && Find(v, path).value[key].Map?
    ensures Find(v, path + [key]) == Some(Find(v, path).value[key].fields)
    decreases |path|
  {
    if path == [] {
      assert ([] + [key])[1..] == [];
    } else {
      FindChild(v.fields[path[0]], path[1..], key);
      assert (path + [key])[1..] == path[1..] + [key];
    }
  }

  lemma GoodFinds(s: State)
    requires Good(s)
    ensures s.stack != [] && Find(s.root, s.stack[|s.stack| - 1].path).Some?
  {
  }

  lemma GoodRoot(s: State, root: Value)
    requires Good(s) && Find(root, s.stack[|s.stack| - 1].path).Some?
    ensures Good(State(root, s.stack))
  {
    hide Find;
  }

  lemma GoodPush(s: State, indent: int, key: string)
    requires Good(s) && s.stack[|s.stack| - 1].indent < indent
    requires Find(s.root, s.stack[|s.stack| - 1].path + [key]).Some?
    ensures Good(State(s.root, s.stack + [Frame(indent, s.stack[|s.stack| - 1].path + [key])]))
  {
    hide Find;
    var last := s.stack[|s.stack| - 1];
    assert (last.path + [key])[..|last.path|] == last.path;
    assert Nested(last, Frame(indent, last.path + [key]));
  }

  /** Every line keeps the indentation stack in order. */
  lemma StepKeepsGood(s: State, line: Line)
    requires Good(s) && Step(s, line).Some?
    ensures Good(Step(s, line).value)
  {
    hide Find, Replace, Strip, ParseScalar;
    if line.Entry? {
      PopKeepsGood(s, line.indent);
      var stack := PopTo(s.stack, line.indent);
      var path := stack[|stack| - 1].path;
      GoodFinds(State(s.root, stack));
      hide Good;
      var fields := Find(s.root, path).value;
      var value := if Strip(line.value) == "" then Map(map[]) else ParseScalar(line.value);
      var root := Assign(s.root, path, line.key, value);
      FindReplace(s.root, path, fields[line.key := value]);
      GoodRoot(State(s.root, stack), root);
      if Strip(line.value) == "" {
        FindChild(root, path, line.key);
        GoodPush(State(root, stack), line.indent, line.key);
      }
    }
  }

  /** All lines from a state on; `None` once a line has no colon. */
  function Run(s: State, lines: seq<string>): (r: Option<State>)
    requires Good(s)
    ensures r.Some? ==> Good(r.value)
    decreases |lines|
  {
    if lines == [] then Some(s)
    else
      match Step(s, ReadLine(lines[0]))
      case None => None
      case Some(next) => StepKeepsGood(s, ReadLine(lines[0])); Run(next, lines[1..])
  }

  function Parse(text: string): Option<Value> {
    match Run(START, SplitLines(text))
    case None => None
    case Some(s) => Some(s.root)
  }

  lemma StartIsGood()
    ensures Good(START)
  {
  }

  /** `parse_simple_yaml` on the text of the file. */
  method ParseSimpleYaml(text: string) returns (r: Option<Value>)
    ensures r == Parse(text)
  {
    hide Find, Replace, Strip, ParseScalar, SplitLines, ReadLine;
    var lines := SplitLines(text);
    var root := Map(map[]);
    var stack := [Frame(-1, [])];
    StartIsGood();
    for i := 0 to |lines|
      invariant Good(State(root, stack))
      invariant Run(START, lines) == Run(State(root, stack), lines[i..])
    {
      ghost var before := State(root, stack);
      assert lines[i..][0] == lines[i] && lines[i..][1..] == lines[i + 1..];
      var line := ReadLine(lines[i]);
      if line.Invalid? { return None; }
      if line.Entry? {
        PopKeepsGood(before, line.indent);
        while stack != [] && line.indent <= stack[|stack| - 1].indent
          invariant PopTo(stack, line.indent) == PopTo(before.stack, line.indent)
          decreases |stack|
        {
          stack := stack[..|stack| - 1];
        }
        var path := stack[|stack| - 1].path;
        if Strip(line.value) == "" {
          root := Assign(root, path, line.key, Map(map[]));
          stack := stack + [Frame(line.indent, path + [line.key])];
        } else {
          root := Assign(root, path, line.key, ParseScalar(line.value));
        }
        StepKeepsGood(before, line);
      }
    }
    return Some(root);
  }

  /** The file is refused exactly when a line that is neither blank nor a comment
      has no colon. */
  lemma {:induction false} RefusedExactly(s: State, lines: seq<string>)
    requires Good(s)
    ensures Run(s, lines).None? <==> exists i :: 0 <= i < |lines| && ReadLine(lines[i]).Invalid?
    decreases |lines|
  {
    if lines != [] {
      if ReadLine(lines[0]).Invalid? {
        assert Run(s, lines).None?;
      } else {
        StepKeepsGood(s, ReadLine(lines[0]));
        var next := Step(s, ReadLine(lines[0])).value;
        RefusedExactly(next, lines[1..]);
        assert forall i :: 1 <= i < |lines| ==> lines[1..][i - 1] == lines[i];
      }
    }
  }

  lemma {:induction false} RunConcat(s: State, a: seq<string>, b: seq<string>)
    requires Good(s)
    ensures Run(s, a + b) == match Run(s, a) { case None => None case Some(next) => Run(next, b) }
    decreases |a|
  {
    if a == [] {
      assert a + b == b;
    } else {
      assert (a + b)[1..] == a[1..] + b;
      if !ReadLine(a[0]).Invalid? {
        StepKeepsGood(s, ReadLine(a[0]));
        RunConcat(Step(s, ReadLine(a[0])).value, a[1..], b);
      }
    }
  }

  // ---- a printer ---------------------------------------------------------

  /** A configuration file as written: leaves, sections with their own indentation
      step, blank or comment lines, and a trailing comment anywhere. */
  datatype Item =
    | Noise(line: string)
    | Leaf(key: string, value: Value, trail: string)
    | Section(key: string, trail: string, step: nat, items: seq<Item>)

  function Spaces(n: nat): (s: string)
    ensures |s| == n && forall i :: 0 <= i < n ==> s[i] == ' '
  {
    if n == 0 then "" else " " + Spaces(n - 1)
  }

  function Join(parts: seq<string>): string {
    if parts == [] then "" else if |parts| == 1 then parts[0] else parts[0] + "," + Join(parts[1..])
  }

  function PrintScalar(v: Value): string {
    match v
    case Int(n) => PrintInt(n)
    case Bool(b) => if b then "true" else "false"
    case Str(s) => "\"" + s + "\""
    case List(parts) => "[" + Join(parts) + "]"
    case Map(_) => ""
  }

  /** What a list part must be to survive the splitting and stripping. */
  predicate PlainPart(p: string) {
    && OneLine(p) && Without(p, '#') && Without(p, ',') && Trimmed(p)
    && (p != "" ==> !IsQuote(p[0]) && !IsQuote(p[|p| - 1]))
  }

  /** Not too many digits for `int`. */
  predicate Readable(n: int) { |Decimal(if n < 0 then -n else n)| <= 4300 }

  predicate IsLeafValue(v: Value) {
    match v
    case Int(n) => Readable(n)
    case Bool(_) => true
    case Str(s) => OneLine(s) && Without(s, '#')
    case List(parts) => parts != [""] && forall i :: 0 <= i < |parts| ==> PlainPart(parts[i])
    case Map(_) => false
  }

  predicate IsKey(key: string) {
    OneLine(key) && Without(key, '#') && Without(key, ':') && (key != "" ==> !IsSpace(key[0]))
  }

  /** Nothing, or spaces and a comment. */
  predicate IsTrail(t: string) { OneLine(t) && AllSpace(Before(t, '#')) }

  predicate IsItem(item: Item) {
    match item
    case Noise(line) => IsTrail(line)
    case Leaf(key, value, trail) => IsKey(key) && IsLeafValue(value) && IsTrail(trail)
    case Section(key, trail, step, items) => IsKey(key) && IsTrail(trail) && step > 0 && AreItems(items)
  }

  predicate AreItems(items: seq<Item>) { forall i :: 0 <= i < |items| ==> IsItem(items[i]) }

  function PrintItem(indent: nat, item: Item): seq<string>
    decreases item
  {
    match item
    case Noise(line) => [line]
    case Leaf(key, value, trail) => [Spaces(indent) + (key + ":" + (" " + PrintScalar(value))) + trail]
    case Section(key, trail, step, items) =>
      [Spaces(indent) + (key + ":" + "") + trail] + PrintItems(indent + step, items)
  }

  function PrintItems(indent: nat, items: seq<Item>): seq<string>
    decreases items
  {
    if items == [] then [] else PrintItem(indent, items[0]) + PrintItems(indent, items[1..])
  }

  /** What the items mean for a map that already holds `fields`: a later line wins. */
  function Meaning(fields: map<string, Value>, items: seq<Item>): map<string, Value>
    decreases items
  {
    if items == [] then fields else Meaning(Assigned(fields, items[0]), items[1..])
  }

  function Assigned(fields: map<string, Value>, item: Item): map<string, Value>
    decreases item
  {
    match item
    case Noise(_) => fields
    case Leaf(key, value, _) => fields[key := value]
    case Section(key, _, _, inner) => fields[key := Map(Meaning(map[], inner))]
  }

  function JoinLines(lines: seq<string>): string {
    if lines == [] then "" else lines[0] + "\n" + JoinLines(lines[1..])
  }

  // ---- reading a printed scalar ------------------------------------------

  predicate Ends(s: string) { s != "" && !IsSpace(s[0]) && !IsSpace(s[|s| - 1]) }

  lemma {:induction false} NumeralUngrouped(s: string)
    requires IsNumeral(s)
    ensures IsGrouped(s) && DropUnderscores(s) == s
  {
    assert s[|s| - 1] != '_';
    if |s| > 1 {
      NumeralUngrouped(s[1..]);
      assert s == [s[0]] + s[1..];
    } else {
      assert s[1..] == "";
      assert s == [s[0]];
    }
  }

  lemma NaturalReadsBack(n: nat)
    ensures IsNumeral(Decimal(n))
    ensures ParseNatural(Decimal(n)) == if Readable(n) then Some(n) else None
  {
    DecimalReadsBack(n);
    NumeralUngrouped(Decimal(n));
    hide Decimal, IsGrouped, DropUnderscores, NumeralValue, IsNumeral;
  }

  lemma ParsePrintInt(n: int)
    ensures ParseInt(PrintInt(n)) == if Readable(n) then Some(n) else None
    ensures var s := PrintInt(n); s != "" && '0' <= s[|s| - 1] <= '9'
    ensures forall i :: 0 <= i < |PrintInt(n)| ==> PrintInt(n)[i] == '-' || '0' <= PrintInt(n)[i] <= '9'
  {
    hide Decimal, ParseNatural, IsGrouped;
    var digits := Decimal(if n < 0 then -n else n);
    NaturalReadsBack(if n < 0 then -n else n);
    if n < 0 { assert PrintInt(n)[1..] == digits; }
  }

  lemma Unstripped(s: string)
    requires Ends(s)
    ensures Strip(s) == s
  {
    hide Strip;
    StripDrops("", s);
    assert "" + s == s;
  }

  lemma ParsePlainPart(p: string)
    requires PlainPart(p)
    ensures ParsePart(p) == p
  {
    hide Strip;
    StripDrops("", p);
    assert "" + p == p;
  }

  /** A word that a configuration line can hold after the colon. */
  predicate Plain(s: string) { OneLine(s) && Without(s, '#') }

  lemma PartFacts(p: string)
    requires PlainPart(p)
    ensures Plain(p) && Without(p, ',') && Trimmed(p)
  {
  }

  lemma {:induction false} ParseJoined(parts: seq<string>)
    requires parts != [] && forall i :: 0 <= i < |parts| ==> PlainPart(parts[i])
    ensures ParseParts(SplitOn(Join(parts), ',')) == parts
    decreases |parts|
  {
    hide ParsePart, SplitOn, PlainPart;
    var p := parts[0];
    ParsePlainPart(p);
    PartFacts(p);
    if |parts| == 1 {
      SplitFirst(p, ',', "");
      assert [p][1..] == [];
      assert parts == [p];
    } else {
      ParseJoined(parts[1..]);
      SplitFirst(p, ',', Join(parts[1..]));
      var rest := SplitOn(Join(parts[1..]), ',');
      assert ([p] + rest)[1..] == rest;
      assert parts == [p] + parts[1..];
    }
  }

  lemma PlainConcat(a: string, b: string)
    requires Plain(a) && Plain(b)
    ensures Plain(a + b)
  {
  }

  lemma TrimmedJoin(p: string, rest: string)
    requires Trimmed(p) && Trimmed(rest)
    ensures Trimmed(p + "," + rest)
  {
    var s := p + "," + rest;
    assert p != "" ==> s[0] == p[0];
    assert rest != "" ==> s[|s| - 1] == rest[|rest| - 1];
  }

  lemma PlainComma()
    ensures Plain(",")
  {
  }

  lemma {:induction false} JoinedFacts(parts: seq<string>)
    requires parts != [] && forall i :: 0 <= i < |parts| ==> PlainPart(parts[i])
    ensures Plain(Join(parts)) && Trimmed(Join(parts))
    ensures parts != [""] ==> Join(parts) != ""
    decreases |parts|
  {
    hide PlainPart, Plain, Trimmed;
    PartFacts(parts[0]);
    if |parts| > 1 {
      JoinedFacts(parts[1..]);
      PlainComma();
      PlainConcat(parts[0], ",");
      PlainConcat(parts[0] + ",", Join(parts[1..]));
      TrimmedJoin(parts[0], Join(parts[1..]));
    }
  }

  /** The list a trimmed bracket text without blank ends stands for. */
  lemma ParseBrackets(inner: string)
    requires Trimmed(inner)
    ensures var s := "[" + inner + "]";
      ParseScalar(s) == if inner == "" then List([]) else List(ParseParts(SplitOn(inner, ',')))
  {
    hide Strip, ParseParts, SplitOn, ParseInt;
    var s := "[" + inner + "]";
    Unstripped(s);
    assert Inner(s) == inner;
    StripDrops("", inner);
    assert "" + inner == inner;
  }

  lemma PlainBrackets()
    ensures Plain("[") && Plain("]")
  {
  }

  lemma ParsePrintList(parts: seq<string>)
    requires IsLeafValue(List(parts))
    ensures Plain(PrintScalar(List(parts)))
    ensures ParseScalar(PrintScalar(List(parts))) == List(parts)
  {
    if parts == [] {
      ParseBrackets("");
    } else {
      hide PlainPart, ParseParts, SplitOn, ParseScalar, Plain, Join;
      JoinedFacts(parts);
      ParseJoined(parts);
      ParseBrackets(Join(parts));
      PlainBrackets();
      PlainConcat("[", Join(parts));
      PlainConcat("[" + Join(parts), "]");
    }
  }

  lemma ParseQuoted(text: string)
    ensures ParseScalar("\"" + text + "\"") == Str(text)
  {
    hide Strip, ParseParts, SplitOn, ParseInt;
    var s := "\"" + text + "\"";
    Unstripped(s);
    assert Inner(s) == text;
  }

  /** A printed integer is read back exactly when `int` takes that many digits; a longer
      one becomes a string. */
  lemma ParseNumber(n: int)
    ensures ParseScalar(PrintInt(n)) == if Readable(n) then Int(n) else Str(PrintInt(n))
    ensures Plain(PrintInt(n)) && Ends(PrintInt(n))
  {
    hide Strip, ParseParts, SplitOn, ParseInt, PrintInt, Readable;
    ParsePrintInt(n);
    var s := PrintInt(n);
    assert s[0] == '-' || '0' <= s[0] <= '9';
    assert forall i :: 0 <= i < |s| ==> !IsBreak(s[i]) && s[i] != '#';
    Unstripped(s);
  }

  lemma ParseBool(b: bool)
    ensures ParseScalar(if b then "true" else "false") == Bool(b)
  {
    hide Strip, ParseParts, SplitOn, ParseInt;
    Unstripped("true");
    Unstripped("false");
  }

  /** A printed leaf is one trimmed word without a comment sign, and reads back. */
  lemma ParsePrintScalar(v: Value)
    requires IsLeafValue(v)
    ensures Ends(PrintScalar(v)) && Plain(PrintScalar(v))
    ensures ParseScalar(PrintScalar(v)) == v
  {
    hide ParseScalar, PrintInt;
    match v
    case Int(n) => ParseNumber(n);
    case Bool(b) => ParseBool(b);
    case Str(text) => ParseQuoted(text);
    case List(parts) => ParsePrintList(parts);
  }

  // ---- reading a printed line --------------------------------------------

  lemma {:induction false} LeadingSpacesOf(n: nat, body: string)
    requires body != "" && body[0] != ' '
    ensures LeadingSpaces(Spaces(n) + body) == n
  {
    if n == 0 {
      assert Spaces(0) + body == body;
    } else {
      LeadingSpacesOf(n - 1, body);
      assert (Spaces(n) + body)[1..] == Spaces(n - 1) + body;
    }
  }

  /** What follows the colon: nothing, or a blank and a word. */
  predicate IsRest(rest: string) { rest != "" ==> rest[0] == ' ' && Ends(rest[1..]) && Plain(rest) }

  lemma BodyFacts(key: string, rest: string)
    requires IsKey(key) && IsRest(rest)
    ensures var body := key + ":" + rest;
      Ends(body) && Without(body, '#') && !Without(body, ':') && Before(body, ':') == key && After(body, ':') == rest
  {
    var body := key + ":" + rest;
    assert body[|key|] == ':';
    assert body == key + (":" + rest);
    BeforeConcat(key, ":" + rest, ':');
    assert (":" + rest)[1..] == rest;
    assert key + "" == key;
    assert body[0] == if key == "" then ':' else key[0];
    assert body[|body| - 1] == if rest == "" then ':' else rest[1..][|rest| - 2];
  }

  /** A printed line is read as written: its indentation, key and value text. */
  lemma ReadPrinted(indent: nat, key: string, rest: string, trail: string)
    requires IsKey(key) && IsRest(rest) && IsTrail(trail)
    ensures ReadLine(Spaces(indent) + (key + ":" + rest) + trail) == Entry(indent, key, rest)
  {
    hide Before, After, Strip, StripRight, IsRest, IsKey, Spaces;
    var body := key + ":" + rest;
    BodyFacts(key, rest);
    var line := Spaces(indent) + body;
    BeforeConcat(line, trail, '#');
    StripRightDrops(line, Before(trail, '#'));
    assert AllSpace(Spaces(indent));
    StripDrops(Spaces(indent), body);
    LeadingSpacesOf(indent, body);
  }

  lemma ReadNoise(line: string)
    requires IsTrail(line)
    ensures ReadLine(line) == Skipped
  {
    hide Before, Strip, StripRight;
    var t := Before(line, '#');
    StripRightDrops("", t);
    assert "" + t == t;
    StripDrops("", "");
    assert "" + "" == "";
  }

  // ---- parsing what was printed ------------------------------------------

  lemma {:induction false} ReplaceTwice(v: Value, path: seq<string>, a: map<string, Value>, b: map<string, Value>)
    requires Find(v, path).Some?
    ensures Find(Replace(v, path, a), path).Some? && Replace(Replace(v, path, a), path, b) == Replace(v, path, b)
    decreases |path|
  {
    if path != [] {
      ReplaceTwice(v.fields[path[0]], path[1..], a, b);
    }
  }

  lemma {:induction false} ReplaceSame(v: Value, path: seq<string>)
    requires Find(v, path).Some?
    ensures Replace(v, path, Find(v, path).value) == v
    decreases |path|
  {
    if path != [] { ReplaceSame(v.fields[path[0]], path[1..]); }
  }

  /** Filling a child map is assigning it to its key. */
  lemma {:induction false} ReplaceChild(v: Value, path: seq<string>, key: string, fields: map<string, Value>)
    requires Find(v, path).Some? && key in Find(v, path).value && Find(v, path).value[key].Map?
    ensures Find(v, path + [key]).Some?
    ensures Replace(v, path + [key], fields) == Assign(v, path, key, Map(fields))
    decreases |path|
  {
    FindChild(v, path, key);
    if path == [] {
      assert ([] + [key])[1..] == [];
    } else {
      ReplaceChild(v.fields[path[0]], path[1..], key, fields);
      assert (path + [key])[1..] == path[1..] + [key];
    }
  }

  predicate AllFrom(frames: seq<Frame>, indent: nat) {
    forall i :: 0 <= i < |frames| ==> indent <= frames[i].indent
  }

  lemma {:induction false} PopsTo(base: seq<Frame>, above: seq<Frame>, indent: nat)
    requires base != [] && base[|base| - 1].indent < indent && AllFrom(above, indent)
    ensures PopTo(base + above, indent) == base
    decreases |above|
  {
    if above == [] {
      assert base + above == base;
    } else {
      assert (base + above)[..|base + above| - 1] == base + above[..|above| - 1];
      PopsTo(base, above[..|above| - 1], indent);
    }
  }

  /** The state reached once items are read into the section at the end of `base`;
      sections the items opened are still on the stack. */
  function Filled(root: Value, base: seq<Frame>, fields: map<string, Value>, above: seq<Frame>): State
    requires base != [] && Find(root, base[|base| - 1].path).Some?
  {
    State(Replace(root, base[|base| - 1].path, fields), base + above)
  }

  lemma RunOne(s: State, line: string)
    requires Good(s)
    ensures Run(s, [line]) == Step(s, ReadLine(line))
  {
    assert [line][1..] == [];
    if Step(s, ReadLine(line)).Some? { StepKeepsGood(s, ReadLine(line)); }
  }

  lemma LeafRest(w: string)
    requires Ends(w) && Plain(w)
    ensures IsRest(" " + w) && Strip(" " + w) == w != ""
    ensures ParseScalar(" " + w) == ParseScalar(w)
  {
    hide Strip, SplitOn, ParseParts, ParseInt;
    assert (" " + w)[1..] == w;
    StripDrops(" ", w);
    Unstripped(w);
  }

  lemma {:induction false} LeafParses(s: State, base: seq<Frame>, above: seq<Frame>, indent: nat, item: Item)
    requires Good(s) && s.stack == base + above && base != [] && base[|base| - 1].indent < indent
    requires AllFrom(above, indent) && item.Leaf? && IsItem(item)
    ensures Find(s.root, base[|base| - 1].path).Some?
    ensures Run(s, PrintItem(indent, item))
         == Some(Filled(s.root, base, Find(s.root, base[|base| - 1].path).value[item.key := item.value], []))
  {
    hide Good, IsLeafValue, PrintScalar, ReadLine, IsKey, IsTrail, Spaces, Replace, Find, ParseScalar, Strip;
    var rest := " " + PrintScalar(item.value);
    var line := Spaces(indent) + (item.key + ":" + rest) + item.trail;
    ParsePrintScalar(item.value);
    LeafRest(PrintScalar(item.value));
    ReadPrinted(indent, item.key, rest, item.trail);
    PopKeepsGood(s, indent);
    PopsTo(base, above, indent);
    GoodFinds(State(s.root, base));
    RunOne(s, line);
    assert base + [] == base;
  }

  lemma SectionOpens(s: State, base: seq<Frame>, above: seq<Frame>, indent: nat, item: Item)
    requires Good(s) && s.stack == base + above && base != [] && base[|base| - 1].indent < indent
    requires AllFrom(above, indent) && item.Section? && IsItem(item)
    ensures Find(s.root, base[|base| - 1].path).Some?
    ensures var path := base[|base| - 1].path;
      Run(s, [Spaces(indent) + (item.key + ":" + "") + item.trail])
      == Some(State(Assign(s.root, path, item.key, Map(map[])), base + [Frame(indent, path + [item.key])]))
  {
    hide Good, ReadLine, IsKey, IsTrail, Spaces, Replace, Find, AreItems;
    var line := Spaces(indent) + (item.key + ":" + "") + item.trail;
    ReadPrinted(indent, item.key, "", item.trail);
    PopKeepsGood(s, indent);
    PopsTo(base, above, indent);
    GoodFinds(State(s.root, base));
    RunOne(s, line);
  }

  /** Filling the section just opened amounts to one assignment in its parent. */
  lemma SectionCloses(root: Value, path: seq<string>, key: string, fields: map<string, Value>)
    requires Find(root, path).Some?
    ensures var child := Assign(root, path, key, Map(map[]));
      && Find(child, path + [key]) == Some(map[])
      && Replace(child, path + [key], fields) == Assign(root, path, key, Map(fields))
  {
    hide Find, Replace;
    var before := Find(root, path).value;
    var child := Assign(root, path, key, Map(map[]));
    FindReplace(root, path, before[key := Map(map[])]);
    FindChild(child, path, key);
    ReplaceChild(child, path, key, fields);
    ReplaceTwice(root, path, before[key := Map(map[])], before[key := Map(fields)]);
    assert before[key := Map(map[])][key := Map(fields)] == before[key := Map(fields)];
  }

  lemma BaseFinds(s: State, base: seq<Frame>, above: seq<Frame>, indent: nat)
    requires Good(s) && s.stack == base + above && base != [] && base[|base| - 1].indent < indent
    requires AllFrom(above, indent)
    ensures Good(State(s.root, base)) && Find(s.root, base[|base| - 1].path).Some?
  {
    hide Good, Find;
    PopKeepsGood(s, indent);
    PopsTo(base, above, indent);
    GoodFinds(State(s.root, base));
  }

  lemma NoiseSkipped(s: State, line: string)
    requires Good(s) && IsTrail(line)
    ensures Run(s, [line]) == Some(s)
  {
    hide Good, IsTrail;
    ReadNoise(line);
    RunOne(s, line);
  }

  lemma {:induction false} ItemParses(s: State, base: seq<Frame>, above: seq<Frame>, indent: nat, item: Item)
    returns (left: seq<Frame>)
    requires Good(s) && s.stack == base + above && base != [] && base[|base| - 1].indent < indent
    requires AllFrom(above, indent) && IsItem(item)
    ensures AllFrom(left, indent) && Find(s.root, base[|base| - 1].path).Some?
    ensures Run(s, PrintItem(indent, item))
         == Some(Filled(s.root, base, Assigned(Find(s.root, base[|base| - 1].path).value, item), left))
    decreases item
  {
    hide Good, Run, IsKey, IsLeafValue, IsTrail, Spaces, Replace, Find, Meaning, PrintItems, PrintScalar, Step;
    var path := base[|base| - 1].path;
    BaseFinds(s, base, above, indent);
    match item
    case Noise(line) =>
      left := above;
      NoiseSkipped(s, line);
      ReplaceSame(s.root, path);
    case Leaf(_, _, _) =>
      left := [];
      LeafParses(s, base, above, indent, item);
    case Section(key, trail, step, inner) =>
      SectionOpens(s, base, above, indent, item);
      var head := [Spaces(indent) + (key + ":" + "") + trail];
      var frame := Frame(indent, path + [key]);
      var inside := State(Assign(s.root, path, key, Map(map[])), base + [frame]);
      SectionCloses(s.root, path, key, Meaning(map[], inner));
      assert base + [frame] == base + [frame] + [];
      assert Good(inside);
      var deeper := ItemsParse(inside, base + [frame], [], indent + step, inner);
      left := [frame] + deeper;
      RunConcat(s, head, PrintItems(indent + step, inner));
      ConcatAssociative(base, [frame], deeper);
  }

  lemma RunNothing(s: State)
    requires Good(s)
    ensures Run(s, []) == Some(s)
  {
  }

  /** Items printed deeper than the section at the end of `base` are read into it. */
  lemma {:induction false} ItemsParse(s: State, base: seq<Frame>, above: seq<Frame>, indent: nat, items: seq<Item>)
    returns (left: seq<Frame>)
    requires Good(s) && s.stack == base + above && base != [] && base[|base| - 1].indent < indent
    requires AllFrom(above, indent) && AreItems(items)
    ensures AllFrom(left, indent) && Find(s.root, base[|base| - 1].path).Some?
    ensures Run(s, PrintItems(indent, items))
         == Some(Filled(s.root, base, Meaning(Find(s.root, base[|base| - 1].path).value, items), left))
    decreases items
  {
    hide Good, Run, IsItem, Replace, Find, PrintItem, Assigned, Step;
    var path := base[|base| - 1].path;
    BaseFinds(s, base, above, indent);
    if items == [] {
      left := above;
      ReplaceSame(s.root, path);
      RunNothing(s);
    } else {
      var between := ItemParses(s, base, above, indent, items[0]);
      var fields := Assigned(Find(s.root, path).value, items[0]);
      var next := Filled(s.root, base, fields, between);
      FindReplace(s.root, path, fields);
      left := ItemsParse(next, base, between, indent, items[1..]);
      ReplaceTwice(s.root, path, fields, Meaning(fields, items[1..]));
      RunConcat(s, PrintItem(indent, items[0]), PrintItems(indent, items[1..]));
    }
  }

  // ---- whole files -------------------------------------------------------

  lemma {:induction false} FirstBreakAt(line: string, rest: string)
    requires OneLine(line)
    ensures FirstBreak(line + "\n" + rest) == |line|
  {
    var text := line + "\n" + rest;
    if line != "" {
      assert text[1..] == line[1..] + "\n" + rest;
      FirstBreakAt(line[1..], rest);
    }
  }

  lemma {:induction false} SplitJoined(lines: seq<string>)
    requires forall i :: 0 <= i < |lines| ==> OneLine(lines[i])
    ensures SplitLines(JoinLines(lines)) == lines
    decreases |lines|
  {
    if lines != [] {
      var rest := JoinLines(lines[1..]);
      var text := JoinLines(lines);
      FirstBreakAt(lines[0], rest);
      assert text[..|lines[0]|] == lines[0] && text[|lines[0]| + 1..] == rest;
      SplitJoined(lines[1..]);
      assert lines == [lines[0]] + lines[1..];
    }
  }

  predicate AllOneLine(lines: seq<string>) { forall i :: 0 <= i < |lines| ==> OneLine(lines[i]) }

  lemma OneLineConcat(a: string, b: string)
    requires OneLine(a) && OneLine(b)
    ensures OneLine(a + b)
  {
  }

  lemma PrintedLine(indent: nat, key: string, rest: string, trail: string)
    requires IsKey(key) && OneLine(rest) && IsTrail(trail)
    ensures OneLine(Spaces(indent) + (key + ":" + rest) + trail)
  {
    assert OneLine(Spaces(indent)) && OneLine(":");
    hide OneLine, Spaces;
    assert OneLine(key) && OneLine(trail);
    OneLineConcat(key, ":");
    OneLineConcat(key + ":", rest);
    OneLineConcat(Spaces(indent), key + ":" + rest);
    OneLineConcat(Spaces(indent) + (key + ":" + rest), trail);
  }

  lemma PlainWord(w: string)
    requires w == "" || Plain(w)
    ensures OneLine(w) && OneLine(" " + w)
  {
  }

  lemma {:induction false} ItemPrintsLines(indent: nat, item: Item)
    requires IsItem(item)
    ensures AllOneLine(PrintItem(indent, item))
    decreases item
  {
    hide IsKey, Spaces, PrintScalar, PrintItems, IsLeafValue, OneLine;
    match item
    case Noise(line) =>
    case Leaf(key, value, trail) =>
      ParsePrintScalar(value);
      PlainWord(PrintScalar(value));
      PrintedLine(indent, key, " " + PrintScalar(value), trail);
    case Section(key, trail, step, inner) =>
      PlainWord("");
      PrintedLine(indent, key, "", trail);
      ItemsPrintLines(indent + step, inner);
  }

  lemma {:induction false} ItemsPrintLines(indent: nat, items: seq<Item>)
    requires AreItems(items)
    ensures AllOneLine(PrintItems(indent, items))
    decreases items
  {
    hide IsItem, PrintItem, OneLine;
    if items != [] {
      ItemPrintsLines(indent, items[0]);
      ItemsPrintLines(indent, items[1..]);
    }
  }

  /** The parser reads back every printed file: whatever the indentation steps,
      comments and blank lines, the text means what its items mean. */
  lemma ParsePrint(items: seq<Item>)
    requires AreItems(items)
    ensures Parse(JoinLines(PrintItems(0, items))) == Some(Map(Meaning(map[], items)))
  {
    ItemsPrintLines(0, items);
    SplitJoined(PrintItems(0, items));
    hide PrintItems, Meaning, AreItems, JoinLines, SplitLines;
    assert START.stack == START.stack + [];
    var left := ItemsParse(START, START.stack, [], 0, items);
  }

  // ---- printing a tree of maps -------------------------------------------

  /** Nested maps, empty ones included, with keys and leaves that can be written. */
  predicate IsTree(v: Value)
    decreases v
  {
    v.Map? && forall k :: k in v.fields ==> IsKey(k) && (IsLeafValue(v.fields[k]) || IsTree(v.fields[k]))
  }

  function ItemFor(key: string, v: Value): Item
    decreases v, 1, 0
  {
    if v.Map? then Section(key, "", 2, ItemsFor(v, JsonValue.SortedKeys(v.fields.Keys))) else Leaf(key, v, "")
  }

  function ItemsFor(v: Value, keys: seq<string>): seq<Item>
    requires v.Map? && forall k :: k in keys ==> k in v.fields
    decreases v, 0, |keys|
  {
    if keys == [] then [] else [ItemFor(keys[0], v.fields[keys[0]])] + ItemsFor(v, keys[1..])
  }

  /** The text of a configuration tree, two spaces per level, keys in order. */
  function PrintTree(t: Value): string
    requires t.Map?
  {
    JoinLines(PrintItems(0, ItemsFor(t, JsonValue.SortedKeys(t.fields.Keys))))
  }

  lemma NoTrail()
    ensures IsTrail("")
  {
  }

  lemma NoLeafMap(v: Value)
    requires v.Map?
    ensures !IsLeafValue(v)
  {
  }

  lemma TreeChild(v: Value, key: string)
    requires IsTree(v) && key in v.fields
    ensures IsKey(key) && (IsLeafValue(v.fields[key]) || IsTree(v.fields[key]))
  {
    hide IsKey, IsLeafValue;
  }

  lemma OnlyMapsAreTrees(v: Value)
    requires !v.Map?
    ensures !IsTree(v)
  {
  }

  lemma {:induction false} ItemForMeans(key: string, v: Value, fields: map<string, Value>)
    requires IsKey(key) && (IsLeafValue(v) || IsTree(v))
    ensures IsItem(ItemFor(key, v)) && Assigned(fields, ItemFor(key, v)) == fields[key := v]
    decreases v, 2, 0
  {
    hide IsKey, IsLeafValue, IsTree, IsTrail, AreItems, Meaning, ItemsFor;
    NoTrail();
    if v.Map? {
      NoLeafMap(v);
      TreeMeans(v);
    } else {
      OnlyMapsAreTrees(v);
    }
  }

  function Only(v: Value, keys: seq<string>): map<string, Value>
    requires v.Map? && forall k :: k in keys ==> k in v.fields
  {
    map k | k in keys :: v.fields[k]
  }

  lemma EveryKey(v: Value, keys: seq<string>)
    requires v.Map? && forall k :: k in keys <==> k in v.fields
    ensures map[] + Only(v, keys) == v.fields
  {
  }

  /** The items of a tree mean the tree. */
  lemma {:induction false} TreeMeans(v: Value)
    requires IsTree(v) && v.Map?
    ensures AreItems(ItemsFor(v, JsonValue.SortedKeys(v.fields.Keys)))
    ensures Meaning(map[], ItemsFor(v, JsonValue.SortedKeys(v.fields.Keys))) == v.fields
    decreases v, 1, 0
  {
    hide IsTree, AreItems, Meaning, ItemsFor;
    var keys := JsonValue.SortedKeys(v.fields.Keys);
    ItemsForMean(v, keys, map[]);
    EveryKey(v, keys);
  }

  lemma NoItems(v: Value, fields: map<string, Value>)
    requires v.Map?
    ensures ItemsFor(v, []) == [] && AreItems([]) && Meaning(fields, []) == fields
    ensures fields + Only(v, []) == fields
  {
  }

  lemma FirstItem(v: Value, keys: seq<string>, fields: map<string, Value>)
    requires v.Map? && keys != [] && forall k :: k in keys ==> k in v.fields
    requires IsItem(ItemFor(keys[0], v.fields[keys[0]])) && AreItems(ItemsFor(v, keys[1..]))
    requires Assigned(fields, ItemFor(keys[0], v.fields[keys[0]])) == fields[keys[0] := v.fields[keys[0]]]
    ensures AreItems(ItemsFor(v, keys))
    ensures Meaning(fields, ItemsFor(v, keys))
         == Meaning(fields[keys[0] := v.fields[keys[0]]], ItemsFor(v, keys[1..]))
    ensures fields[keys[0] := v.fields[keys[0]]] + Only(v, keys[1..]) == fields + Only(v, keys)
  {
    hide IsItem, Assigned, ItemFor;
    var rest := ItemsFor(v, keys[1..]);
    assert ItemsFor(v, keys)[1..] == rest;
    assert forall k :: k in keys <==> k == keys[0] || k in keys[1..];
  }

  lemma {:induction false} ItemsForMean(v: Value, keys: seq<string>, fields: map<string, Value>)
    requires IsTree(v) && v.Map? && forall k :: k in keys ==> k in v.fields
    ensures AreItems(ItemsFor(v, keys))
    ensures Meaning(fields, ItemsFor(v, keys)) == fields + Only(v, keys)
    decreases v, 0, |keys|
  {
    hide *;
    if keys == [] {
      NoItems(v, fields);
    } else {
      var k := keys[0];
      TreeChild(v, k);
      ItemForMeans(k, v.fields[k], fields);
      ItemsForMean(v, keys[1..], fields[k := v.fields[k]]);
      FirstItem(v, keys, fields);
    }
  }

  /** `parse_simple_yaml` undoes the printer on every such tree. */
  lemma TreeRoundTrip(t: Value)
    requires IsTree(t)
    ensures t.Map? && Parse(PrintTree(t)) == Some(t)
  {
    hide Parse, PrintItems, Meaning, AreItems, JoinLines, ItemsFor;
    TreeMeans(t);
    ParsePrint(ItemsFor(t, JsonValue.SortedKeys(t.fields.Keys)));
  }

  // ---- what no leaf can hold ---------------------------------------------

  lemma {:induction false} BeforeLacks(s: string, c: char)
    ensures Without(Before(s, c), c)
  {
    if s != "" { BeforeLacks(s[1..], c); }
  }

  lemma {:induction false} PartsLack(s: string, c: char, d: char)
    requires Without(s, d)
    ensures Without(StripLeft(s), d) && Without(StripRight(s), d)
    ensures Without(After(s, c), d)
    decreases |s|
  {
    if s != "" {
      PartsLack(s[1..], c, d);
      PartsLack(s[..|s| - 1], c, d);
    }
  }

  /** The comment sign cannot be quoted: no string value ever contains one, so a
      quoted leaf comes back (as `ParsePrintScalar` states) only without it. */
  lemma NoStringHoldsHash(raw: string)
    requires ReadLine(raw).Entry? && ParseScalar(ReadLine(raw).value).Str?
    ensures Without(ParseScalar(ReadLine(raw).value).s, '#')
  {
    hide Before, After, StripLeft, StripRight, ParseParts, SplitOn, ParseInt;
    BeforeLacks(raw, '#');
    PartsLack(Before(raw, '#'), ':', '#');
    var line := StripRight(Before(raw, '#'));
    PartsLack(line, ':', '#');
    PartsLack(StripLeft(line), ':', '#');
    PartsLack(Strip(line), ':', '#');
    var value := ReadLine(raw).value;
    PartsLack(value, ':', '#');
    PartsLack(StripLeft(value), ':', '#');
  }

  /** For a one-line string the quoted leaf line reads back if and only if the
      string has no comment sign. */
  lemma QuotedReadsBackExactly(indent: nat, key: string, text: string)
    requires IsKey(key) && OneLine(text)
    ensures var line := ReadLine(Spaces(indent) + (key + ":" + (" " + PrintScalar(Str(text)))) + "");
      (line.Entry? && ParseScalar(line.value) == Str(text)) <==> Without(text, '#')
  {
    hide ReadLine, ParseScalar, Spaces, IsKey, IsTrail, Strip, Plain, PrintScalar;
    var raw := Spaces(indent) + (key + ":" + (" " + PrintScalar(Str(text)))) + "";
    if Without(text, '#') {
      NoTrail();
      ParsePrintScalar(Str(text));
      LeafRest(PrintScalar(Str(text)));
      ReadPrinted(indent, key, " " + PrintScalar(Str(text)), "");
    } else if ReadLine(raw).Entry? && ParseScalar(ReadLine(raw).value).Str? {
      NoStringHoldsHash(raw);
    }
  }
}
