/** Resource bounds for untrusted JSON text (`json_safety.py`): the nesting scanner
    that runs before parsing and the value-count loop that runs after it. */
module JsonSafety {
  import opened Common
  import JsonValue

  const MAX_JSON_NESTING := 64
  const MAX_JSON_NODES := 20000

  // ---- the nesting scanner -----------------------------------------------

  datatype Scanner = Scanner(depth: int, inString: bool, escaped: bool)

  const START := Scanner(0, false, false)

  predicate Opens(c: char) { c == '{' || c == '[' }

  predicate Closes(c: char) { c == '}' || c == ']' }

  function Next(s: Scanner, c: char): Scanner {
    if s.inString then
      if s.escaped then s.(escaped := false)
      else if c == '\\' then s.(escaped := true)
      else if c == '"' then s.(inString := false)
      else s
    else if c == '"' then s.(inString := true)
    else if Opens(c) then s.(depth := s.depth + 1)
    else if Closes(c) then s.(depth := s.depth - 1)
    else s
  }

  function Scan(s: Scanner, text: string): Scanner
    decreases |text|
  {
    if text == "" then s else Scan(Next(s, text[0]), text[1..])
  }

  /** The greatest depth the scanner sees on `text`, its starting depth included. */
  function Peak(s: Scanner, text: string): (p: int)
    ensures p >= s.depth
    decreases |text|
  {
    if text == "" then s.depth else Max(s.depth, Peak(Next(s, text[0]), text[1..]))
  }

  lemma {:induction false} ScanConcat(s: Scanner, a: string, b: string)
    ensures Scan(s, a + b) == Scan(Scan(s, a), b)
    ensures Peak(s, a + b) == Max(Peak(s, a), Peak(Scan(s, a), b))
    decreases |a|
  {
    if a == "" {
      assert a + b == b;
    } else {
      assert (a + b)[1..] == a[1..] + b;
      ScanConcat(Next(s, a[0]), a[1..], b);
    }
  }

  /** `validate_json_nesting`: one pass, stopping at the first bracket too deep. */
  method ValidateNesting(text: string) returns (ok: bool)
    ensures ok <==> Peak(START, text) <= 64
  {
    var depth, inString, escaped := 0, false, false;
    for i := 0 to |text|
      invariant depth <= MAX_JSON_NESTING
      invariant Peak(START, text) <= MAX_JSON_NESTING
           <==> Peak(Scanner(depth, inString, escaped), text[i..]) <= MAX_JSON_NESTING
    {
      var c := text[i];
      assert text[i..][0] == c && text[i..][1..] == text[i + 1..];
      if inString {
        if escaped {
          escaped := false;
        } else if c == '\\' {
          escaped := true;
        } else if c == '"' {
          inString := false;
        }
      } else if c == '"' {
        inString := true;
      } else if Opens(c) {
        depth := depth + 1;
        if depth > MAX_JSON_NESTING { return false; }
      } else if Closes(c) {
        depth := depth - 1;
      }
    }
    return true;
  }

  // ---- JSON text (RFC 8259) ----------------------------------------------

  /** One character of a string as written, section 7 of RFC 8259. */
  datatype Piece = Plain(c: char) | Escape(c: char) | Unicode(h0: char, h1: char, h2: char, h3: char)

  /** A JSON text as written: the values with their whitespace.  `Spaced` puts
      whitespace around a value, `pad` is the whitespace inside an empty container. */
  datatype Doc =
    | Literal(text: string)
    | Quoted(pieces: seq<Piece>)
    | Array(pad: string, items: seq<Doc>)
    | Object(pad: string, members: seq<Member>)
    | Spaced(before: string, value: Doc, after: string)

  datatype Member = Member(before: string, key: seq<Piece>, after: string, value: Doc)

  predicate IsHex(c: char) { '0' <= c <= '9' || 'a' <= c <= 'f' || 'A' <= c <= 'F' }

  predicate IsPiece(p: Piece) {
    match p
    case Plain(c) => c >= ' ' && c != '"' && c != '\\'
    case Escape(c) => c in "\"\\/bfnrt"
    case Unicode(h0, h1, h2, h3) => IsHex(h0) && IsHex(h1) && IsHex(h2) && IsHex(h3)
  }

  predicate IsString(pieces: seq<Piece>) { forall i :: 0 <= i < |pieces| ==> IsPiece(pieces[i]) }

  predicate IsWhitespace(s: string) { forall i :: 0 <= i < |s| ==> s[i] in " \t\n\r" }

  /** A number, or one of the three literal names: no quote, bracket or backslash. */
  predicate IsLiteral(s: string) {
    || s in {"true", "false", "null"}
    || (s != "" && forall i :: 0 <= i < |s| ==> '0' <= s[i] <= '9' || s[i] in "+-.eE")
  }

  predicate WellFormed(d: Doc) {
    match d
    case Literal(text) => IsLiteral(text)
    case Quoted(pieces) => IsString(pieces)
    case Array(pad, items) => IsWhitespace(pad) && forall i :: 0 <= i < |items| ==> WellFormed(items[i])
    case Object(pad, members) =>
      && IsWhitespace(pad)
      && forall i :: 0 <= i < |members| ==>
           && IsWhitespace(members[i].before) && IsString(members[i].key)
           && IsWhitespace(members[i].after) && WellFormed(members[i].value)
    case Spaced(before, value, after) => IsWhitespace(before) && WellFormed(value) && IsWhitespace(after)
  }

  function PrintPiece(p: Piece): string {
    match p
    case Plain(c) => [c]
    case Escape(c) => ['\\', c]
    case Unicode(h0, h1, h2, h3) => ['\\', 'u', h0, h1, h2, h3]
  }

  function PrintPieces(pieces: seq<Piece>): string {
    if pieces == [] then "" else PrintPiece(pieces[0]) + PrintPieces(pieces[1..])
  }

  function PrintString(pieces: seq<Piece>): string { "\"" + PrintPieces(pieces) + "\"" }

  function Print(d: Doc): string {
    match d
    case Literal(text) => text
    case Quoted(pieces) => PrintString(pieces)
    case Array(pad, items) => "[" + (if items == [] then pad else PrintItems(items)) + "]"
    case Object(pad, members) => "{" + (if members == [] then pad else PrintMembers(members)) + "}"
    case Spaced(before, value, after) => before + Print(value) + after
  }

  function PrintItems(items: seq<Doc>): string
    requires items != []
  {
    Print(items[0]) + if |items| == 1 then "" else "," + PrintItems(items[1..])
  }

  function PrintMember(m: Member): string {
    m.before + PrintString(m.key) + m.after + ":" + Print(m.value)
  }

  function PrintMembers(members: seq<Member>): string
    requires members != []
  {
    PrintMember(members[0]) + if |members| == 1 then "" else "," + PrintMembers(members[1..])
  }

  /** How many containers are nested at the deepest point of the value tree. */
  function Depth(d: Doc): nat {
    match d
    case Literal(_) => 0
    case Quoted(_) => 0
    case Array(_, items) => 1 + ItemsDepth(items)
    case Object(_, members) => 1 + MembersDepth(members)
    case Spaced(_, value, _) => Depth(value)
  }

  function ItemsDepth(items: seq<Doc>): nat {
    if items == [] then 0 else Max(Depth(items[0]), ItemsDepth(items[1..]))
  }

  function MembersDepth(members: seq<Member>): nat {
    if members == [] then 0 else Max(Depth(members[0].value), MembersDepth(members[1..]))
  }

  // ---- the scanner is exact on JSON text ---------------------------------

  function Outside(depth: int): Scanner { Scanner(depth, false, false) }

  /** `text` leaves a scanner outside strings where it was and takes it `deep` levels down. */
  ghost predicate Rises(text: string, deep: nat) {
    forall d: int :: Scan(Outside(d), text) == Outside(d) && Peak(Outside(d), text) == d + deep
  }

  lemma RisesConcat(a: string, i: nat, b: string, j: nat)
    requires Rises(a, i) && Rises(b, j)
    ensures Rises(a + b, Max(i, j))
  {
    forall d: int
      ensures Scan(Outside(d), a + b) == Outside(d) && Peak(Outside(d), a + b) == d + Max(i, j)
    {
      ScanConcat(Outside(d), a, b);
    }
  }

  predicate Neutral(c: char) { c != '"' && !Opens(c) && !Closes(c) }

  lemma {:induction false} NeutralText(text: string)
    requires forall i :: 0 <= i < |text| ==> Neutral(text[i])
    ensures Rises(text, 0)
  {
    forall d: int
      ensures Scan(Outside(d), text) == Outside(d) && Peak(Outside(d), text) == d
    {
      if text != "" { NeutralText(text[1..]); }
    }
  }

  lemma {:induction false} Brackets(open: char, inner: string, close: char, deep: nat)
    requires Opens(open) && Closes(close) && Rises(inner, deep)
    ensures Rises([open] + inner + [close], deep + 1)
  {
    var text := [open] + inner + [close];
    forall d: int
      ensures Scan(Outside(d), text) == Outside(d) && Peak(Outside(d), text) == d + deep + 1
    {
      assert text[0] == open && text[1..] == inner + [close];
      ScanConcat(Outside(d + 1), inner, [close]);
      assert [close][1..] == "" && [close][0] == close;
    }
  }

  function Inside(depth: int): Scanner { Scanner(depth, true, false) }

  lemma {:induction false} HexStaysInside(text: string, d: int)
    requires forall i :: 0 <= i < |text| ==> IsHex(text[i])
    ensures Scan(Inside(d), text) == Inside(d) && Peak(Inside(d), text) == d
  {
    if text != "" { HexStaysInside(text[1..], d); }
  }

  lemma PieceStaysInside(p: Piece, d: int)
    requires IsPiece(p)
    ensures Scan(Inside(d), PrintPiece(p)) == Inside(d) && Peak(Inside(d), PrintPiece(p)) == d
  {
    match p
    case Plain(c) =>
      assert [c][1..] == "";
    case Escape(c) =>
      assert ['\\', c][1..] == [c] && [c][1..] == "";
      assert Scan(Scanner(d, true, true), [c]) == Inside(d);
      assert Peak(Inside(d), "") == d && Peak(Scanner(d, true, true), [c]) == d;
    case Unicode(h0, h1, h2, h3) =>
      var text := ['\\', 'u', h0, h1, h2, h3];
      assert text[1..] == ['u', h0, h1, h2, h3] && text[1..][1..] == [h0, h1, h2, h3];
      HexStaysInside([h0, h1, h2, h3], d);
      assert Scan(Scanner(d, true, true), text[1..]) == Inside(d);
  }

  lemma {:induction false} PiecesStayInside(pieces: seq<Piece>, d: int)
    requires IsString(pieces)
    ensures Scan(Inside(d), PrintPieces(pieces)) == Inside(d) && Peak(Inside(d), PrintPieces(pieces)) == d
  {
    if pieces != [] {
      PieceStaysInside(pieces[0], d);
      PiecesStayInside(pieces[1..], d);
      ScanConcat(Inside(d), PrintPiece(pieces[0]), PrintPieces(pieces[1..]));
    }
  }

  lemma StringIsFlat(pieces: seq<Piece>)
    requires IsString(pieces)
    ensures Rises(PrintString(pieces), 0)
  {
    var text := PrintString(pieces);
    forall d: int
      ensures Scan(Outside(d), text) == Outside(d) && Peak(Outside(d), text) == d
    {
      assert text[0] == '"' && text[1..] == PrintPieces(pieces) + "\"";
      PiecesStayInside(pieces, d);
      ScanConcat(Inside(d), PrintPieces(pieces), "\"");
      assert "\""[1..] == "";
    }
  }

  lemma ContainerDepth(d: Doc)
    ensures d.Array? ==> Depth(d) == 1 + ItemsDepth(d.items)
    ensures d.Object? ==> Depth(d) == 1 + MembersDepth(d.members)
  {
  }

  /** Printing a value takes the scanner exactly as deep as the value is nested. */
  lemma {:induction false} PrintRises(d: Doc)
    requires WellFormed(d)
    ensures Rises(Print(d), Depth(d))
  {
    hide Rises, IsString, PrintString;
    match d
    case Literal(text) =>
      NeutralText(text);
    case Quoted(pieces) =>
      StringIsFlat(pieces);
    case Array(pad, items) =>
      hide Depth, PrintItems;
      if items == [] { NeutralText(pad); } else { ItemsRise(items); }
      Brackets('[', if items == [] then pad else PrintItems(items), ']', ItemsDepth(items));
      ContainerDepth(d);
    case Object(pad, members) =>
      hide Depth, PrintMembers;
      if members == [] { NeutralText(pad); } else { MembersRise(members); }
      Brackets('{', if members == [] then pad else PrintMembers(members), '}', MembersDepth(members));
      ContainerDepth(d);
    case Spaced(before, value, after) =>
      NeutralText(before);
      NeutralText(after);
      PrintRises(value);
      RisesConcat(before, 0, Print(value), Depth(value));
      RisesConcat(before + Print(value), Depth(value), after, 0);
  }

  lemma {:induction false} ItemsRise(items: seq<Doc>)
    requires items != [] && forall i :: 0 <= i < |items| ==> WellFormed(items[i])
    ensures Rises(PrintItems(items), ItemsDepth(items))
  {
    hide Rises, WellFormed;
    PrintRises(items[0]);
    if |items| == 1 {
      assert ItemsDepth(items[1..]) == 0;
      assert Print(items[0]) + "" == Print(items[0]);
    } else {
      ItemsRise(items[1..]);
      NeutralText(",");
      RisesConcat(",", 0, PrintItems(items[1..]), ItemsDepth(items[1..]));
      RisesConcat(Print(items[0]), Depth(items[0]), "," + PrintItems(items[1..]), ItemsDepth(items[1..]));
    }
  }

  lemma {:induction false} MemberRises(m: Member)
    requires IsWhitespace(m.before) && IsString(m.key) && IsWhitespace(m.after) && WellFormed(m.value)
    ensures Rises(PrintMember(m), Depth(m.value))
  {
    hide Rises, WellFormed, IsString, PrintString;
    NeutralText(m.before);
    StringIsFlat(m.key);
    NeutralText(m.after);
    NeutralText(":");
    PrintRises(m.value);
    RisesConcat(m.before, 0, PrintString(m.key), 0);
    RisesConcat(m.before + PrintString(m.key), 0, m.after, 0);
    RisesConcat(m.before + PrintString(m.key) + m.after, 0, ":", 0);
    RisesConcat(m.before + PrintString(m.key) + m.after + ":", 0, Print(m.value), Depth(m.value));
  }

  lemma {:induction false} MembersRise(members: seq<Member>)
    requires members != []
    requires forall i :: 0 <= i < |members| ==>
               && IsWhitespace(members[i].before) && IsString(members[i].key)
               && IsWhitespace(members[i].after) && WellFormed(members[i].value)
    ensures Rises(PrintMembers(members), MembersDepth(members))
  {
    hide Rises, WellFormed, IsString, IsWhitespace, PrintMember;
    var m := members[0];
    MemberRises(m);
    if |members| == 1 {
      assert MembersDepth(members[1..]) == 0;
      assert PrintMember(m) + "" == PrintMember(m);
    } else {
      MembersRise(members[1..]);
      NeutralText(",");
      RisesConcat(",", 0, PrintMembers(members[1..]), MembersDepth(members[1..]));
      RisesConcat(PrintMember(m), Depth(m.value), "," + PrintMembers(members[1..]), MembersDepth(members[1..]));
    }
  }

  /** The scanner is exact: a JSON text, in whatever layout and with whatever
      escapes, is accepted if and only if its value is at most 64 deep. */
  lemma NestingExact(d: Doc)
    requires WellFormed(d)
    ensures Peak(START, Print(d)) <= 64 <==> Depth(d) <= 64
  {
    PrintRises(d);
    assert START == Outside(0);
  }

  // ---- the value budget --------------------------------------------------

  /** How many values a decoded value holds, itself included. */
  function NodeCount(v: JsonValue.Value): nat
    decreases v, 1, 0
  {
    match v
    case Array(items) => 1 + NodeTotal(items)
    case Object(fields) => 1 + FieldTotal(v, JsonValue.SortedKeys(fields.Keys))
    case _ => 1
  }

  function NodeTotal(values: seq<JsonValue.Value>): nat
    decreases values, 0, 0
  {
    if values == [] then 0 else NodeCount(values[0]) + NodeTotal(values[1..])
  }

  function FieldTotal(v: JsonValue.Value, keys: seq<string>): nat
    requires v.Object? && forall k :: k in keys ==> k in v.fields
    decreases v, 0, |keys|
  {
    if keys == [] then 0 else NodeCount(v.fields[keys[0]]) + FieldTotal(v, keys[1..])
  }

  lemma {:induction false} TotalConcat(a: seq<JsonValue.Value>, b: seq<JsonValue.Value>)
    ensures NodeTotal(a + b) == NodeTotal(a) + NodeTotal(b)
    decreases |a|
  {
    if a == [] {
      assert a + b == b;
    } else {
      assert (a + b)[1..] == a[1..] + b;
      TotalConcat(a[1..], b);
    }
  }

  lemma {:induction false} FieldTotalIsTotal(v: JsonValue.Value, keys: seq<string>, values: seq<JsonValue.Value>)
    requires v.Object? && |keys| == |values|
    requires forall i :: 0 <= i < |keys| ==> keys[i] in v.fields && values[i] == v.fields[keys[i]]
    ensures FieldTotal(v, keys) == NodeTotal(values)
    decreases |keys|
  {
    if keys != [] { FieldTotalIsTotal(v, keys[1..], values[1..]); }
  }

  lemma CountPositive(v: JsonValue.Value)
    ensures NodeCount(v) >= 1
  {
  }

  lemma FieldsOf(v: JsonValue.Value)
    requires v.Object?
    ensures NodeTotal(JsonValue.FieldValues(v.fields)) == NodeCount(v) - 1
  {
    var keys := JsonValue.SortedKeys(v.fields.Keys);
    FieldTotalIsTotal(v, keys, JsonValue.FieldValues(v.fields));
  }

  /** `validate_json_node_budget`: a work stack, stopping at the first value too many. */
  method ValidateNodeBudget(value: JsonValue.Value) returns (ok: bool)
    ensures ok <==> NodeCount(value) <= 20_000
  {
    var nodes := 0;
    var pending := [value];
    assert pending[1..] == [];
    while pending != []
      invariant nodes <= MAX_JSON_NODES
      invariant nodes + NodeTotal(pending) == NodeCount(value)
      decreases NodeTotal(pending)
    {
      var current := pending[|pending| - 1];
      var rest := pending[..|pending| - 1];
      assert pending == rest + [current];
      TotalConcat(rest, [current]);
      assert [current][1..] == [] && NodeTotal([current]) == NodeCount(current);
      CountPositive(current);
      pending := rest;
      nodes := nodes + 1;
      if nodes > MAX_JSON_NODES { return false; }
      if current.Object? {
        var values := JsonValue.FieldValues(current.fields);
        FieldsOf(current);
        TotalConcat(rest, values);
        pending := rest + values;
      } else if current.Array? {
        TotalConcat(rest, current.items);
        pending := rest + current.items;
      }
    }
    return true;
  }

  /** `loads_bounded_json`; `decoded` is what the JSON library makes of the text,
      `None` where it raises. */
  method LoadsBounded(text: string, decoded: Option<JsonValue.Value>) returns (r: Option<JsonValue.Value>)
    ensures r == if decoded.Some? && Peak(START, text) <= 64
                                  && NodeCount(decoded.value) <= 20_000
                 then decoded else None
  {
    var shallow := ValidateNesting(text);
    if !shallow || decoded.None? { return None; }
    var small := ValidateNodeBudget(decoded.value);
    return if small then decoded else None;
  }
}
