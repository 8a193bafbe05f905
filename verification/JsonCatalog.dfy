/** The value-free JSON Pointer catalog of a raw alert: a stack-driven walk whose
    pointers must mean, under section 4 of RFC 6901, the nodes they describe. */
module JsonCatalog {
  import opened Common
  import opened Decimals
  import opened JsonValue
  import opened PyText

  // ---- JSON Pointer (RFC 6901) -------------------------------------------

  function ReplaceChar(s: string, c: char, sub: string): string {
    if s == "" then "" else (if s[0] == c then sub else [s[0]]) + ReplaceChar(s[1..], c, sub)
  }

  /** Replace every two-character sequence `~d`, left to right. */
  function ReplaceTilde(s: string, d: char, out: char): string
    decreases |s|
  {
    if s == "" then ""
    else if |s| >= 2 && s[0] == '~' && s[1] == d then [out] + ReplaceTilde(s[2..], d, out)
    else [s[0]] + ReplaceTilde(s[1..], d, out)
  }

  /** How the catalog writes a reference token: `~` first, then `/`. */
  function Escape(token: string): string {
    ReplaceChar(ReplaceChar(token, '~', "~0"), '/', "~1")
  }

  /** How section 4 of RFC 6901 reads one: `~1` first, then `~0`. */
  function Unescape(token: string): string {
    ReplaceTilde(ReplaceTilde(token, '1', '/'), '0', '~')
  }

  function Split(s: string): (r: seq<string>)
    ensures r != []
  {
    SplitOn(s, '/')
  }

  function UnescapeAll(tokens: seq<string>): seq<string> {
    if tokens == [] then [] else [Unescape(tokens[0])] + UnescapeAll(tokens[1..])
  }

  /** Array indices carry no leading zeros (section 4 of RFC 6901). */
  predicate IsArrayIndex(token: string) {
    IsNumeral(token) && (|token| == 1 || token[0] != '0')
  }

  /** The value that `path` reaches from `v`, one decoded reference token per level. */
  function Walk(v: Value, path: seq<string>): Option<Value>
    decreases |path|
  {
    if path == [] then Some(v)
    else if v.Object? && path[0] in v.fields then Walk(v.fields[path[0]], path[1..])
    else if v.Array? && IsArrayIndex(path[0]) && NumeralValue(path[0]) < |v.items| then
      Walk(v.items[NumeralValue(path[0])], path[1..])
    else None
  }

  function Evaluate(v: Value, pointer: string): Option<Value> {
    if pointer == "" then Some(v)
    else if pointer[0] != '/' then None
    else Walk(v, UnescapeAll(Split(pointer[1..])))
  }

  function PointerOf(path: seq<string>): string {
    if path == [] then "" else "/" + Escape(path[0]) + PointerOf(path[1..])
  }

  /** Every `~` is followed by a `0`. */
  predicate TildesClosed(s: string) {
    forall i :: 0 <= i < |s| && s[i] == '~' ==> i + 1 < |s| && s[i + 1] == '0'
  }

  lemma {:induction false} TildesFirst(s: string)
    ensures TildesClosed(ReplaceChar(s, '~', "~0"))
    ensures ReplaceTilde(ReplaceChar(s, '~', "~0"), '0', '~') == s
  {
    if s != "" {
      TildesFirst(s[1..]);
      var rest := ReplaceChar(s[1..], '~', "~0");
      var whole := ReplaceChar(s, '~', "~0");
      if s[0] == '~' {
        assert whole[2..] == rest && whole[0] == '~' && whole[1] == '0';
        assert forall i :: 2 <= i < |whole| ==> whole[i] == rest[i - 2];
      } else {
        assert whole[1..] == rest;
        assert forall i :: 1 <= i < |whole| ==> whole[i] == rest[i - 1];
      }
      assert s == [s[0]] + s[1..];
    }
  }

  lemma {:induction false} SlashesThen(s: string)
    requires TildesClosed(s)
    ensures ReplaceTilde(ReplaceChar(s, '/', "~1"), '1', '/') == s
    decreases |s|
  {
    if s != "" {
      assert forall i :: 0 <= i < |s| - 1 ==> s[1..][i] == s[i + 1];
      assert TildesClosed(s[1..]);
      SlashesThen(s[1..]);
      var rest := ReplaceChar(s[1..], '/', "~1");
      var whole := ReplaceChar(s, '/', "~1");
      if s[0] == '/' {
        assert whole[2..] == rest;
      } else {
        assert whole[1..] == rest;
        if s[0] == '~' {
          assert s[1..] != "" && s[1..][0] == '0';
          assert rest[0] == '0';
        }
      }
      assert s == [s[0]] + s[1..];
    }
  }

  /** Reading undoes writing, so the escaping is injective. */
  lemma EscapeReadsBack(token: string)
    ensures Unescape(Escape(token)) == token
  {
    TildesFirst(token);
    SlashesThen(ReplaceChar(token, '~', "~0"));
  }

  lemma EscapeInjective(a: string, b: string)
    ensures Escape(a) == Escape(b) <==> a == b
  {
    EscapeReadsBack(a);
    EscapeReadsBack(b);
  }

  lemma {:induction false} EscapedHasNoSlash(s: string)
    ensures Without(ReplaceChar(s, '/', "~1"), '/')
  {
    if s != "" { EscapedHasNoSlash(s[1..]); }
  }

  function EscapeAll(path: seq<string>): (r: seq<string>)
    ensures |r| == |path|
  {
    if path == [] then [] else [Escape(path[0])] + EscapeAll(path[1..])
  }

  lemma PointerFirst(path: seq<string>)
    requires path != []
    ensures Without(Escape(path[0]), '/')
    ensures PointerOf(path) == "/" + (Escape(path[0]) + PointerOf(path[1..]))
    ensures EscapeAll(path) == [Escape(path[0])] + EscapeAll(path[1..])
    ensures |path| == 1 ==> PointerOf(path[1..]) == "" && EscapeAll(path[1..]) == []
  {
    EscapedHasNoSlash(ReplaceChar(path[0], '~', "~0"));
    hide Escape;
    ConcatAssociative("/", Escape(path[0]), PointerOf(path[1..]));
  }

  lemma {:induction false} SplitPointer(path: seq<string>)
    requires path != []
    ensures PointerOf(path)[0] == '/' && Split(PointerOf(path)[1..]) == EscapeAll(path)
    decreases |path|
  {
    hide PointerOf, SplitOn, Escape, EscapeAll, Without;
    PointerFirst(path);
    var first, rest := Escape(path[0]), PointerOf(path[1..]);
    assert PointerOf(path)[1..] == first + rest;
    if |path| == 1 {
      SplitFirst(first, '/', "");
      assert first + rest == first;
    } else {
      SplitPointer(path[1..]);
      PointerFirst(path[1..]);
      var tail := rest[1..];
      assert rest == "/" + tail;
      ConcatAssociative(first, "/", tail);
      SplitFirst(first, '/', tail);
    }
  }

  lemma {:induction false} UnescapeEscapeAll(path: seq<string>)
    ensures UnescapeAll(EscapeAll(path)) == path
  {
    hide Escape, Unescape;
    if path != [] {
      EscapeReadsBack(path[0]);
      var rest := EscapeAll(path[1..]);
      UnescapeEscapeAll(path[1..]);
      assert ([Escape(path[0])] + rest)[1..] == rest;
      assert path == [path[0]] + path[1..];
    }
  }

  /** The tokens of a printed path are the path. */
  lemma PointerReadsBack(path: seq<string>)
    requires path != []
    ensures PointerOf(path)[0] == '/'
    ensures UnescapeAll(Split(PointerOf(path)[1..])) == path
  {
    SplitPointer(path);
    UnescapeEscapeAll(path);
  }

  lemma PointerInjective(a: seq<string>, b: seq<string>)
    ensures PointerOf(a) == PointerOf(b) <==> a == b
  {
    if a != [] { PointerReadsBack(a); }
    if b != [] { PointerReadsBack(b); }
  }

  /** A printed path evaluates to the value the path reaches. */
  lemma PointerEvaluates(v: Value, path: seq<string>)
    ensures Evaluate(v, PointerOf(path)) == Walk(v, path)
  {
    if path != [] { PointerReadsBack(path); }
  }

  // ---- the nodes a catalog lists -----------------------------------------

  const MEMBERS_SHOWN := 200
  const ITEMS_SHOWN := 50

  datatype Child = Child(token: string, value: Value)

  /** The children the walk looks at: the first members by name, the first items. */
  function Children(v: Value): (r: seq<Child>)
    ensures !v.Object? && !v.Array? ==> r == []
  {
    match v
    case Object(fields) =>
      var keys := First(SortedKeys(fields.Keys), MEMBERS_SHOWN);
      seq(|keys|, i requires 0 <= i < |keys| => assert keys[i] in fields.Keys; Child(keys[i], fields[keys[i]]))
    case Array(items) =>
      seq(Min(|items|, ITEMS_SHOWN), i requires 0 <= i < |items| => Child(Decimal(i), items[i]))
    case _ => []
  }

  /** The walk looks at the first 50 items. */
  lemma ItemsAre(items: seq<Value>, i: nat)
    ensures |Children(Array(items))| == if |items| < 50 then |items| else 50
    ensures i < |Children(Array(items))| ==> Children(Array(items))[i] == Child(Decimal(i), items[i])
  {
    hide Decimal;
  }

  lemma MemberNames(fields: map<string, Value>)
    ensures var keys := SortedKeys(fields.Keys);
      && |keys| == |fields| && |Children(Object(fields))| == (if |keys| < 200 then |keys| else 200)
      && (forall i :: 0 <= i < |keys| ==> keys[i] in fields)
      && (forall i :: 0 <= i < |Children(Object(fields))| ==> Children(Object(fields))[i] == Child(keys[i], fields[keys[i]]))
  {
    hide SortedKeys, StringLeq;
    var keys := SortedKeys(fields.Keys);
    assert |fields| == |fields.Keys|;
    forall i | 0 <= i < |keys| ensures keys[i] in fields { assert keys[i] in keys; }
  }

  /** And at the first 200 members in the order of their names. */
  lemma MembersAre(fields: map<string, Value>, i: nat, name: string)
    requires i < |Children(Object(fields))|
    ensures |Children(Object(fields))| == if |fields| < 200 then |fields| else 200
    ensures var c := Children(Object(fields))[i]; c.token in fields && c.value == fields[c.token]
    ensures forall j :: 0 <= j < i ==>
      StringLeq(Children(Object(fields))[j].token, Children(Object(fields))[i].token)
      && Children(Object(fields))[j].token != Children(Object(fields))[i].token
    ensures name in fields && (forall j :: 0 <= j < |Children(Object(fields))| ==> Children(Object(fields))[j].token != name) ==>
      StringLeq(Children(Object(fields))[i].token, name)
  {
    MemberNames(fields);
    hide StringLeq, Children;
    var keys := SortedKeys(fields.Keys);
    if name in fields {
      var k :| 0 <= k < |keys| && keys[k] == name;
      if k < |Children(Object(fields))| { assert Children(Object(fields))[k].token == name; }
    }
  }

  datatype Node = Node(path: seq<string>, value: Value)

  function Below(token: string, nodes: seq<Node>): (r: seq<Node>)
    ensures |r| == |nodes|
    ensures forall i :: 0 <= i < |r| ==> r[i] == Node([token] + nodes[i].path, nodes[i].value)
  {
    seq(|nodes|, i requires 0 <= i < |nodes| => Node([token] + nodes[i].path, nodes[i].value))
  }

  /** The node itself, then its children's nodes in order, `levels` deep. */
  function Nodes(v: Value, levels: nat): (r: seq<Node>)
    ensures r != [] && r[0] == Node([], v)
    decreases levels, 1, 0
  {
    [Node([], v)] + if levels == 0 then [] else NodesOf(Children(v), levels)
  }

  function NodesOf(children: seq<Child>, levels: nat): seq<Node>
    requires levels > 0
    decreases levels, 0, |children|
  {
    if children == [] then []
    else Below(children[0].token, Nodes(children[0].value, levels - 1)) + NodesOf(children[1..], levels)
  }

  /** The path only goes through children that the walk looks at. */
  predicate Shown(v: Value, path: seq<string>)
    decreases |path|
  {
    path == [] || exists i :: 0 <= i < |Children(v)| && Children(v)[i].token == path[0]
                              && Shown(Children(v)[i].value, path[1..])
  }

  /** A path through the child reaches from `v` what the rest of it reaches from the child. */
  ghost predicate Leads(v: Value, c: Child) {
    forall path :: path != [] && path[0] == c.token ==> Walk(v, path) == Walk(c.value, path[1..])
  }

  lemma ChildrenLead(v: Value)
    ensures forall i :: 0 <= i < |Children(v)| ==> Leads(v, Children(v)[i])
  {
    forall i | 0 <= i < |Children(v)|
      ensures Leads(v, Children(v)[i])
    {
      if v.Array? { DecimalReadsBack(i); }
    }
  }

  ghost predicate DistinctTokens(children: seq<Child>) {
    forall i, j :: 0 <= i < j < |children| ==> children[i].token != children[j].token
  }

  lemma ChildrenDistinct(v: Value)
    ensures DistinctTokens(Children(v))
  {
    if v.Array? {
      forall i, j | 0 <= i < j < |Children(v)|
        ensures Children(v)[i].token != Children(v)[j].token
      {
        DecimalReadsBack(i);
        DecimalReadsBack(j);
      }
    }
  }

  lemma NodesOfFirst(children: seq<Child>, levels: nat)
    requires levels > 0 && children != []
    ensures NodesOf(children, levels)
         == Below(children[0].token, Nodes(children[0].value, levels - 1)) + NodesOf(children[1..], levels)
  {
  }

  /** The nodes of the first child come first, each one token further down. */
  lemma NodesOfAt(children: seq<Child>, levels: nat, k: nat)
    requires levels > 0 && k < |NodesOf(children, levels)|
    ensures children != []
    ensures var head := Nodes(children[0].value, levels - 1);
      if k < |head| then
        NodesOf(children, levels)[k] == Node([children[0].token] + head[k].path, head[k].value)
      else
        && k - |head| < |NodesOf(children[1..], levels)|
        && NodesOf(children, levels)[k] == NodesOf(children[1..], levels)[k - |head|]
  {
    NodesOfFirst(children, levels);
    hide Nodes, NodesOf;
  }

  lemma {:induction false} NodesWalk(v: Value, levels: nat, k: nat)
    requires k < |Nodes(v, levels)|
    ensures var n := Nodes(v, levels)[k];
      Walk(v, n.path) == Some(n.value) && |n.path| <= levels && (n.path == [] <==> k == 0)
    decreases levels, 1, 0
  {
    if k > 0 {
      ChildrenLead(v);
      NodesOfWalk(v, Children(v), levels, k - 1);
    }
  }

  lemma WalkDown(v: Value, c: Child, path: seq<string>)
    requires Leads(v, c)
    ensures Walk(v, [c.token] + path) == Walk(c.value, path)
  {
    assert ([c.token] + path)[1..] == path;
  }

  /** What `NodesWalk` says of a listed node. */
  ghost predicate Reached(v: Value, n: Node, levels: nat) {
    Walk(v, n.path) == Some(n.value) && 1 <= |n.path| <= levels
  }

  lemma {:induction false} NodesOfWalk(v: Value, children: seq<Child>, levels: nat, k: nat)
    requires levels > 0 && k < |NodesOf(children, levels)|
    requires forall c :: c in children ==> Leads(v, c)
    ensures Reached(v, NodesOf(children, levels)[k], levels)
    decreases levels, 0, |children|
  {
    hide NodesOf, Nodes, Walk, Leads;
    NodesOfAt(children, levels, k);
    var c := children[0];
    var head := Nodes(c.value, levels - 1);
    if k < |head| {
      NodesWalk(c.value, levels - 1, k);
      WalkDown(v, c, head[k].path);
    } else {
      NodesOfWalk(v, children[1..], levels, k - |head|);
    }
  }

  ghost predicate DistinctPaths(nodes: seq<Node>) {
    forall i, j :: 0 <= i < j < |nodes| ==> nodes[i].path != nodes[j].path
  }

  function Tokens(children: seq<Child>): set<string> { set c | c in children :: c.token }

  predicate StartsIn(nodes: seq<Node>, tokens: set<string>) {
    forall n :: n in nodes ==> n.path != [] && n.path[0] in tokens
  }

  lemma RootDistinct(v: Value, others: seq<Node>, tokens: set<string>)
    requires DistinctPaths(others) && StartsIn(others, tokens)
    ensures DistinctPaths([Node([], v)] + others)
  {
    forall i, j | 0 <= i < j < |others| + 1
      ensures ([Node([], v)] + others)[i].path != ([Node([], v)] + others)[j].path
    {
      if i == 0 { assert others[j - 1] in others; }
    }
  }

  lemma NodesRest(v: Value, levels: nat)
    requires levels > 0
    ensures Nodes(v, levels) == [Node([], v)] + NodesOf(Children(v), levels)
  {
  }

  lemma {:induction false} NodesDistinct(v: Value, levels: nat)
    ensures DistinctPaths(Nodes(v, levels))
    decreases levels, 1, 0
  {
    if levels > 0 {
      hide Children, NodesOf, Nodes, Tokens;
      NodesRest(v, levels);
      ChildrenDistinct(v);
      NodesOfDistinct(Children(v), levels);
      RootDistinct(v, NodesOf(Children(v), levels), Tokens(Children(v)));
    }
  }

  lemma NothingDistinct(levels: nat)
    requires levels > 0
    ensures DistinctPaths(NodesOf([], levels)) && StartsIn(NodesOf([], levels), Tokens([]))
  {
  }

  lemma TokensFirst(children: seq<Child>)
    requires children != [] && DistinctTokens(children)
    ensures DistinctTokens(children[1..])
    ensures Tokens(children) == {children[0].token} + Tokens(children[1..])
    ensures children[0].token !in Tokens(children[1..])
  {
    assert children == [children[0]] + children[1..];
  }

  lemma JoinDistinct(a: seq<Node>, s: set<string>, b: seq<Node>, t: set<string>)
    requires DistinctPaths(a) && StartsIn(a, s) && DistinctPaths(b) && StartsIn(b, t) && s !! t
    ensures DistinctPaths(a + b) && StartsIn(a + b, s + t)
  {
    forall i, j | 0 <= i < j < |a + b|
      ensures (a + b)[i].path != (a + b)[j].path
    {
      if i < |a| <= j {
        assert a[i] in a && b[j - |a|] in b;
      }
    }
  }

  lemma BelowDistinct(token: string, nodes: seq<Node>)
    requires DistinctPaths(nodes)
    ensures DistinctPaths(Below(token, nodes)) && StartsIn(Below(token, nodes), {token})
  {
    var head := Below(token, nodes);
    forall i, j | 0 <= i < j < |head|
      ensures head[i].path != head[j].path
    {
      assert head[i].path[1..] == nodes[i].path && head[j].path[1..] == nodes[j].path;
    }
  }

  lemma {:induction false} NodesOfDistinct(children: seq<Child>, levels: nat)
    requires levels > 0 && DistinctTokens(children)
    ensures DistinctPaths(NodesOf(children, levels)) && StartsIn(NodesOf(children, levels), Tokens(children))
    decreases levels, 0, |children|
  {
    hide *;
    if children == [] {
      NothingDistinct(levels);
    } else {
      var token, rest := children[0].token, children[1..];
      var inner := Nodes(children[0].value, levels - 1);
      NodesOfFirst(children, levels);
      NodesDistinct(children[0].value, levels - 1);
      TokensFirst(children);
      NodesOfDistinct(rest, levels);
      BelowDistinct(token, inner);
      JoinDistinct(Below(token, inner), {token}, NodesOf(rest, levels), Tokens(rest));
    }
  }

  lemma ShownFirst(v: Value, path: seq<string>) returns (i: nat)
    requires path != [] && Shown(v, path)
    ensures i < |Children(v)| && Children(v)[i].token == path[0] && Shown(Children(v)[i].value, path[1..])
  {
    i :| 0 <= i < |Children(v)| && Children(v)[i].token == path[0] && Shown(Children(v)[i].value, path[1..]);
  }

  lemma {:induction false} NodesComplete(v: Value, path: seq<string>, levels: nat) returns (k: nat)
    requires Shown(v, path) && |path| <= levels
    ensures k < |Nodes(v, levels)| && Nodes(v, levels)[k].path == path
    decreases levels, 1, 0
  {
    hide Shown, Children, NodesOf, Nodes;
    if path == [] { return 0; }
    var i := ShownFirst(v, path);
    NodesRest(v, levels);
    var at := NodesOfComplete(Children(v), i, path, levels);
    k := at + 1;
  }

  lemma NodesOfSize(children: seq<Child>, levels: nat)
    requires levels > 0 && children != []
    ensures |NodesOf(children, levels)|
         == |Nodes(children[0].value, levels - 1)| + |NodesOf(children[1..], levels)|
  {
    NodesOfFirst(children, levels);
  }

  lemma {:induction false} NodesOfComplete(children: seq<Child>, i: nat, path: seq<string>, levels: nat)
    returns (k: nat)
    requires 0 < |path| <= levels && i < |children|
    requires children[i].token == path[0] && Shown(children[i].value, path[1..])
    ensures k < |NodesOf(children, levels)| && NodesOf(children, levels)[k].path == path
    decreases levels, 0, |children|
  {
    hide *;
    NodesOfSize(children, levels);
    if i == 0 {
      k := NodesComplete(children[0].value, path[1..], levels - 1);
      NodesOfAt(children, levels, k);
      assert path == [path[0]] + path[1..];
    } else {
      k := NodesOfComplete(children[1..], i - 1, path, levels);
      k := k + |Nodes(children[0].value, levels - 1)|;
      NodesOfAt(children, levels, k);
    }
  }

  // ---- the catalog -------------------------------------------------------

  datatype Kind = NullKind | BooleanKind | NumberKind | StringKind | ArrayKind | ObjectKind

  function KindOf(v: Value): Kind {
    match v
    case Null => NullKind
    case Boolean(_) => BooleanKind
    case Number(_) => NumberKind
    case Text(_) => StringKind
    case Array(_) => ArrayKind
    case Object(_) => ObjectKind
  }

  /** `bytes` is `None` where the walk does not measure the item. */
  datatype Entry = Entry(pointer: string, kind: Kind, bytes: Option<nat>, items: Option<nat>)

  /** What the caller chose; `size` is the UTF-8 length of the rendered item. */
  datatype Options = Options(maxEntries: int, maxDepth: int, includeSizes: bool, size: Value -> nat)

  predicate Container(v: Value) { v.Object? || v.Array? }

  function Describe(o: Options, pointer: string, v: Value, depth: nat): Entry {
    Entry(pointer, KindOf(v),
          if o.includeSizes && (depth <= 1 || !Container(v)) then Some(o.size(v)) else None,
          match v
          case Array(items) => Some(|items|)
          case Object(fields) => Some(|fields|)
          case _ => None)
  }

  /** An entry measures scalars and what is at the top, if sizes are wanted, and counts what containers hold. */
  lemma EntryDescribes(o: Options, pointer: string, v: Value, depth: nat)
    ensures var e := Describe(o, pointer, v, depth);
      && e.pointer == pointer
      && (e.bytes == if o.includeSizes && (depth < 2 || v.Null? || v.Boolean? || v.Number? || v.Text?) then Some(o.size(v)) else None)
      && (e.items == if v.Array? then Some(|v.items|) else if v.Object? then Some(|v.fields|) else None)
  {
  }

  function Levels(o: Options, depth: nat): nat { if depth >= o.maxDepth then 0 else o.maxDepth - depth }

  /** The entries for `nodes`, whose paths start at `pointer`, `depth` levels down. */
  function Rendered(o: Options, pointer: string, depth: nat, nodes: seq<Node>): seq<Entry>
    decreases |nodes|
  {
    if nodes == [] then []
    else [Describe(o, pointer + PointerOf(nodes[0].path), nodes[0].value, depth + |nodes[0].path|)]
         + Rendered(o, pointer, depth, nodes[1..])
  }

  /** Every listed node but the root, in document order. */
  function Entries(o: Options, v: Value): seq<Entry> {
    Rendered(o, "", 0, Nodes(v, Levels(o, 0))[1..])
  }

  datatype Pending = Pending(pointer: string, item: Value, depth: nat)

  /** What is still to come from one work item, and from the whole stack, top first. */
  function Expand(o: Options, p: Pending): seq<Entry> {
    Rendered(o, p.pointer, p.depth,
             var nodes := Nodes(p.item, Levels(o, p.depth)); if p.pointer == "" then nodes[1..] else nodes)
  }

  function ExpandAll(o: Options, stack: seq<Pending>): seq<Entry> {
    if stack == [] then []
    else Expand(o, stack[|stack| - 1]) + ExpandAll(o, stack[..|stack| - 1])
  }

  lemma {:induction false} RenderedConcat(o: Options, pointer: string, depth: nat, a: seq<Node>, b: seq<Node>)
    ensures Rendered(o, pointer, depth, a + b) == Rendered(o, pointer, depth, a) + Rendered(o, pointer, depth, b)
    decreases |a|
  {
    if a == [] {
      assert a + b == b;
    } else {
      assert (a + b)[1..] == a[1..] + b;
      RenderedConcat(o, pointer, depth, a[1..], b);
    }
  }

  lemma PointerBelow(pointer: string, token: string, path: seq<string>)
    ensures pointer + PointerOf([token] + path) == pointer + "/" + Escape(token) + PointerOf(path)
  {
    assert ([token] + path)[1..] == path;
    hide Escape;
    ConcatAssociative(pointer, "/" + Escape(token), PointerOf(path));
    ConcatAssociative(pointer, "/", Escape(token));
  }

  lemma {:induction false} RenderedBelow(o: Options, pointer: string, depth: nat, token: string, nodes: seq<Node>)
    ensures Rendered(o, pointer, depth, Below(token, nodes))
         == Rendered(o, pointer + "/" + Escape(token), depth + 1, nodes)
    decreases |nodes|
  {
    hide Escape, Describe;
    if nodes != [] {
      RenderedBelow(o, pointer, depth, token, nodes[1..]);
      assert Below(token, nodes)[1..] == Below(token, nodes[1..]);
      PointerBelow(pointer, token, nodes[0].path);
    }
  }

  /** The work items pushed for `children`, the first child on top. */
  function Pushed(pointer: string, depth: nat, children: seq<Child>): (r: seq<Pending>)
    ensures |r| == |children|
    ensures forall i :: 0 <= i < |r| ==> r[i].pointer != ""
  {
    if children == [] then []
    else Pushed(pointer, depth, children[1..])
         + [Pending(pointer + "/" + Escape(children[0].token), children[0].value, depth + 1)]
  }

  lemma ExpandTop(o: Options, stack: seq<Pending>, top: Pending)
    ensures ExpandAll(o, stack + [top]) == Expand(o, top) + ExpandAll(o, stack)
  {
    assert (stack + [top])[..|stack|] == stack;
  }

  lemma PushedFirst(pointer: string, depth: nat, children: seq<Child>)
    requires children != []
    ensures Pushed(pointer, depth, children) == Pushed(pointer, depth, children[1..])
              + [Pending(pointer + "/" + Escape(children[0].token), children[0].value, depth + 1)]
  {
  }

  lemma ExpandInner(o: Options, p: Pending)
    requires p.pointer != "" && p.depth <= o.maxDepth
    ensures Expand(o, p) == Rendered(o, p.pointer, p.depth, Nodes(p.item, o.maxDepth - p.depth))
  {
    hide Nodes, Rendered;
  }

  lemma ExpandChild(o: Options, pointer: string, depth: nat, c: Child)
    requires depth < o.maxDepth
    ensures Expand(o, Pending(pointer + "/" + Escape(c.token), c.value, depth + 1))
         == Rendered(o, pointer, depth, Below(c.token, Nodes(c.value, o.maxDepth - depth - 1)))
  {
    hide *;
    RenderedBelow(o, pointer, depth, c.token, Nodes(c.value, o.maxDepth - depth - 1));
    assert |pointer + "/" + Escape(c.token)| > 0;
    ExpandInner(o, Pending(pointer + "/" + Escape(c.token), c.value, depth + 1));
  }

  lemma PushedNone(pointer: string, depth: nat)
    ensures Pushed(pointer, depth, []) == []
  {
  }

  lemma NodesOfNone(levels: nat)
    requires levels > 0
    ensures NodesOf([], levels) == []
  {
  }

  lemma RenderedNone(o: Options, pointer: string, depth: nat)
    ensures Rendered(o, pointer, depth, []) == []
  {
  }

  lemma {:induction false} ExpandPushed(o: Options, stack: seq<Pending>, pointer: string, depth: nat, children: seq<Child>)
    requires depth < o.maxDepth
    ensures ExpandAll(o, stack + Pushed(pointer, depth, children))
         == Rendered(o, pointer, depth, NodesOf(children, o.maxDepth - depth)) + ExpandAll(o, stack)
    decreases |children|
  {
    hide *;
    if children == [] {
      PushedNone(pointer, depth);
      assert stack + [] == stack;
      RenderedNone(o, pointer, depth);
      NodesOfNone(o.maxDepth - depth);
    } else {
      var levels := o.maxDepth - depth;
      var c := children[0];
      var top := Pending(pointer + "/" + Escape(c.token), c.value, depth + 1);
      NodesOfFirst(children, levels);
      ExpandPushed(o, stack, pointer, depth, children[1..]);
      ExpandChild(o, pointer, depth, c);
      RenderedConcat(o, pointer, depth, Below(c.token, Nodes(c.value, levels - 1)), NodesOf(children[1..], levels));
      var others := Pushed(pointer, depth, children[1..]);
      PushedFirst(pointer, depth, children);
      ConcatAssociative(stack, others, [top]);
      ExpandTop(o, stack + others, top);
      ConcatAssociative(Expand(o, top), Rendered(o, pointer, depth, NodesOf(children[1..], levels)), ExpandAll(o, stack));
    }
  }

  function Own(o: Options, p: Pending): seq<Entry> {
    if p.pointer == "" then [] else [Describe(o, p.pointer, p.item, p.depth)]
  }

  function Offspring(o: Options, p: Pending): seq<Child> {
    if p.depth < o.maxDepth then Children(p.item) else []
  }

  lemma NoOffspring(o: Options, p: Pending)
    requires p.depth >= o.maxDepth
    ensures Offspring(o, p) == []
  {
  }

  lemma RenderedFirst(o: Options, pointer: string, depth: nat, nodes: seq<Node>)
    requires nodes != [] && nodes[0].path == []
    ensures Rendered(o, pointer, depth, nodes)
         == [Describe(o, pointer, nodes[0].value, depth)] + Rendered(o, pointer, depth, nodes[1..])
  {
    hide Describe;
    assert pointer + PointerOf([]) == pointer;
  }

  lemma ExpandOwn(o: Options, p: Pending)
    ensures p.depth >= o.maxDepth ==> Expand(o, p) == Own(o, p)
    ensures p.depth < o.maxDepth ==>
      Expand(o, p) == Own(o, p) + Rendered(o, p.pointer, p.depth, NodesOf(Offspring(o, p), o.maxDepth - p.depth))
  {
    hide Rendered, Describe, PointerOf, Children, NodesOf;
    var nodes := Nodes(p.item, Levels(o, p.depth));
    RenderedFirst(o, p.pointer, p.depth, nodes);
    RenderedNone(o, p.pointer, p.depth);
    if p.depth < o.maxDepth { assert nodes[1..] == NodesOf(Offspring(o, p), o.maxDepth - p.depth); }
  }

  /** Popping a work item and pushing its children keeps everything still to come. */
  lemma ExpandPop(o: Options, stack: seq<Pending>, p: Pending)
    ensures ExpandAll(o, stack + [p])
         == Own(o, p) + ExpandAll(o, stack + Pushed(p.pointer, p.depth, Offspring(o, p)))
  {
    hide *;
    ExpandTop(o, stack, p);
    ExpandOwn(o, p);
    if p.depth >= o.maxDepth {
      NoOffspring(o, p);
      PushedNone(p.pointer, p.depth);
      assert stack + [] == stack;
    } else {
      ExpandPushed(o, stack, p.pointer, p.depth, Offspring(o, p));
      ConcatAssociative(Own(o, p), Rendered(o, p.pointer, p.depth, NodesOf(Offspring(o, p), o.maxDepth - p.depth)), ExpandAll(o, stack));
    }
  }

  lemma PopStep(o: Options, entries: seq<Entry>, stack: seq<Pending>, p: Pending)
    ensures entries + ExpandAll(o, stack + [p])
         == (if p.pointer == "" then entries else entries + [Describe(o, p.pointer, p.item, p.depth)])
            + ExpandAll(o, if p.depth < o.maxDepth then stack + Pushed(p.pointer, p.depth, Children(p.item)) else stack)
    ensures |ExpandAll(o, stack + [p])| == (if p.pointer == "" then 0 else 1)
            + |ExpandAll(o, if p.depth < o.maxDepth then stack + Pushed(p.pointer, p.depth, Children(p.item)) else stack)|
  {
    ExpandPop(o, stack, p);
    assert p.depth >= o.maxDepth ==> stack + Pushed(p.pointer, p.depth, []) == stack;
    var next := stack + Pushed(p.pointer, p.depth, Offspring(o, p));
    assert entries + [] == entries;
    hide ExpandAll, Describe, Pushed, Children;
    ConcatAssociative(entries, Own(o, p), ExpandAll(o, next));
  }

  lemma ExpandStart(o: Options, value: Value)
    ensures [] + ExpandAll(o, [Pending("", value, 0)]) == Entries(o, value)
    ensures Max(1, o.maxEntries) >= 1
  {
    ExpandTop(o, [], Pending("", value, 0));
    assert [] + [Pending("", value, 0)] == [Pending("", value, 0)];
  }

  lemma CatalogEnd(o: Options, value: Value, entries: seq<Entry>, stack: seq<Pending>)
    requires entries + ExpandAll(o, stack) == Entries(o, value) && |entries| <= Max(1, o.maxEntries)
    requires stack == [] || |entries| >= Max(1, o.maxEntries)
    ensures entries == First(Entries(o, value), Max(1, o.maxEntries))
  {
    if stack == [] { assert ExpandAll(o, stack) == [] && entries + [] == entries; }
    hide ExpandAll, Entries;
  }

  /** `_response_agent_json_catalog`. */
  method Catalog(o: Options, value: Value) returns (entries: seq<Entry>)
    ensures entries == First(Entries(o, value), Max(1, o.maxEntries))
  {
    hide *;
    entries := [];
    var stack := [Pending("", value, 0)];
    ExpandStart(o, value);
    ghost var started := false;
    while stack != [] && |entries| < Max(1, o.maxEntries)
      invariant entries + ExpandAll(o, stack) == Entries(o, value)
      invariant |entries| <= Max(1, o.maxEntries)
      invariant if started then forall i :: 0 <= i < |stack| ==> stack[i].pointer != "" else |stack| == 1
      decreases !started, |ExpandAll(o, stack)|
    {
      var top := stack[|stack| - 1];
      assert stack == stack[..|stack| - 1] + [top];
      stack := stack[..|stack| - 1];
      PopStep(o, entries, stack, top);
      if top.pointer != "" {
        entries := entries + [Describe(o, top.pointer, top.item, top.depth)];
      }
      started := true;
      if top.depth < o.maxDepth {
        stack := stack + Pushed(top.pointer, top.depth, Children(top.item));
      }
    }
    CatalogEnd(o, value, entries, stack);
  }

  lemma {:induction false} RenderedAt(o: Options, pointer: string, depth: nat, nodes: seq<Node>, k: nat)
    requires k < |nodes|
    ensures |Rendered(o, pointer, depth, nodes)| == |nodes|
    ensures Rendered(o, pointer, depth, nodes)[k]
         == Describe(o, pointer + PointerOf(nodes[k].path), nodes[k].value, depth + |nodes[k].path|)
    decreases |nodes|
  {
    if k > 0 {
      RenderedAt(o, pointer, depth, nodes[1..], k - 1);
    } else if |nodes| > 1 {
      RenderedAt(o, pointer, depth, nodes[1..], 0);
    }
  }

  lemma EntryAt(o: Options, v: Value, k: nat) returns (n: Node)
    requires k < |Entries(o, v)|
    ensures n.path != [] && |n.path| <= Levels(o, 0) && k + 1 < |Nodes(v, Levels(o, 0))|
    ensures n == Nodes(v, Levels(o, 0))[k + 1] && Walk(v, n.path) == Some(n.value)
    ensures Entries(o, v)[k] == Describe(o, PointerOf(n.path), n.value, |n.path|)
  {
    hide Describe, Nodes, Walk, PointerOf;
    var nodes := Nodes(v, Levels(o, 0));
    assert Entries(o, v) == Rendered(o, "", 0, nodes[1..]);
    hide Entries, Rendered;
    if nodes[1..] != [] { RenderedAt(o, "", 0, nodes[1..], 0); }
    n := nodes[k + 1];
    RenderedAt(o, "", 0, nodes[1..], k);
    NodesWalk(v, Levels(o, 0), k + 1);
    assert "" + PointerOf(n.path) == PointerOf(n.path);
  }

  lemma TokenCount(path: seq<string>)
    ensures |Split(PointerOf(path))| == |path| + 1
  {
    if path != [] { SplitPointer(path); }
  }

  /** Every pointer of the catalog evaluates to the node its entry describes, at
      most `maxDepth` tokens down. */
  lemma PointersAreExact(o: Options, v: Value, k: nat)
    requires k < |Entries(o, v)|
    ensures var e := Entries(o, v)[k];
      exists depth: nat :: 1 <= depth <= o.maxDepth && |Split(e.pointer)| == depth + 1
        && Evaluate(v, e.pointer).Some? && e == Describe(o, e.pointer, Evaluate(v, e.pointer).value, depth)
  {
    var n := EntryAt(o, v, k);
    PointerEvaluates(v, n.path);
    TokenCount(n.path);
  }

  /** No two entries carry the same pointer. */
  lemma PointersAreDistinct(o: Options, v: Value, i: nat, j: nat)
    requires i < j < |Entries(o, v)|
    ensures Entries(o, v)[i].pointer != Entries(o, v)[j].pointer
  {
    var a := EntryAt(o, v, i);
    var b := EntryAt(o, v, j);
    NodesDistinct(v, Levels(o, 0));
    PointerInjective(a.path, b.path);
  }

  lemma DescribesPointer(o: Options, pointer: string, v: Value, depth: nat)
    ensures Describe(o, pointer, v, depth).pointer == pointer
  {
  }

  /** Nothing within the width and depth limits is missing before the entry limit. */
  lemma CatalogIsComplete(o: Options, v: Value, path: seq<string>) returns (k: nat)
    requires path != [] && |path| <= o.maxDepth && Shown(v, path)
    ensures k < |Entries(o, v)| && Entries(o, v)[k].pointer == PointerOf(path)
    ensures Evaluate(v, PointerOf(path)).Some?
  {
    hide Shown, Describe, Nodes, Walk, PointerOf, Evaluate;
    var at := NodesComplete(v, path, Levels(o, 0));
    var nodes := Nodes(v, Levels(o, 0));
    NodesWalk(v, Levels(o, 0), at);
    k := at - 1;
    assert Entries(o, v) == Rendered(o, "", 0, nodes[1..]);
    hide Entries, Rendered;
    RenderedAt(o, "", 0, nodes[1..], k);
    PointerEvaluates(v, path);
    assert "" + PointerOf(path) == PointerOf(path);
    DescribesPointer(o, PointerOf(path), nodes[at].value, |path|);
  }
}
