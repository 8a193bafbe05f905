/** The response-plan normaliser (`action_plan.py`): strip list markers, drop
    repeated actions, order the rest by operational stage. */
module ActionPlan {
  import opened PyText
  import opened Sorting

  /** The two text operations kept abstract: one round of leading-marker removal
      (both patterns, in order) and Unicode case folding. */
  datatype Text = Text(peel: string -> string, fold: string -> string)

  /** A substitution by nothing: the text shrinks or stays. */
  ghost predicate Shrinks(t: Text) { forall s: string :: |t.peel(s)| < |s| || t.peel(s) == s }

  /** `re.sub(r"\s+", " ", text)`. */
  function Collapse(s: string): string {
    if s == "" then ""
    else if !IsSpace(s[0]) then [s[0]] + Collapse(s[1..])
    else if |s| > 1 && IsSpace(s[1]) then Collapse(s[1..])
    else " " + Collapse(s[1..])
  }

  function Squeeze(s: string): string { Strip(Collapse(s)) }

  /** The patterns treat every run of whitespace alike, so squeezing the whitespace of
      a text without a marker does not make one. */
  ghost predicate IgnoresSpacing(t: Text) {
    forall s: string :: t.peel(s) == s ==> t.peel(Squeeze(s)) == Squeeze(s)
  }

  /** What is left when no marker can be removed any more. */
  function Peeled(t: Text, s: string): string
    requires Shrinks(t)
    decreases |s|
  {
    if t.peel(s) == s then s else Peeled(t, t.peel(s))
  }

  function NormalText(t: Text, value: string): string
    requires Shrinks(t)
  {
    Squeeze(Peeled(t, Strip(value)))
  }

  /** `normalize_action_text`: the removal loop ends because the text gets shorter. */
  method NormalizeActionText(t: Text, value: string) returns (r: string)
    requires Shrinks(t)
    ensures r == NormalText(t, value)
  {
    hide Strip, Collapse;
    var text := Strip(value);
    var settled := false;
    while text != "" && !settled
      invariant Peeled(t, text) == Peeled(t, Strip(value))
      invariant settled ==> t.peel(text) == text
      decreases |text|, !settled
    {
      var previous := text;
      text := t.peel(text);
      settled := text == previous;
    }
    return Squeeze(text);
  }

  // ---- normalising twice -------------------------------------------------

  /** Single blanks only, and none at the ends. */
  predicate Tidy(s: string) {
    && (forall i :: 0 <= i < |s| && IsSpace(s[i]) ==> s[i] == ' ')
    && (forall i :: 0 <= i < |s| - 1 && IsSpace(s[i]) ==> !IsSpace(s[i + 1]))
  }

  lemma {:induction false} CollapseTidies(s: string)
    ensures Tidy(Collapse(s))
    ensures s != "" ==> Collapse(s) != "" && (IsSpace(Collapse(s)[0]) <==> IsSpace(s[0]))
  {
    if s != "" { CollapseTidies(s[1..]); }
  }

  lemma {:induction false} CollapseKeeps(s: string)
    requires Tidy(s)
    ensures Collapse(s) == s
  {
    if s != "" {
      assert Tidy(s[1..]);
      CollapseKeeps(s[1..]);
      assert s == [s[0]] + s[1..];
      if IsSpace(s[0]) { assert |s| > 1 ==> !IsSpace(s[0 + 1]); }
    }
  }

  lemma {:induction false} StripTidies(s: string)
    requires Tidy(s)
    ensures Tidy(StripLeft(s)) && Tidy(StripRight(s))
    decreases |s|
  {
    if s != "" {
      StripTidies(s[1..]);
      StripTidies(s[..|s| - 1]);
    }
  }

  lemma SqueezeTwice(s: string)
    ensures Squeeze(Squeeze(s)) == Squeeze(s) && Strip(Squeeze(s)) == Squeeze(s)
  {
    hide StripLeft, StripRight, Collapse, Tidy;
    CollapseTidies(s);
    StripTidies(Collapse(s));
    StripTidies(StripLeft(Collapse(s)));
    CollapseKeeps(Squeeze(s));
    StripTrims(Collapse(s));
  }

  lemma {:induction false} PeeledSettles(t: Text, s: string)
    requires Shrinks(t)
    ensures t.peel(Peeled(t, s)) == Peeled(t, s)
    decreases |s|
  {
    if t.peel(s) != s { PeeledSettles(t, t.peel(s)); }
  }

  /** A normalised text is its own normal form. */
  lemma NormalTextTwice(t: Text, value: string)
    requires Shrinks(t) && IgnoresSpacing(t)
    ensures NormalText(t, NormalText(t, value)) == NormalText(t, value)
  {
    hide Strip, Squeeze;
    var core := Peeled(t, Strip(value));
    PeeledSettles(t, Strip(value));
    SqueezeTwice(core);
  }

  // ---- stages ------------------------------------------------------------

  datatype Stage = Verify | Coordinate | Contain | Eradicate | Recover | Monitor

  function StageOrder(s: Stage): nat {
    match s
    case Verify => 10
    case Coordinate => 20
    case Contain => 30
    case Eradicate => 40
    case Recover => 50
    case Monitor => 60
  }

  predicate Contains(text: string, term: string) {
    term <= text || (text != "" && Contains(text[1..], term))
  }

  predicate Mentions(text: string, terms: set<string>) { exists w :: w in terms && Contains(text, w) }

  const RECOVER_TERMS := {"恢复", "回滚", "解除隔离", "解除封禁", "解除阻断", "业务恢复"}
  const CONTAIN_TERMS := {"封禁", "阻断", "隔离", "禁用", "切断", "下线", "遏制", "限制访问"}
  const ERADICATE_TERMS := {"修复", "补丁", "加固", "升级版本", "清除", "根除", "变更策略", "调整规则"}
  const COORDINATE_TERMS := {"升级", "通知", "工单", "协同", "上报", "联动"}
  const MONITOR_TERMS := {"监控", "观察", "持续关注", "跟踪", "复测", "验证处置"}

  /** `action_stage`; the order of the questions decides. */
  function ActionStage(t: Text, value: string): Stage
    requires Shrinks(t)
  {
    var text := t.fold(NormalText(t, value));
    if Mentions(text, RECOVER_TERMS) then Recover
    else if Mentions(text, CONTAIN_TERMS) then Contain
    else if Mentions(text, ERADICATE_TERMS) then Eradicate
    else if Mentions(text, COORDINATE_TERMS) then Coordinate
    else if Mentions(text, MONITOR_TERMS) then Monitor
    else Verify
  }

  predicate StandsAt(text: string, term: string, i: nat) { i + |term| <= |text| && text[i..i + |term|] == term }

  lemma StandsLater(text: string, term: string, i: nat)
    requires text != ""
    ensures StandsAt(text[1..], term, i) <==> StandsAt(text, term, i + 1)
  {
    if i + |term| <= |text[1..]| { assert text[1..][i..i + |term|] == text[i + 1..i + 1 + |term|]; }
  }

  /** A term is contained where all its characters stand in a row. */
  lemma {:induction false} ContainsSomewhere(text: string, term: string)
    ensures Contains(text, term) <==> exists i: nat :: StandsAt(text, term, i)
    decreases |text|
  {
    assert StandsAt(text, term, 0) <==> term <= text;
    if text != "" {
      ContainsSomewhere(text[1..], term);
      forall i: nat ensures StandsAt(text[1..], term, i) <==> StandsAt(text, term, i + 1) { StandsLater(text, term, i); }
      if i: nat :| StandsAt(text, term, i) && i > 0 { assert StandsAt(text[1..], term, i - 1); }
    }
  }

  /** Asked in this order, each with the words that answer yes. */
  const QUESTIONS: seq<(Stage, seq<string>)> := [
    (Recover, ["恢复", "回滚", "解除隔离", "解除封禁", "解除阻断", "业务恢复"]),
    (Contain, ["封禁", "阻断", "隔离", "禁用", "切断", "下线", "遏制", "限制访问"]),
    (Eradicate, ["修复", "补丁", "加固", "升级版本", "清除", "根除", "变更策略", "调整规则"]),
    (Coordinate, ["升级", "通知", "工单", "协同", "上报", "联动"]),
    (Monitor, ["监控", "观察", "持续关注", "跟踪", "复测", "验证处置"])]

  predicate Answers(text: string, words: seq<string>) { exists i :: 0 <= i < |words| && Contains(text, words[i]) }

  lemma SameWords(text: string, terms: set<string>, words: seq<string>)
    requires terms == set w | w in words
    ensures Mentions(text, terms) <==> Answers(text, words)
  {
    hide Contains;
    if i :| 0 <= i < |words| && Contains(text, words[i]) { assert words[i] in terms; }
  }

  lemma RecoverWords(text: string)
    ensures Mentions(text, RECOVER_TERMS) <==> Answers(text, QUESTIONS[0].1)
    ensures Mentions(text, CONTAIN_TERMS) <==> Answers(text, QUESTIONS[1].1)
  {
    SameWords(text, RECOVER_TERMS, QUESTIONS[0].1);
    SameWords(text, CONTAIN_TERMS, QUESTIONS[1].1);
  }

  lemma OtherWords(text: string)
    ensures Mentions(text, ERADICATE_TERMS) <==> Answers(text, QUESTIONS[2].1)
    ensures Mentions(text, COORDINATE_TERMS) <==> Answers(text, QUESTIONS[3].1)
    ensures Mentions(text, MONITOR_TERMS) <==> Answers(text, QUESTIONS[4].1)
  {
    SameWords(text, ERADICATE_TERMS, QUESTIONS[2].1);
    SameWords(text, COORDINATE_TERMS, QUESTIONS[3].1);
    SameWords(text, MONITOR_TERMS, QUESTIONS[4].1);
  }

  /** An action is of the stage of the first question that its text answers, and is a
      verification if it answers none. */
  lemma StageIsFirstAnswer(t: Text, value: string, n: nat)
    requires Shrinks(t) && n < |QUESTIONS|
    ensures var text := t.fold(NormalText(t, value));
      && (Answers(text, QUESTIONS[n].1) && (forall k :: 0 <= k < n ==> !Answers(text, QUESTIONS[k].1)) ==>
            ActionStage(t, value) == QUESTIONS[n].0)
      && ((forall k :: 0 <= k < |QUESTIONS| ==> !Answers(text, QUESTIONS[k].1)) ==> ActionStage(t, value) == Verify)
  {
    hide NormalText, Mentions, Answers;
    var text := t.fold(NormalText(t, value));
    RecoverWords(text);
    OtherWords(text);
  }

  // ---- the plan ----------------------------------------------------------

  datatype Recommended = Recommended(action: string, mode: string, rationale: string, rollback: string)

  datatype Planned = Planned(action: string, mode: string, rationale: string, rollback: string, stage: Stage)

  const SEPARATORS := "，。；、,.;:："

  function Compact(s: string): string {
    if s == "" then ""
    else (if IsSpace(s[0]) || s[0] in SEPARATORS then "" else [s[0]]) + Compact(s[1..])
  }

  lemma {:induction false} CompactSplits(a: string, b: string)
    ensures Compact(a + b) == Compact(a) + Compact(b)
    decreases |a|
  {
    hide IsSpace;
    if a == "" {
      assert a + b == b;
    } else {
      assert (a + b)[1..] == a[1..] + b;
      CompactSplits(a[1..], b);
    }
  }

  /** Compacting drops characters one by one: those that separate, and no others. */
  lemma CompactDropsSeparators(a: string, c: char)
    ensures Compact(a + [c]) == Compact(a) +
      (if IsSpace(c) || c in {'，', '。', '；', '、', ',', '.', ';', ':', '：'} then "" else [c])
  {
    CompactSplits(a, [c]);
    hide IsSpace;
    assert [c][1..] == "" && Compact("") == "";
  }

  function Key(t: Text, text: string): string { t.fold(Compact(text)) }

  function Plan(t: Text, item: Recommended): Planned
    requires Shrinks(t)
  {
    var text := NormalText(t, item.action);
    Planned(text, item.mode, Strip(item.rationale), Strip(item.rollback), ActionStage(t, text))
  }

  /** The first action of every key that is not in `seen`, in source order. */
  function FirstOccurrences(t: Text, actions: seq<Recommended>, seen: set<string>): seq<Planned>
    requires Shrinks(t)
    decreases |actions|
  {
    if actions == [] then []
    else
      var p := Plan(t, actions[0]);
      var key := Key(t, p.action);
      if p.action == "" || key in seen then FirstOccurrences(t, actions[1..], seen)
      else [p] + FirstOccurrences(t, actions[1..], seen + {key})
  }

  function StageKey(p: Planned): SortKey { SortKey(StageOrder(p.stage), 0, 0, "", "") }

  /** `sort` by (stage order, source index): a stable sort by stage. */
  function SortByStage(items: seq<Planned>): seq<Planned> { SortBy(StageKey, items) }

  function NormalPlan(t: Text, actions: seq<Recommended>): seq<Planned>
    requires Shrinks(t)
  {
    SortByStage(FirstOccurrences(t, actions, {}))
  }

  /** `normalize_action_plan`. */
  method NormalizeActionPlan(t: Text, actions: seq<Recommended>) returns (plan: seq<Planned>)
    requires Shrinks(t)
    ensures plan == NormalPlan(t, actions)
  {
    hide NormalText, ActionStage, Key, SortByStage;
    var normalized: seq<Planned> := [];
    var seen: set<string> := {};
    for i := 0 to |actions|
      invariant FirstOccurrences(t, actions, {}) == normalized + FirstOccurrences(t, actions[i..], seen)
    {
      assert actions[i..][0] == actions[i] && actions[i..][1..] == actions[i + 1..];
      var text := NormalizeActionText(t, actions[i].action);
      var key := Key(t, text);
      if text == "" || key in seen { continue; }
      seen := seen + {key};
      var item := actions[i];
      var planned := Planned(text, item.mode, Strip(item.rationale), Strip(item.rollback), ActionStage(t, text));
      assert (normalized + [planned]) + FirstOccurrences(t, actions[i + 1..], seen)
          == normalized + ([planned] + FirstOccurrences(t, actions[i + 1..], seen));
      normalized := normalized + [planned];
    }
    assert normalized + [] == normalized;
    plan := SortByStage(normalized);
  }

  // ---- what the plan promises --------------------------------------------

  function OfStage(items: seq<Planned>, s: Stage): seq<Planned> {
    if items == [] then []
    else (if items[0].stage == s then [items[0]] else []) + OfStage(items[1..], s)
  }

  lemma {:induction false} InsertKeeps(p: Planned, sorted: seq<Planned>)
    ensures forall q :: q in Insert(StageKey, p, sorted) <==> q == p || q in sorted
    decreases |sorted|
  {
    if sorted != [] && !KeyLeq(StageKey(p), StageKey(sorted[0])) {
      InsertKeeps(p, sorted[1..]);
      assert sorted == [sorted[0]] + sorted[1..];
    }
  }

  lemma {:induction false} InsertOfStage(p: Planned, sorted: seq<Planned>, s: Stage)
    ensures OfStage(Insert(StageKey, p, sorted), s) == (if p.stage == s then [p] else []) + OfStage(sorted, s)
    decreases |sorted|
  {
    if sorted == [] || KeyLeq(StageKey(p), StageKey(sorted[0])) {
      assert ([p] + sorted)[1..] == sorted;
    } else {
      InsertOfStage(p, sorted[1..], s);
      var rest := Insert(StageKey, p, sorted[1..]);
      assert ([sorted[0]] + rest)[1..] == rest;
      if p.stage == s { assert sorted[0].stage != s; }
    }
  }

  /** The sort is by stage, keeps the source order within each stage, and loses nothing. */
  lemma {:induction false} SortIsStable(items: seq<Planned>, s: Stage)
    ensures Sorted(StageKey, SortByStage(items))
    ensures OfStage(SortByStage(items), s) == OfStage(items, s)
    ensures multiset(SortByStage(items)) == multiset(items)
    decreases |items|
  {
    hide Sorted, KeyLeq, Insert;
    SortSorts(StageKey, items);
    if items != [] {
      SortIsStable(items[1..], s);
      InsertOfStage(items[0], SortByStage(items[1..]), s);
    }
  }

  /** An ordered plan is already sorted. */
  lemma {:induction false} SortKeepsOrdered(items: seq<Planned>)
    requires Sorted(StageKey, items)
    ensures SortByStage(items) == items
    decreases |items|
  {
    hide KeyLeq;
    if items != [] {
      SortKeepsOrdered(items[1..]);
      assert items == [items[0]] + items[1..];
      assert |items| > 1 ==> KeyLeq(StageKey(items[0]), StageKey(items[1]));
    }
  }

  predicate DistinctKeys(t: Text, items: seq<Planned>) {
    forall i, j :: 0 <= i < j < |items| ==> Key(t, items[i].action) != Key(t, items[j].action)
  }

  /** No key of the list is in `seen`, no two are equal, and every item is the plan of
      some action. */
  ghost predicate IsPlanOf(t: Text, actions: seq<Recommended>, p: Planned)
    requires Shrinks(t)
  {
    exists a :: a in actions && p == Plan(t, a)
  }

  lemma {:induction false} FirstArePlans(t: Text, actions: seq<Recommended>, seen: set<string>)
    requires Shrinks(t)
    ensures forall p :: p in FirstOccurrences(t, actions, seen) ==> IsPlanOf(t, actions, p)
    decreases |actions|
  {
    hide Plan, Key;
    if actions != [] {
      var p := Plan(t, actions[0]);
      var more := if p.action == "" || Key(t, p.action) in seen then seen else seen + {Key(t, p.action)};
      FirstArePlans(t, actions[1..], more);
      assert actions[0] in actions;
      forall q | q in FirstOccurrences(t, actions[1..], more) ensures IsPlanOf(t, actions, q) {
        var a :| a in actions[1..] && q == Plan(t, a);
        assert a in actions;
      }
    }
  }

  lemma {:induction false} FirstAreDistinct(t: Text, actions: seq<Recommended>, seen: set<string>)
    requires Shrinks(t)
    ensures DistinctKeys(t, FirstOccurrences(t, actions, seen))
    ensures forall p :: p in FirstOccurrences(t, actions, seen) ==> p.action != "" && Key(t, p.action) !in seen
    decreases |actions|
  {
    hide Plan, Key;
    if actions != [] {
      var p := Plan(t, actions[0]);
      var more := if p.action == "" || Key(t, p.action) in seen then seen else seen + {Key(t, p.action)};
      FirstAreDistinct(t, actions[1..], more);
      var rest := FirstOccurrences(t, actions[1..], more);
      if p.action != "" && Key(t, p.action) !in seen {
        assert FirstOccurrences(t, actions, seen) == [p] + rest;
        forall j | 0 <= j < |rest|
          ensures Key(t, rest[j].action) != Key(t, p.action)
        {
          assert rest[j] in rest;
        }
      }
    }
  }

  /** Every action that has any text is represented by one with the same key. */
  lemma {:induction false} EveryKeyRepresented(t: Text, actions: seq<Recommended>, seen: set<string>, i: nat)
    requires Shrinks(t) && i < |actions| && NormalText(t, actions[i].action) != ""
    ensures var key := Key(t, NormalText(t, actions[i].action));
      key in seen || exists p :: p in FirstOccurrences(t, actions, seen) && Key(t, p.action) == key
    decreases |actions|
  {
    hide NormalText, Key, ActionStage;
    var p := Plan(t, actions[0]);
    var taken := p.action != "" && Key(t, p.action) !in seen;
    var more := if taken then seen + {Key(t, p.action)} else seen;
    var rest := FirstOccurrences(t, actions[1..], more);
    if taken {
      assert FirstOccurrences(t, actions, seen) == [p] + rest;
      assert p in FirstOccurrences(t, actions, seen);
    }
    if i > 0 {
      assert actions[i] == actions[1..][i - 1];
      EveryKeyRepresented(t, actions[1..], more, i - 1);
      var key := Key(t, NormalText(t, actions[i].action));
      if key !in more {
        var q :| q in rest && Key(t, q.action) == key;
        assert q in FirstOccurrences(t, actions, seen);
      }
    }
  }

  /** The action kept for a key is the first one with it. */
  lemma {:induction false} FirstIsKept(t: Text, actions: seq<Recommended>, seen: set<string>, i: nat)
    requires Shrinks(t) && i < |actions| && NormalText(t, actions[i].action) != ""
    requires Key(t, NormalText(t, actions[i].action)) !in seen
    requires forall j :: 0 <= j < i ==> Key(t, NormalText(t, actions[j].action)) != Key(t, NormalText(t, actions[i].action))
    ensures Plan(t, actions[i]) in FirstOccurrences(t, actions, seen)
    decreases |actions|
  {
    hide NormalText, Key, ActionStage;
    var p := Plan(t, actions[0]);
    var taken := p.action != "" && Key(t, p.action) !in seen;
    var more := if taken then seen + {Key(t, p.action)} else seen;
    if i > 0 {
      assert actions[i] == actions[1..][i - 1];
      forall j | 0 <= j < i - 1
        ensures Key(t, NormalText(t, actions[1..][j].action)) != Key(t, NormalText(t, actions[i].action))
      {
        assert actions[1..][j] == actions[j + 1];
      }
      FirstIsKept(t, actions[1..], more, i - 1);
    }
  }

  // ---- normalising a plan again ------------------------------------------

  function AsInput(items: seq<Planned>): (r: seq<Recommended>)
    ensures |r| == |items|
  {
    if items == [] then []
    else [Recommended(items[0].action, items[0].mode, items[0].rationale, items[0].rollback)] + AsInput(items[1..])
  }

  predicate IsNormal(t: Text, p: Planned)
    requires Shrinks(t)
  {
    p.action != "" && Plan(t, Recommended(p.action, p.mode, p.rationale, p.rollback)) == p
  }

  lemma PlanIsNormal(t: Text, a: Recommended)
    requires Shrinks(t) && IgnoresSpacing(t) && Plan(t, a).action != ""
    ensures IsNormal(t, Plan(t, a))
  {
    hide NormalText, ActionStage, Strip;
    NormalTextTwice(t, a.action);
    StripTrims(a.rationale);
    StripTrims(a.rollback);
  }

  lemma {:induction false} InsertDistinct(t: Text, p: Planned, sorted: seq<Planned>)
    requires DistinctKeys(t, sorted) && forall q :: q in sorted ==> Key(t, q.action) != Key(t, p.action)
    ensures DistinctKeys(t, Insert(StageKey, p, sorted))
    decreases |sorted|
  {
    hide Key;
    if sorted != [] && !KeyLeq(StageKey(p), StageKey(sorted[0])) {
      var rest := Insert(StageKey, p, sorted[1..]);
      InsertDistinct(t, p, sorted[1..]);
      InsertKeeps(p, sorted[1..]);
      forall j | 0 <= j < |rest|
        ensures Key(t, sorted[0].action) != Key(t, rest[j].action)
      {
        assert rest[j] in rest && sorted[0] in sorted;
      }
    }
  }

  lemma {:induction false} SortDistinct(t: Text, items: seq<Planned>)
    requires DistinctKeys(t, items)
    ensures DistinctKeys(t, SortByStage(items))
    ensures forall q :: q in SortByStage(items) <==> q in items
    decreases |items|
  {
    hide Key;
    if items != [] {
      SortDistinct(t, items[1..]);
      InsertKeeps(items[0], SortByStage(items[1..]));
      assert items == [items[0]] + items[1..];
      InsertDistinct(t, items[0], SortByStage(items[1..]));
    }
  }

  lemma {:induction false} NormalItemsStay(t: Text, items: seq<Planned>, seen: set<string>)
    requires Shrinks(t) && DistinctKeys(t, items)
    requires forall p :: p in items ==> IsNormal(t, p) && Key(t, p.action) !in seen
    ensures FirstOccurrences(t, AsInput(items), seen) == items
    decreases |items|
  {
    hide Key, Plan, NormalText;
    if items != [] {
      var p := items[0];
      assert p in items;
      assert AsInput(items)[1..] == AsInput(items[1..]);
      assert DistinctKeys(t, items[1..]);
      forall q | q in items[1..]
        ensures Key(t, q.action) !in seen + {Key(t, p.action)}
      {
        var j :| 0 <= j < |items[1..]| && items[1..][j] == q;
        assert items[j + 1] == q;
      }
      NormalItemsStay(t, items[1..], seen + {Key(t, p.action)});
      assert items == [p] + items[1..];
    }
  }

  /** The operational order of the stages. */
  function Place(s: Stage): nat {
    match s
    case Verify => 0
    case Coordinate => 1
    case Contain => 2
    case Eradicate => 3
    case Recover => 4
    case Monitor => 5
  }

  lemma SortedIsPlaced(plan: seq<Planned>)
    requires Sorted(StageKey, plan)
    ensures forall i, j :: 0 <= i < j < |plan| ==> Place(plan[i].stage) <= Place(plan[j].stage)
  {
    forall i, j | 0 <= i < j < |plan| ensures Place(plan[i].stage) <= Place(plan[j].stage) {
      assert KeyLeq(StageKey(plan[i]), StageKey(plan[j]));
    }
  }

  /** The plan: distinct keys, ordered by stage, source order within a stage; and
      normalising it again changes nothing. */
  lemma PlanIsStable(t: Text, actions: seq<Recommended>, s: Stage)
    requires Shrinks(t) && IgnoresSpacing(t)
    ensures var plan := NormalPlan(t, actions);
      && DistinctKeys(t, plan) && Sorted(StageKey, plan)
      && (forall i, j :: 0 <= i < j < |plan| ==> Place(plan[i].stage) <= Place(plan[j].stage))
      && OfStage(plan, s) == OfStage(FirstOccurrences(t, actions, {}), s)
      && NormalPlan(t, AsInput(plan)) == plan
  {
    hide Key, Plan, IsNormal, DistinctKeys, Sorted;
    var first := FirstOccurrences(t, actions, {});
    FirstAreDistinct(t, actions, {});
    FirstArePlans(t, actions, {});
    SortIsStable(first, s);
    SortDistinct(t, first);
    var plan := NormalPlan(t, actions);
    forall p | p in plan
      ensures IsNormal(t, p)
    {
      assert p in first;
      var a :| a in actions && p == Plan(t, a);
      PlanIsNormal(t, a);
    }
    NormalItemsStay(t, plan, {});
    SortKeepsOrdered(plan);
    SortedIsPlaced(plan);
  }
}
