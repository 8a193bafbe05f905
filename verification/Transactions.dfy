/** The reentrant transaction owner: nested `with repo.transaction()` blocks of
    several threads over one shared connection. */
module Transactions {
  import opened Common

  type Thread = nat
  type Write = int

  /** What a thread does to the repository.  `commit` is the `_commit` flag of a
      write; `Local` is any step that does not touch the repository. */
  datatype Op = Enter | Leave(raised: bool) | Put(w: Write, commit: bool) | Local

  /** The RLock (holder and count), each thread's `_tx_state.depth`, the `_owns`
      flags of its open blocks, and the connection: writes so far, committed writes. */
  datatype Machine = Machine(
    holder: Option<Thread>,
    holds: nat,
    depth: map<Thread, nat>,
    owns: map<Thread, seq<bool>>,
    working: seq<Write>,
    durable: seq<Write>)

  function Depth(m: Machine, t: Thread): nat { if t in m.depth then m.depth[t] else 0 }

  function Owns(m: Machine, t: Thread): seq<bool> { if t in m.owns then m.owns[t] else [] }

  /** A bare write outside any block takes the lock itself and must commit. */
  predicate Enabled(m: Machine, t: Thread, op: Op) {
    match op
    case Enter => m.holder.None? || m.holder == Some(t)
    case Leave(_) => m.holder == Some(t) && Owns(m, t) != []
    case Put(_, commit) => (m.holder == Some(t) && Owns(m, t) != []) || (m.holder.None? && commit)
    case Local => true
  }

  function Entered(m: Machine, t: Thread): Machine {
    m.(holder := Some(t), holds := m.holds + 1,
       depth := m.depth[t := Depth(m, t) + 1],
       owns := m.owns[t := Owns(m, t) + [Depth(m, t) == 0]])
  }

  function Left(m: Machine, t: Thread, raised: bool): Machine
    requires Owns(m, t) != []
  {
    var flags := Owns(m, t);
    var top := flags[|flags| - 1];
    m.(holder := if m.holds <= 1 then None else m.holder,
       holds := if m.holds == 0 then 0 else m.holds - 1,
       depth := m.depth[t := if Depth(m, t) == 0 then 0 else Depth(m, t) - 1],
       owns := m.owns[t := flags[..|flags| - 1]],
       working := if top && raised then m.durable else m.working,
       durable := if top && !raised then m.working else m.durable)
  }

  function Wrote(m: Machine, w: Write, commit: bool): Machine {
    m.(working := m.working + [w], durable := if commit then m.working + [w] else m.durable)
  }

  function Apply(m: Machine, t: Thread, op: Op): Machine
    requires Enabled(m, t, op)
  {
    match op
    case Enter => Entered(m, t)
    case Leave(raised) => Left(m, t, raised)
    case Put(w, commit) => Wrote(m, w, commit)
    case Local => m
  }

  datatype Event = Event(t: Thread, op: Op)

  ghost predicate CanRun(m: Machine, s: seq<Event>)
    decreases |s|
  {
    s == [] || (Enabled(m, s[0].t, s[0].op) && CanRun(Apply(m, s[0].t, s[0].op), s[1..]))
  }

  ghost function After(m: Machine, s: seq<Event>): Machine
    requires CanRun(m, s)
    decreases |s|
  {
    if s == [] then m else After(Apply(m, s[0].t, s[0].op), s[1..])
  }

  // ---- balanced use of the lock ------------------------------------------

  predicate OnlyOutermostOwns(flags: seq<bool>) {
    forall i :: 0 <= i < |flags| ==> (flags[i] <==> i == 0)
  }

  /** Lock count, depths and owner flags agree; only the lock holder is in a block,
      and only its outermost block owns the commit. */
  ghost predicate Consistent(m: Machine) {
    && (m.holder.None? ==> m.holds == 0 && m.working == m.durable)
    && (m.holder.Some? ==> m.holds == Depth(m, m.holder.value) > 0)
    && (forall t: Thread :: m.holder != Some(t) ==> Depth(m, t) == 0)
    && (forall t: Thread :: |Owns(m, t)| == Depth(m, t) && OnlyOutermostOwns(Owns(m, t)))
  }

  lemma StepKeepsConsistent(m: Machine, t: Thread, op: Op)
    requires Consistent(m) && Enabled(m, t, op)
    ensures Consistent(Apply(m, t, op))
  {
    var n := Apply(m, t, op);
    forall u: Thread
      ensures n.holder != Some(u) ==> Depth(n, u) == 0
      ensures |Owns(n, u)| == Depth(n, u) && OnlyOutermostOwns(Owns(n, u))
    {
      assert |Owns(m, u)| == Depth(m, u) && OnlyOutermostOwns(Owns(m, u));
      if u != t { assert Depth(n, u) == Depth(m, u) && Owns(n, u) == Owns(m, u); }
    }
  }

  lemma {:induction false} RunKeepsConsistent(m: Machine, s: seq<Event>)
    requires Consistent(m) && CanRun(m, s)
    ensures Consistent(After(m, s))
    decreases |s|
  {
    if s != [] {
      StepKeepsConsistent(m, s[0].t, s[0].op);
      RunKeepsConsistent(Apply(m, s[0].t, s[0].op), s[1..]);
    }
  }

  // ---- the objects -------------------------------------------------------

  /** The repository's lock, thread-local depth and connection. */
  class Repository {
    var holder: Option<Thread>
    var holds: nat
    var depth: map<Thread, nat>
    var working: seq<Write>
    var durable: seq<Write>
    /** The `owns` flag of every open block, innermost last. */
    ghost var open: map<Thread, seq<bool>>

    ghost function Model(): Machine
      reads this
    {
      Machine(holder, holds, depth, open, working, durable)
    }

    constructor ()
      ensures Consistent(Model()) && holder.None? && durable == []
    {
      holder, holds, depth, working, durable, open := None, 0, map[], [], [], map[];
    }

    method Acquire(t: Thread)
      requires holder.None? || holder == Some(t)
      modifies this`holder, this`holds
      ensures holder == Some(t) && holds == old(holds) + 1
    {
      holder, holds := Some(t), holds + 1;
    }

    method Release()
      requires holds > 0
      modifies this`holder, this`holds
      ensures holds == old(holds) - 1 && holder == if holds == 0 then None else old(holder)
    {
      holds := holds - 1;
      if holds == 0 { holder := None; }
    }

    /** A repository write: under the lock, committed at once unless `_commit` is off. */
    method Put(t: Thread, w: Write, commit: bool)
      requires Consistent(Model()) && Enabled(Model(), t, Op.Put(w, commit))
      modifies this
      ensures Model() == Wrote(old(Model()), w, commit) && Consistent(Model())
    {
      StepKeepsConsistent(Model(), t, Op.Put(w, commit));
      Acquire(t);
      working := working + [w];
      if commit { durable := working; }
      Release();
    }
  }

  class Transaction {
    const repo: Repository
    var owns: bool

    constructor (repo: Repository)
      ensures this.repo == repo && !owns
    {
      this.repo, owns := repo, false;
    }

    method Enter(t: Thread)
      requires Consistent(repo.Model()) && Enabled(repo.Model(), t, Op.Enter) && !owns
      modifies this, repo
      ensures repo.Model() == Entered(old(repo.Model()), t) && Consistent(repo.Model())
      ensures owns <==> old(Depth(repo.Model(), t)) == 0
    {
      StepKeepsConsistent(repo.Model(), t, Op.Enter);
      repo.Acquire(t);
      var before := if t in repo.depth then repo.depth[t] else 0;
      if before == 0 { owns := true; }
      repo.depth := repo.depth[t := before + 1];
      repo.open := repo.open[t := (if t in repo.open then repo.open[t] else []) + [owns]];
    }

    /** Leaving the innermost open block of the thread; this object is that block. */
    method Exit(t: Thread, raised: bool)
      requires Consistent(repo.Model()) && Enabled(repo.Model(), t, Op.Leave(raised))
      requires owns <==> Owns(repo.Model(), t)[|Owns(repo.Model(), t)| - 1]
      modifies repo
      ensures repo.Model() == Left(old(repo.Model()), t, raised) && Consistent(repo.Model())
    {
      StepKeepsConsistent(repo.Model(), t, Op.Leave(raised));
      var left := if t in repo.depth then repo.depth[t] - 1 else -1;
      repo.depth := repo.depth[t := if left > 0 then left else 0];
      repo.open := repo.open[t := repo.open[t][..|repo.open[t]| - 1]];
      if owns {
        if !raised { repo.durable := repo.working; } else { repo.working := repo.durable; }
      }
      repo.Release();
    }
  }

  // ---- programs of nested blocks -----------------------------------------

  datatype Stmt =
    | Do(w: Write, commit: bool)
    | Block(body: seq<Stmt>)
    | Try(body: seq<Stmt>)
    | Raise

  /** The operations a program performs and whether an exception escapes it. */
  function Emit(p: seq<Stmt>): (seq<Op>, bool) {
    if p == [] then ([], false)
    else
      match p[0]
      case Do(w, commit) => var rest := Emit(p[1..]); ([Put(w, commit)] + rest.0, rest.1)
      case Raise => ([], true)
      case Try(body) => var rest := Emit(p[1..]); (Emit(body).0 + rest.0, rest.1)
      case Block(body) =>
        var inner := Emit(body);
        var ops := [Enter] + inner.0 + [Leave(inner.1)];
        if inner.1 then (ops, true)
        else var rest := Emit(p[1..]); (ops + rest.0, rest.1)
  }

  function Change(op: Op): int { if op.Enter? then 1 else if op.Leave? then -1 else 0 }

  /** Nesting level after `ops`, started at level `k`. */
  function Level(k: int, ops: seq<Op>): int
    decreases |ops|
  {
    if ops == [] then k else Level(k + Change(ops[0]), ops[1..])
  }

  /** The level never drops below `k` (before, during or after `ops`). */
  predicate StaysAbove(k: int, level: int, ops: seq<Op>)
    decreases |ops|
  {
    k <= level && (ops == [] || StaysAbove(k, level + Change(ops[0]), ops[1..]))
  }

  /** Everything that happens inside one block: it ends where it began and never leaves it. */
  predicate Balanced(ops: seq<Op>) { StaysAbove(0, 0, ops) && Level(0, ops) == 0 }

  lemma {:induction false} LevelConcat(k: int, a: seq<Op>, b: seq<Op>)
    ensures Level(k, a + b) == Level(Level(k, a), b)
    decreases |a|
  {
    if a == [] {
      assert a + b == b;
    } else {
      assert (a + b)[1..] == a[1..] + b;
      LevelConcat(k + Change(a[0]), a[1..], b);
    }
  }

  lemma {:induction false} StaysConcat(k: int, level: int, a: seq<Op>, b: seq<Op>)
    requires StaysAbove(k, level, a) && StaysAbove(k, Level(level, a), b)
    ensures StaysAbove(k, level, a + b)
    decreases |a|
  {
    if a == [] {
      assert a + b == b;
    } else {
      assert (a + b)[1..] == a[1..] + b;
      StaysConcat(k, level + Change(a[0]), a[1..], b);
    }
  }

  lemma {:induction false} LevelShift(k: int, d: int, ops: seq<Op>)
    ensures Level(k + d, ops) == Level(k, ops) + d
    decreases |ops|
  {
    if ops != [] { LevelShift(k + Change(ops[0]), d, ops[1..]); }
  }

  lemma {:induction false} StaysShift(k: int, level: int, d: int, ops: seq<Op>)
    requires StaysAbove(k, level, ops)
    ensures StaysAbove(k + d, level + d, ops)
    decreases |ops|
  {
    if ops != [] { StaysShift(k, level + Change(ops[0]), d, ops[1..]); }
  }

  lemma {:induction false} StaysWeaken(k: int, j: int, level: int, ops: seq<Op>)
    requires StaysAbove(k, level, ops) && j <= k
    ensures StaysAbove(j, level, ops)
    decreases |ops|
  {
    if ops != [] { StaysWeaken(k, j, level + Change(ops[0]), ops[1..]); }
  }

  lemma BalancedWrite(w: Write, commit: bool)
    ensures Balanced([Put(w, commit)])
  {
    var rest := [Put(w, commit)][1..];
    assert rest == [] && Level(0, rest) == 0 && StaysAbove(0, 0, rest);
  }

  lemma BalancedConcat(a: seq<Op>, b: seq<Op>)
    requires Balanced(a) && Balanced(b)
    ensures Balanced(a + b)
  {
    LevelConcat(0, a, b);
    StaysConcat(0, 0, a, b);
  }

  lemma BalancedBlock(inner: seq<Op>, raised: bool)
    requires Balanced(inner)
    ensures Balanced([Enter] + inner + [Leave(raised)])
  {
    LevelShift(0, 1, inner);
    StaysShift(0, 0, 1, inner);
    StaysWeaken(1, 0, 1, inner);
    LevelConcat(1, inner, [Leave(raised)]);
    assert Level(1, [Leave(raised)]) == 0 && StaysAbove(0, 1, [Leave(raised)]);
    StaysConcat(0, 1, inner, [Leave(raised)]);
    var ops := [Enter] + inner + [Leave(raised)];
    assert ops[1..] == inner + [Leave(raised)];
  }

  /** Exceptions caught or escaping, a program always closes what it opened. */
  lemma {:induction false} ProgramsBalance(p: seq<Stmt>)
    ensures Balanced(Emit(p).0)
  {
    if p != [] {
      match p[0]
      case Do(w, commit) =>
        ProgramsBalance(p[1..]);
        BalancedWrite(w, commit);
        BalancedConcat([Put(w, commit)], Emit(p[1..]).0);
      case Raise =>
      case Try(body) =>
        ProgramsBalance(body);
        ProgramsBalance(p[1..]);
        BalancedConcat(Emit(body).0, Emit(p[1..]).0);
      case Block(body) =>
        ProgramsBalance(body);
        ProgramsBalance(p[1..]);
        BalancedBlock(Emit(body).0, Emit(body).1);
        if !Emit(body).1 {
          BalancedConcat([Enter] + Emit(body).0 + [Leave(false)], Emit(p[1..]).0);
        }
    }
  }

  // ---- what a block does to the durable state ----------------------------

  function By(t: Thread, ops: seq<Op>): (s: seq<Event>)
    ensures |s| == |ops|
    ensures forall i :: 0 <= i < |s| ==> s[i] == Event(t, ops[i])
  {
    if ops == [] then [] else [Event(t, ops[0])] + By(t, ops[1..])
  }

  function Writes(ops: seq<Op>): seq<Write> {
    if ops == [] then []
    else (if ops[0].Put? then [ops[0].w] else []) + Writes(ops[1..])
  }

  predicate Commits(ops: seq<Op>) { exists i :: 0 <= i < |ops| && ops[i].Put? && ops[i].commit }

  /** The writes up to and including the last one that commits by itself. */
  function Committed(ops: seq<Op>): seq<Write> {
    if !Commits(ops) then []
    else (if ops[0].Put? then [ops[0].w] else []) + Committed(ops[1..])
  }

  lemma CommitsTail(ops: seq<Op>)
    requires ops != []
    ensures Commits(ops) <==> (ops[0].Put? && ops[0].commit) || Commits(ops[1..])
  {
    if Commits(ops) && !(ops[0].Put? && ops[0].commit) {
      var i :| 0 <= i < |ops| && ops[i].Put? && ops[i].commit;
      assert ops[1..][i - 1] == ops[i];
    }
    if Commits(ops[1..]) {
      var i :| 0 <= i < |ops| - 1 && ops[1..][i].Put? && ops[1..][i].commit;
      assert ops[i + 1].Put? && ops[i + 1].commit;
    }
  }

  lemma CommitsNeedWrites(ops: seq<Op>)
    requires Commits(ops)
    ensures Committed(ops) != []
    decreases |ops|
  {
    CommitsTail(ops);
    if !ops[0].Put? { CommitsNeedWrites(ops[1..]); }
  }

  /** The durable state once `ops` ran inside a block of the machine `m`. */
  function DurableInside(m: Machine, ops: seq<Op>): seq<Write> {
    if Commits(ops) then m.working + Committed(ops) else m.durable
  }

  lemma InsideStep(m: Machine, t: Thread, ops: seq<Op>)
    requires Consistent(m) && m.holder == Some(t) && ops != []
    requires StaysAbove(1, Depth(m, t), ops)
    ensures Enabled(m, t, ops[0])
    ensures var n := Apply(m, t, ops[0]);
      && Consistent(n) && n.holder == Some(t) && Depth(n, t) == Depth(m, t) + Change(ops[0])
      && n.working == m.working + (if ops[0].Put? then [ops[0].w] else [])
      && n.durable == (if ops[0].Put? && ops[0].commit then n.working else m.durable)
      && StaysAbove(1, Depth(n, t), ops[1..])
  {
    assert |Owns(m, t)| == Depth(m, t) && OnlyOutermostOwns(Owns(m, t));
    assert StaysAbove(1, Depth(m, t) + Change(ops[0]), ops[1..]);
    StepKeepsConsistent(m, t, ops[0]);
  }

  lemma NothingCommitted(ops: seq<Op>)
    requires !Commits(ops)
    ensures Committed(ops) == []
  {
  }

  lemma WritesFirst(m: Machine, n: Machine, ops: seq<Op>)
    requires ops != []
    requires n.working == m.working + (if ops[0].Put? then [ops[0].w] else [])
    requires n.durable == if ops[0].Put? && ops[0].commit then n.working else m.durable
    ensures n.working + Writes(ops[1..]) == m.working + Writes(ops)
    ensures DurableInside(n, ops[1..]) == DurableInside(m, ops)
  {
    var first := if ops[0].Put? then [ops[0].w] else [];
    CommitsTail(ops);
    assert Writes(ops) == first + Writes(ops[1..]);
    assert Commits(ops) ==> Committed(ops) == first + Committed(ops[1..]);
    hide Writes, Committed, Commits;
    ConcatAssociative(m.working, first, Writes(ops[1..]));
    ConcatAssociative(m.working, first, Committed(ops[1..]));
    if Commits(ops) && !Commits(ops[1..]) {
      NothingCommitted(ops[1..]);
      assert n.working + [] == n.working;
    }
  }

  lemma InsideNothing(m: Machine, t: Thread)
    ensures By(t, []) == [] && CanRun(m, []) && After(m, []) == m
    ensures Level(Depth(m, t), []) == Depth(m, t)
    ensures m.working + Writes([]) == m.working && DurableInside(m, []) == m.durable
  {
  }

  lemma RunFirst(m: Machine, t: Thread, ops: seq<Op>)
    requires ops != [] && Enabled(m, t, ops[0])
    requires CanRun(Apply(m, t, ops[0]), By(t, ops[1..]))
    ensures CanRun(m, By(t, ops))
    ensures After(m, By(t, ops)) == After(Apply(m, t, ops[0]), By(t, ops[1..]))
    ensures Level(Depth(m, t), ops) == Level(Depth(m, t) + Change(ops[0]), ops[1..])
  {
    var s := By(t, ops);
    assert s[0].t == t && s[0].op == ops[0] && s[1..] == By(t, ops[1..]);
    hide Enabled, Apply, By;
  }

  /** As long as a thread stays inside its outermost block, nobody stops it, the
      working state collects its writes, and only a write that commits by itself
      reaches the durable state. */
  lemma {:induction false} InsideBlock(m: Machine, t: Thread, ops: seq<Op>)
    requires Consistent(m) && m.holder == Some(t) && StaysAbove(1, Depth(m, t), ops)
    ensures CanRun(m, By(t, ops))
    ensures var n := After(m, By(t, ops));
      && Consistent(n) && n.holder == Some(t) && Depth(n, t) == Level(Depth(m, t), ops)
      && n.working == m.working + Writes(ops)
      && n.durable == DurableInside(m, ops)
    decreases |ops|
  {
    hide *;
    if ops == [] {
      InsideNothing(m, t);
    } else {
      InsideStep(m, t, ops);
      var n := Apply(m, t, ops[0]);
      WritesFirst(m, n, ops);
      InsideBlock(n, t, ops[1..]);
      RunFirst(m, t, ops);
    }
  }

  lemma {:induction false} AfterConcat(m: Machine, a: seq<Event>, b: seq<Event>)
    requires CanRun(m, a)
    ensures CanRun(m, a + b) <==> CanRun(After(m, a), b)
    ensures CanRun(m, a + b) ==> After(m, a + b) == After(After(m, a), b)
    decreases |a|
  {
    if a == [] {
      assert a + b == b;
    } else {
      assert (a + b)[1..] == a[1..] + b;
      AfterConcat(Apply(m, a[0].t, a[0].op), a[1..], b);
    }
  }

  /** One outermost block from start to end. */
  function BlockOps(inner: seq<Op>, raised: bool): seq<Op> { [Enter] + inner + [Leave(raised)] }

  /** What a whole outermost block leaves behind of the durable state `d`. */
  function BlockResult(d: seq<Write>, inner: seq<Op>, raised: bool): seq<Write> {
    d + if raised then Committed(inner) else Writes(inner)
  }

  lemma EnterFromIdle(m: Machine, t: Thread)
    requires Consistent(m) && m.holder.None?
    ensures Enabled(m, t, Enter) && Apply(m, t, Enter) == Entered(m, t)
    ensures var e := Entered(m, t);
      Consistent(e) && e.holder == Some(t) && Depth(e, t) == 1 && e.working == e.durable == m.durable
  {
    StepKeepsConsistent(m, t, Enter);
  }

  lemma BalancedInside(inner: seq<Op>)
    requires Balanced(inner)
    ensures StaysAbove(1, 1, inner) && Level(1, inner) == 1
  {
    LevelShift(0, 1, inner);
    StaysShift(0, 0, 1, inner);
  }

  lemma LeaveOutermost(n: Machine, t: Thread, raised: bool)
    requires Consistent(n) && n.holder == Some(t) && Depth(n, t) == 1
    ensures var last := [Event(t, Leave(raised))];
      && CanRun(n, last) && Consistent(After(n, last)) && After(n, last).holder.None?
      && After(n, last).durable == if raised then n.durable else n.working
  {
    assert |Owns(n, t)| == 1 && OnlyOutermostOwns(Owns(n, t));
    StepKeepsConsistent(n, t, Leave(raised));
    var last := [Event(t, Leave(raised))];
    var l := Left(n, t, raised);
    assert last[0].t == t && last[0].op == Leave(raised) && last[1..] == [];
    assert CanRun(l, []);
  }

  lemma EnterThen(m: Machine, t: Thread, s: seq<Event>)
    requires Enabled(m, t, Enter) && CanRun(Entered(m, t), s)
    ensures CanRun(m, [Event(t, Enter)] + s)
    ensures After(m, [Event(t, Enter)] + s) == After(Entered(m, t), s)
  {
    var whole := [Event(t, Enter)] + s;
    assert whole[0].t == t && whole[0].op == Enter && whole[1..] == s;
  }

  lemma ByBlock(t: Thread, inner: seq<Op>, raised: bool)
    ensures By(t, BlockOps(inner, raised)) == [Event(t, Enter)] + (By(t, inner) + [Event(t, Leave(raised))])
  {
    hide By;
  }

  lemma BlockLeaves(m: Machine, e: Machine, inner: seq<Op>, raised: bool)
    requires e.working == e.durable == m.durable
    ensures BlockResult(m.durable, inner, raised)
         == if raised then DurableInside(e, inner) else e.working + Writes(inner)
  {
    if raised && !Commits(inner) { assert m.durable + [] == m.durable; }
    hide Writes, Committed, Commits;
  }

  lemma {:induction false} OutermostBlock(m: Machine, t: Thread, inner: seq<Op>, raised: bool)
    requires Consistent(m) && m.holder.None? && Balanced(inner)
    ensures CanRun(m, By(t, BlockOps(inner, raised)))
    ensures var n := After(m, By(t, BlockOps(inner, raised)));
      && Consistent(n) && n.holder.None?
      && n.durable == BlockResult(m.durable, inner, raised)
  {
    hide *;
    var e := Entered(m, t);
    EnterFromIdle(m, t);
    BalancedInside(inner);
    InsideBlock(e, t, inner);
    var n := After(e, By(t, inner));
    LeaveOutermost(n, t, raised);
    AfterConcat(e, By(t, inner), [Event(t, Leave(raised))]);
    ByBlock(t, inner, raised);
    EnterThen(m, t, By(t, inner) + [Event(t, Leave(raised))]);
    BlockLeaves(m, e, inner, raised);
  }

  lemma {:induction false} StaysPrefix(k: int, level: int, ops: seq<Op>, n: nat)
    requires StaysAbove(k, level, ops) && n <= |ops|
    ensures StaysAbove(k, level, ops[..n])
    decreases |ops|
  {
    if n > 0 {
      StaysPrefix(k, level + Change(ops[0]), ops[1..], n - 1);
      assert ops[..n][1..] == ops[1..][..n - 1];
    }
  }

  /** Every prefix of a block whose inner writes leave committing to it keeps the
      durable state as it was. */
  lemma NothingLeaksBeforeExit(m: Machine, t: Thread, inner: seq<Op>, k: nat)
    requires Consistent(m) && m.holder.None? && Balanced(inner) && !Commits(inner) && k <= |inner|
    ensures CanRun(m, By(t, [Enter] + inner[..k]))
    ensures After(m, By(t, [Enter] + inner[..k])).durable == m.durable
  {
    var e := Entered(m, t);
    StepKeepsConsistent(m, t, Enter);
    StaysShift(0, 0, 1, inner);
    StaysPrefix(1, 1, inner, k);
    assert Depth(e, t) == 1;
    InsideBlock(e, t, inner[..k]);
    assert !Commits(inner[..k]);
    var start := By(t, [Enter] + inner[..k]);
    assert start[0] == Event(t, Enter) && start[1..] == By(t, inner[..k]);
  }

  /** A program of nested blocks, exceptions caught or escaping, is all or nothing:
      a clean exit makes every executed write durable, an escaping exception none --
      if and only if no inner write commits by itself. */
  lemma AtomicBlock(m: Machine, t: Thread, body: seq<Stmt>)
    requires Consistent(m) && m.holder.None?
    ensures var inner := Emit(body).0; var raised := Emit(body).1;
      var program := By(t, Emit([Block(body)]).0);
      && CanRun(m, program)
      && Consistent(After(m, program)) && After(m, program).holder.None?
      && Depth(After(m, program), t) == 0 == After(m, program).holds
      && (!raised ==> After(m, program).durable == m.durable + Writes(inner))
      && (raised ==> (After(m, program).durable == m.durable <==> !Commits(inner)))
  {
    var inner := Emit(body).0;
    var raised := Emit(body).1;
    ProgramsBalance(body);
    OutermostBlock(m, t, inner, raised);
    assert Emit([Block(body)]).0 == BlockOps(inner, raised) by {
      if !raised { assert Emit([Block(body)][1..]).0 == []; }
    }
    if Commits(inner) { CommitsNeedWrites(inner); }
    if raised && Commits(inner) {
      assert |m.durable + Committed(inner)| > |m.durable|;
    }
  }

  /** A write that commits by itself inside a block survives the block's exception. */
  lemma CommittingWriteBreaksRollback(m: Machine, t: Thread, w: Write)
    requires Consistent(m) && m.holder.None?
    ensures var program := By(t, Emit([Block([Do(w, true), Raise])]).0);
      CanRun(m, program) && After(m, program).durable == m.durable + [w]
  {
    var body := [Do(w, true), Raise];
    assert body[1..] == [Raise] && Emit([Raise]) == ([], true);
    assert [Put(w, true)] + [] == [Put(w, true)];
    assert Emit(body) == ([Put(w, true)], true);
    var inner := Emit(body).0;
    ProgramsBalance(body);
    OutermostBlock(m, t, inner, true);
    assert Emit([Block(body)]).0 == BlockOps(inner, true);
    CommitsTail(inner);
    assert Committed(inner) == [w];
  }

  // ---- any interleaving is a serial order --------------------------------

  /** What one thread does while it holds the lock: one committing write, or one
      outermost block. */
  datatype Unit = Bare(t: Thread, w: Write) | Whole(t: Thread, inner: seq<Op>, raised: bool)

  function UnitEvents(u: Unit): seq<Event> {
    match u
    case Bare(t, w) => [Event(t, Put(w, true))]
    case Whole(t, inner, raised) => By(t, BlockOps(inner, raised))
  }

  predicate WellFormed(units: seq<Unit>) {
    forall u :: u in units && u.Whole? ==> Balanced(u.inner)
  }

  function Flat(units: seq<Unit>): seq<Event> {
    if units == [] then [] else UnitEvents(units[0]) + Flat(units[1..])
  }

  function Result(d: seq<Write>, u: Unit): seq<Write> {
    match u
    case Bare(_, w) => d + [w]
    case Whole(_, inner, raised) => BlockResult(d, inner, raised)
  }

  /** One unit after the other, each seeing only what the earlier ones left. */
  function Serial(d: seq<Write>, units: seq<Unit>): seq<Write>
    decreases |units|
  {
    if units == [] then d else Serial(Result(d, units[0]), units[1..])
  }

  /** The schedule without the steps that do not touch the repository. */
  function Shared(s: seq<Event>): seq<Event> {
    if s == [] then []
    else (if s[0].op.Local? then [] else [s[0]]) + Shared(s[1..])
  }

  lemma {:induction false} SharedRuns(m: Machine, s: seq<Event>)
    requires CanRun(m, s)
    ensures CanRun(m, Shared(s)) && After(m, Shared(s)) == After(m, s)
    ensures forall e :: e in Shared(s) ==> !e.op.Local?
    decreases |s|
  {
    if s != [] {
      SharedRuns(Apply(m, s[0].t, s[0].op), s[1..]);
      if s[0].op.Local? {
        assert Shared(s) == Shared(s[1..]);
      } else {
        assert Shared(s)[1..] == Shared(s[1..]);
      }
    }
  }

  function Ops(s: seq<Event>): (ops: seq<Op>)
    ensures |ops| == |s| && forall i :: 0 <= i < |s| ==> ops[i] == s[i].op
  {
    if s == [] then [] else [s[0].op] + Ops(s[1..])
  }

  lemma HolderStarts(m: Machine, t: Thread)
    requires Consistent(m) && m.holder == Some(t)
    ensures Ops([]) == [] && By(t, []) == []
    ensures StaysAbove(1, Depth(m, t), []) && Level(Depth(m, t), []) == Depth(m, t)
  {
  }

  /** The lock keeps everybody else out: the next shared step is the holder's. */
  lemma HolderActs(m: Machine, t: Thread, s: seq<Event>)
    requires Consistent(m) && m.holder == Some(t) && CanRun(m, s) && s != [] && !s[0].op.Local?
    ensures s[0].t == t && Enabled(m, t, s[0].op) && CanRun(Apply(m, t, s[0].op), s[1..])
    ensures !(s[0].op.Leave? && Depth(m, t) == 1) ==>
      var next := Apply(m, t, s[0].op);
      Consistent(next) && next.holder == Some(t) && 1 <= Depth(m, t) && Depth(next, t) == Depth(m, t) + Change(s[0].op)
  {
    assert |Owns(m, t)| == Depth(m, t);
    StepKeepsConsistent(m, t, s[0].op);
  }

  lemma PrependOwn(t: Thread, s: seq<Event>, rest: seq<Event>)
    requires s != [] && s == [s[0]] + rest && s[0].t == t && rest == By(t, Ops(rest))
    ensures s == By(t, Ops(s)) && Ops(s) == [s[0].op] + Ops(rest)
  {
    assert s[1..] == rest;
    assert ([s[0].op] + Ops(rest))[1..] == Ops(rest);
  }

  lemma LevelPrepends(k: int, op: Op, ops: seq<Op>)
    ensures Level(k, [op] + ops) == Level(k + Change(op), ops)
    ensures 1 <= k && StaysAbove(1, k + Change(op), ops) ==> StaysAbove(1, k, [op] + ops)
  {
    assert ([op] + ops)[1..] == ops;
  }

  /** While a thread is in its block, every shared step is its own, up to the
      `Leave` that ends the outermost block. */
  lemma {:induction false} OnlyTheHolder(m: Machine, t: Thread, s: seq<Event>) returns (n: nat)
    requires Consistent(m) && m.holder == Some(t) && CanRun(m, s)
    requires forall e :: e in s ==> !e.op.Local?
    ensures n <= |s| && s[..n] == By(t, Ops(s[..n]))
    ensures StaysAbove(1, Depth(m, t), Ops(s[..n]))
    ensures n < |s| ==> s[n].t == t && s[n].op.Leave? && Level(Depth(m, t), Ops(s[..n])) == 1
    decreases |s|
  {
    hide *;
    if s == [] {
      HolderStarts(m, t);
      assert s[..0] == [];
      return 0;
    }
    assert s[0] in s;
    HolderActs(m, t, s);
    if s[0].op.Leave? && Depth(m, t) == 1 {
      HolderStarts(m, t);
      assert s[..0] == [];
      return 0;
    }
    var op, rest := s[0].op, s[1..];
    assert forall e :: e in rest ==> e in s;
    var k := OnlyTheHolder(Apply(m, t, op), t, rest);
    n := k + 1;
    var own := s[..n];
    assert own == [s[0]] + rest[..k] && own[0] == s[0];
    PrependOwn(t, own, rest[..k]);
    LevelPrepends(Depth(m, t), op, Ops(rest[..k]));
  }

  lemma FirstFromIdle(m: Machine, s: seq<Event>)
    requires Consistent(m) && m.holder.None? && CanRun(m, s) && s != [] && !s[0].op.Local?
    ensures s[0].op.Enter? || (s[0].op.Put? && s[0].op.commit)
    ensures s[0].op.Enter? ==> CanRun(Entered(m, s[0].t), s[1..])
    ensures s[0].op.Enter? ==> After(m, s) == After(Entered(m, s[0].t), s[1..])
  {
  }

  lemma BareUnit(m: Machine, t: Thread, w: Write)
    requires Consistent(m) && m.holder.None?
    ensures var one := UnitEvents(Bare(t, w));
      && CanRun(m, one) && Consistent(After(m, one)) && After(m, one).holder.None?
      && After(m, one).durable == m.durable + [w]
  {
    StepKeepsConsistent(m, t, Put(w, true));
    var one := UnitEvents(Bare(t, w));
    assert one[0].t == t && one[0].op == Put(w, true) && one[1..] == [];
    assert CanRun(Wrote(m, w, true), []);
  }

  lemma BlockUnit(s: seq<Event>, t: Thread, n: nat, raised: bool)
    requires n + 1 < |s| && s[0] == Event(t, Enter) && s[n + 1] == Event(t, Leave(raised))
    requires s[1..][..n] == By(t, Ops(s[1..][..n]))
    ensures s == UnitEvents(Whole(t, Ops(s[1..][..n]), raised)) + s[n + 2..]
  {
    ByBlock(t, Ops(s[1..][..n]), raised);
    hide By, Ops, BlockOps;
    var body := s[1..][..n];
    assert s == [s[0]] + (body + [s[n + 1]]) + s[n + 2..];
  }

  lemma OpenBlockKeepsDurable(s: seq<Event>, inner: seq<Op>)
    requires s != [] && Ops(s[1..]) == inner && !Commits(Ops(s))
    ensures !Commits(inner)
  {
    forall i | 0 <= i < |inner| && inner[i].Put?
      ensures !inner[i].commit
    {
      assert Ops(s)[i + 1] == inner[i];
    }
  }

  lemma OpenUnit(m: Machine, s: seq<Event>)
    requires Consistent(m) && m.holder.None? && s != [] && s[0].op.Enter?
    requires s[1..] == By(s[0].t, Ops(s[1..])) && StaysAbove(1, 1, Ops(s[1..]))
    ensures CanRun(m, s) && After(m, s).holder == Some(s[0].t)
    ensures forall e :: e in s ==> e.t == s[0].t
    ensures !Commits(Ops(s)) ==> After(m, s).durable == m.durable
  {
    EnterFromIdle(m, s[0].t);
    InsideBlock(Entered(m, s[0].t), s[0].t, Ops(s[1..]));
    assert forall e :: e in s ==> e == s[0] || e in s[1..];
    if !Commits(Ops(s)) { OpenBlockKeepsDurable(s, Ops(s[1..])); }
  }

  lemma BalancedBody(inner: seq<Op>)
    requires StaysAbove(1, 1, inner) && Level(1, inner) == 1
    ensures Balanced(inner)
  {
    LevelShift(1, -1, inner);
    StaysShift(1, 1, -1, inner);
  }

  /** The first unit of a run that starts with the lock free, if it ends. */
  lemma FirstUnit(m: Machine, s: seq<Event>) returns (ended: bool, u: Unit, rest: seq<Event>)
    requires Consistent(m) && m.holder.None? && CanRun(m, s) && s != []
    requires forall e :: e in s ==> !e.op.Local?
    ensures ended ==> s == UnitEvents(u) + rest && (u.Whole? ==> Balanced(u.inner)) && |rest| < |s|
    ensures ended ==> CanRun(m, UnitEvents(u)) && Consistent(After(m, UnitEvents(u)))
    ensures ended ==> After(m, UnitEvents(u)).holder.None?
    ensures ended ==> After(m, UnitEvents(u)).durable == Result(m.durable, u)
    ensures !ended ==> After(m, s).holder == Some(s[0].t) && forall e :: e in s ==> e.t == s[0].t
    ensures !ended && !Commits(Ops(s)) ==> After(m, s).durable == m.durable
  {
    var t := s[0].t;
    assert s[0] in s;
    FirstFromIdle(m, s);
    EnterFromIdle(m, t);
    hide Consistent, CanRun, After, Entered, Depth, Level, StaysAbove, Committed, Writes, Commits, By, BlockOps, BlockResult;
    rest := s[1..];
    assert forall e :: e in rest ==> e in s;
    if s[0].op.Put? {
      ended, u := true, Bare(t, s[0].op.w);
      BareUnit(m, t, s[0].op.w);
      assert s == UnitEvents(u) + rest;
      return;
    }
    var n := OnlyTheHolder(Entered(m, t), t, rest);
    ended := n < |rest|;
    if ended {
      u := Whole(t, Ops(rest[..n]), rest[n].op.raised);
      BalancedBody(u.inner);
      OutermostBlock(m, t, u.inner, u.raised);
      assert s[n + 1] == rest[n];
      BlockUnit(s, t, n, u.raised);
      rest := s[n + 2..];
    } else {
      u := Whole(t, [], false);
      assert rest[..n] == rest;
      OpenUnit(m, s);
    }
  }

  lemma AfterNothing(m: Machine)
    ensures CanRun(m, []) && After(m, []) == m
  {
  }

  /** Threads may interleave as they like: what touches the repository happens as a
      sequence of whole units, one thread at a time, and the durable state is what
      running those units one after the other gives.  A unit still open at the end
      belongs to the lock holder and, as long as it commits nothing, has no effect. */
  lemma {:induction false} Serialisable(m: Machine, s: seq<Event>) returns (units: seq<Unit>, open: seq<Event>)
    requires Consistent(m) && m.holder.None? && CanRun(m, s)
    requires forall e :: e in s ==> !e.op.Local?
    ensures s == Flat(units) + open && WellFormed(units)
    ensures After(m, s).holder.None? <==> open == []
    ensures forall e :: e in open ==> After(m, s).holder == Some(e.t)
    ensures !Commits(Ops(open)) ==> After(m, s).durable == Serial(m.durable, units)
    decreases |s|
  {
    hide Consistent, CanRun, After, UnitEvents, Commits, Ops, Balanced, Result;
    if s == [] {
      AfterNothing(m);
      return [], [];
    }
    var ended, u, rest := FirstUnit(m, s);
    if !ended { return [], s; }
    AfterConcat(m, UnitEvents(u), rest);
    assert forall e :: e in rest ==> e in s;
    var others;
    others, open := Serialisable(After(m, UnitEvents(u)), rest);
    units := [u] + others;
    assert units[1..] == others;
    assert s == UnitEvents(u) + (Flat(others) + open);
    assert Flat(units) == UnitEvents(u) + Flat(others);
  }

  /** The same for schedules with steps outside the repository. */
  lemma ScheduleIsSerial(m: Machine, s: seq<Event>) returns (units: seq<Unit>)
    requires Consistent(m) && m.holder.None? && CanRun(m, s) && After(m, s).holder.None?
    ensures Shared(s) == Flat(units) && WellFormed(units)
    ensures After(m, s).durable == Serial(m.durable, units)
  {
    SharedRuns(m, s);
    var open;
    units, open := Serialisable(m, Shared(s));
    assert Flat(units) + [] == Flat(units);
  }
}
