/** Which nodes the effects of a statement may mark: its own, and the blocks its jumps lead to. */
module FlowBounds {
  import opened Classes
  import opened JavaAst
  import opened Options
  import opened Flow

  /** The innermost block, and the blocks and loop bodies that a jump may lead to in env. */
  function Outer(env: Env): set<Id> {
    (if env.level > 0 then {env.top} else {}) +
    (if env.breaks.Some? then {env.breaks.value.id} else {}) +
    (if env.continues.Some? then {env.continues.value.id} else {}) +
    (set l | l in env.labels :: env.labels[l].target.id) +
    (set l | l in env.labels && env.labels[l].loopBody.Some? :: env.labels[l].loopBody.value)
  }

  ghost predicate Bounded(f: Fx, ids: set<Id>, env: Env) {
    f.reach <= ids && f.done <= ids + Outer(env)
  }

  lemma {:induction false} LevelOuter(env: Env)
    requires env.level > 0
    ensures Outer(env.(level := env.level + 1)) == Outer(env)
  {
  }

  lemma {:induction false} BlockOuter(id: Id, tag: Option<string>, ss: seq<Stmt>, env: Env)
    ensures Outer(EnterBlock(id, tag, ss, env)) <= {id} + IdsOf(ss) + Outer(env)
  {
    var inner := EnterBlock(id, tag, ss, env);
    if ss != [] && IsLoop(ss[0]) {
      assert ss[0].body.id in Ids(ss[0].body) && Ids(ss[0].body) <= Ids(ss[0]);
    }
    forall l | l in inner.labels
      ensures inner.labels[l].target.id in {id} + Outer(env)
      ensures inner.labels[l].loopBody.Some? ==> inner.labels[l].loopBody.value in IdsOf(ss) + Outer(env)
    {
    }
  }

  lemma {:induction false} AnalyzeBounded(s: Stmt, r: bool, env: Env)
    requires env.level > 0 && Shape(s)
    ensures Bounded(Analyze(s, r, env), Ids(s), env)
    decreases s, 1
  {
    match s
    case Simple(_, _) =>
    case Local(_, _, _) =>
    case Return(_, _) =>
    case Throw(_, _, _) =>
    case Break(_, _) =>
    case Continue(_, _) =>
    case Block(id, tag, ss) => BlockBounded(s, r, env);
    case If(_, _, _, _) => IfBounded(s, r, env);
    case While(id, c, b) =>
      LoopBounded(id, Eval(id, c.throws, env), b, r, CanBe(c, true), r && CanBe(c, false), Ids(s), env);
    case For(_, _, _, _, _) => ForBounded(s, r, env);
    case Foreach(_, _, _, _, b) => AnalyzeBounded(b, r, EnterLoop(b.id, env));
    case Do(_, b, _) => AnalyzeBounded(b, r, EnterLoop(b.id, env));
    case Switch(_, bid, _, gs, _) => GroupsBounded(gs, r, false, EnterSwitch(bid, env));
    case Try(_, _, _, _) => TryBounded(s, r, env);
    case Sync(_, _, b) => AnalyzeBounded(b, r, env);
  }

  lemma {:induction false} BlockBounded(s: Stmt, r: bool, env: Env)
    requires s.Block? && Shape(s)
    ensures Bounded(AnalyzeBlock(s.id, s.tag, s.stmts, r, env), Ids(s), env)
    decreases s, 0
  {
    hide Analyze;
    var inner := EnterBlock(s.id, s.tag, s.stmts, env);
    SeqBounded(s.stmts, r, inner);
    BlockOuter(s.id, s.tag, s.stmts, env);
  }

  lemma {:induction false} SeqBounded(ss: seq<Stmt>, r: bool, env: Env)
    requires env.level > 0 && forall i :: 0 <= i < |ss| ==> Shape(ss[i])
    ensures Bounded(AnalyzeSeq(ss, r, env), IdsOf(ss), env)
    decreases ss, 0
  {
    hide Analyze, Shape;
    if ss != [] {
      AnalyzeBounded(ss[0], r, env);
      SeqBounded(ss[1..], Analyze(ss[0], r, env).completes, env);
    }
  }

  lemma {:induction false} HeadersBounded(ss: seq<Stmt>, env: Env)
    requires env.level > 0 && forall i :: 0 <= i < |ss| ==> IsHeader(ss[i])
    ensures AnalyzeHeaders(ss, env).reach == {} && AnalyzeHeaders(ss, env).done == {}
  {
    if ss != [] {
      HeadersBounded(ss[1..], env);
    }
  }

  lemma {:induction false} IfBounded(s: Stmt, r: bool, env: Env)
    requires s.If? && env.level > 0 && Shape(s)
    ensures Bounded(AnalyzeIf(s, r, env), Ids(s), env)
    decreases s, 0
  {
    hide Analyze;
    AnalyzeBounded(s.thn, r, env);
    if s.els.Some? {
      AnalyzeBounded(s.els.value, r, env);
    }
  }

  lemma {:induction false} LoopBounded(id: Id, head: Fx, b: Stmt, r: bool, enters: bool, exits: bool, ids: set<Id>,
                                       env: Env)
    requires env.level > 0 && b.Block? && Shape(b) && id in ids && Ids(b) <= ids
    requires head.reach == {} && head.done == {}
    ensures Bounded(AnalyzeLoop(id, head, b, r, enters, exits, env), ids, env)
    decreases b, 2
  {
    hide Analyze;
    AnalyzeBounded(b, r && enters, EnterLoop(b.id, env));
    assert b.id in Ids(b);
  }

  lemma {:induction false} ForBounded(s: Stmt, r: bool, env: Env)
    requires s.For? && env.level > 0 && Shape(s)
    ensures Bounded(AnalyzeFor(s, r, env), Ids(s), env)
    decreases s, 0
  {
    hide Analyze;
    var c := ForCondition(s.end);
    HeadersBounded(s.init, env);
    HeadersBounded(s.update, env);
    LoopBounded(s.id, AnalyzeHeaders(s.init, env).Then(Eval(s.id, c.throws, env)), s.body, r,
                CanBe(c, true), r && CanBe(c, false), Ids(s), env);
  }

  lemma {:induction false} GroupBounded(g: Stmt, r: bool, env: Env)
    requires env.level > 0 && g.Block? && Shape(g)
    ensures Bounded(AnalyzeSeq(g.stmts, r, env), Ids(g), env) && g.id in Ids(g)
    decreases g, 2
  {
    hide Analyze;
    SeqBounded(g.stmts, r, env);
  }

  lemma {:induction false} GroupsBounded(gs: seq<Stmt>, r: bool, last: bool, env: Env)
    requires env.level > 0 && forall i :: 0 <= i < |gs| ==> gs[i].Block? && Shape(gs[i])
    ensures Bounded(AnalyzeGroups(gs, r, last, env), IdsOf(gs), env)
    decreases gs, 0
  {
    hide Analyze, AnalyzeSeq, Shape, Ids, Outer, GapErrors;
    LevelOuter(env);
    if gs != [] {
      GroupBounded(gs[0], r, env.(level := env.level + 1));
      GroupsBounded(gs[1..], r, AnalyzeSeq(gs[0].stmts, r, env.(level := env.level + 1)).completes, env);
    }
  }

  lemma {:induction false} TryOuter(env: Env, abrupt: bool, catching: seq<Class>)
    ensures Outer(EnterTry(env, abrupt, catching)) == Outer(env)
  {
  }

  lemma {:induction false} TryBounded(s: Stmt, r: bool, env: Env)
    requires s.Try? && env.level > 0 && Shape(s)
    ensures Bounded(AnalyzeTry(s, r, env), Ids(s), env)
    decreases s, 0
  {
    hide Analyze;
    hide AnalyzeCatches;
    hide Ids;
    var Try(id, b, cs, f) := s;
    var ff := if f.Some? then Analyze(f.value, r, env) else Fx({}, {}, {}, {}, true);
    if f.Some? {
      AnalyzeBounded(f.value, r, env);
    }
    var env1, env2 := EnterTry(env, !ff.completes, CatchTypes(cs)), EnterTry(env, !ff.completes, []);
    var fb := Analyze(b, r, env1);
    AnalyzeBounded(b, r, env1);
    CatchesBounded(cs, [], fb.exc + {ERROR, RUNTIME_EXCEPTION}, env2);
    TryIds(s);
    TryOuter(env, !ff.completes, CatchTypes(cs));
    TryOuter(env, !ff.completes, []);
    hide Outer;
    hide Shape;
    hide NotCaught;
    hide CatchTypes;
    hide EnterTry;
    assert AnalyzeTry(s, r, env).reach <= Ids(s);
    assert Bounded(ff, Ids(s), env) && Bounded(fb, Ids(s), env);
  }

  lemma {:induction false} TryIds(s: Stmt)
    requires s.Try?
    ensures s.id in Ids(s) && Ids(s.body) <= Ids(s) && IdsOfCatches(s.catches) <= Ids(s)
    ensures s.fin.Some? ==> Ids(s.fin.value) <= Ids(s)
  {
  }

  lemma {:induction false} CatchesBounded(cs: seq<Catch>, before: seq<Class>, found: set<Class>, env: Env)
    requires env.level > 0 && forall i :: 0 <= i < |cs| ==> Shape(cs[i].body)
    ensures Bounded(AnalyzeCatches(cs, before, found, env), IdsOfCatches(cs), env)
    decreases cs, 0
  {
    hide Analyze, Shape;
    if cs != [] {
      var c := cs[0];
      assert c.body < c && c.body.id in Ids(c.body);
      AnalyzeBounded(c.body, true, env);
      CatchesBounded(cs[1..], before + [c.cls], found, env);
    }
  }
}
