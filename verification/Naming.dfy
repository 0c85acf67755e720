/** Exactly which labels and jumps are reported as wrong, by the names in scope. */
module Naming {
  import opened JavaAst
  import opened Classes
  import opened Options
  import opened Flow
  import opened ClauseReports
  import opened Causes
  import opened MethodBodies

  /** The labels in scope, each with whether it labels a loop, and whether a switch or loop is around. */
  datatype Scope = Scope(labels: map<string, bool>, breakable: bool, loop: bool)

  /** A repeated label is an error, and the first one stays in scope. */
  function Inside(tag: Option<string>, ss: seq<Stmt>, sc: Scope): Scope {
    if tag.Some? && tag.value !in sc.labels
    then sc.(labels := sc.labels[tag.value := ss != [] && IsLoop(ss[0])]) else sc
  }

  function InLoop(sc: Scope): Scope {
    sc.(breakable := true, loop := true)
  }

  /** The errors about labels and jumps in s. */
  function Misnamed(s: Stmt, sc: Scope): set<Error>
    decreases s, 1
  {
    match s
    case Block(id, tag, ss) =>
      If1(tag.Some? && tag.value in sc.labels, DuplicateLabel(id)) + MisnamedAmong(ss, Inside(tag, ss, sc))
    case If(_, _, t, e) => Misnamed(t, sc) + (if e.Some? then Misnamed(e.value, sc) else {})
    case While(_, _, b) => Misnamed(b, InLoop(sc))
    case Do(_, b, _) => Misnamed(b, InLoop(sc))
    case For(_, _, _, _, b) => Misnamed(b, InLoop(sc))
    case Foreach(_, _, _, _, b) => Misnamed(b, InLoop(sc))
    case Switch(_, _, _, gs, _) => MisnamedInGroups(gs, sc.(breakable := true))
    case Break(id, None) => If1(!sc.breakable, MisplacedBreak(id))
    case Break(id, Some(l)) => If1(l !in sc.labels, UndeclaredLabel(id))
    case Continue(id, t) =>
      if !sc.loop then {MisplacedContinue(id)}
      else if t.None? then {}
      else if t.value !in sc.labels then {UndeclaredLabel(id)}
      else If1(!sc.labels[t.value], InvalidContinueTarget(id))
    case Try(_, b, cs, f) =>
      Misnamed(b, sc) + MisnamedInClauses(cs, sc) + (if f.Some? then Misnamed(f.value, sc) else {})
    case Sync(_, _, b) => Misnamed(b, sc)
    case _ => {}
  }

  function MisnamedAmong(ss: seq<Stmt>, sc: Scope): set<Error>
    decreases ss, 0
  {
    if ss == [] then {} else Misnamed(ss[0], sc) + MisnamedAmong(ss[1..], sc)
  }

  function MisnamedInGroups(gs: seq<Stmt>, sc: Scope): set<Error>
    decreases gs, 0
  {
    if gs == [] || !gs[0].Block? then {} else MisnamedAmong(gs[0].stmts, sc) + MisnamedInGroups(gs[1..], sc)
  }

  function MisnamedInClauses(cs: seq<Catch>, sc: Scope): set<Error>
    decreases cs, 0
  {
    if cs == [] then {} else
      var c := cs[0];
      assert c.body < c;
      Misnamed(c.body, sc) + MisnamedInClauses(cs[1..], sc)
  }

  // ---- The analysis reports just these

  function ScopeOf(env: Env): Scope {
    Scope(map l | l in env.labels :: env.labels[l].loopBody.Some?, env.breaks.Some?, env.continues.Some?)
  }

  /** Among errs those about names are `wrong`, and none is about a missing return. */
  ghost predicate NamesAre(errs: set<Error>, wrong: set<Error>) {
    && (forall e :: e in errs && e.IsNaming() ==> e in wrong)
    && wrong <= errs
    && (forall e :: e in wrong ==> e.IsNaming())
    && forall i :: MissingReturn(i) !in errs
  }

  lemma {:induction false} NamesUnion(errs: set<Error>, wrong: set<Error>, errs': set<Error>, wrong': set<Error>)
    requires NamesAre(errs, wrong) && NamesAre(errs', wrong')
    ensures NamesAre(errs + errs', wrong + wrong')
  {
  }

  ghost predicate Nameless(errs: set<Error>) {
    forall e :: e in errs ==> !e.IsNaming() && !e.MissingReturn?
  }

  lemma {:induction false} NamelessMore(errs: set<Error>, more: set<Error>, wrong: set<Error>)
    requires NamesAre(errs, wrong) && Nameless(more)
    ensures NamesAre(errs + more, wrong) && NamesAre(more + errs, wrong)
  {
  }

  lemma {:induction false} EvalNameless(id: Id, throws: seq<Class>, env: Env)
    ensures Nameless(Eval(id, throws, env).errs)
  {
  }

  lemma {:induction false} NamesExact(s: Stmt, r: bool, env: Env)
    requires env.level > 0 && Shape(s) && NoClause(Analyze(s, r, env).errs)
    ensures NamesAre(Analyze(s, r, env).errs, Misnamed(s, ScopeOf(env)))
    decreases s, 2
  {
    match s
    case Block(_, _, _) => NamesInBlock(s, r, env);
    case If(_, _, _, _) => NamesInIf(s, r, env);
    case While(_, _, _) => NamesInBody(s, r, env);
    case Do(_, _, _) => NamesInBody(s, r, env);
    case Foreach(_, _, _, _, _) => NamesInBody(s, r, env);
    case Sync(_, _, _) => NamesInBody(s, r, env);
    case For(_, _, _, _, _) => NamesInFor(s, r, env);
    case Switch(_, _, _, _, _) => NamesInSwitch(s, r, env);
    case Try(_, _, _, _) => NamesInTry(s, r, env);
    case _ => NamesInLeaf(s, r, env);
  }

  lemma {:induction false} NamesInLeaf(s: Stmt, r: bool, env: Env)
    requires IsLeaf(s) && env.level > 0
    ensures NamesAre(Analyze(s, r, env).errs, Misnamed(s, ScopeOf(env)))
  {
    EvalNameless(s.id, OwnThrows(s), env);
    if s.Simple? || s.Local? || s.Return? || s.Throw? {
      assert Analyze(s, r, env).errs == Eval(s.id, OwnThrows(s), env).errs + {};
    }
  }

  lemma {:induction false} BodyErrors(s: Stmt, r: bool, env: Env)
    requires (s.While? || s.Do? || s.Foreach? || s.Sync?) && env.level > 0
    ensures var fb := Analyze(s.body, BodyReached(s, r), BodyPlace(s, env));
            Analyze(s, r, env).errs ==
            fb.errs + (Eval(s.id, OwnThrows(s), env).errs +
                       If1(r && !BodyReached(s, r), UnreachableStatement(s.body.id)))
  {
    hide AnalyzeLoop, Eval;
    if s.While? {
      WhileErrors(s, r, env);
    }
  }

  lemma {:induction false} WhileErrors(s: Stmt, r: bool, env: Env)
    requires s.While? && env.level > 0
    ensures var fb := Analyze(s.body, BodyReached(s, r), BodyPlace(s, env));
            Analyze(s, r, env).errs ==
            fb.errs + (Eval(s.id, OwnThrows(s), env).errs +
                       If1(r && !BodyReached(s, r), UnreachableStatement(s.body.id)))
  {
    hide AnalyzeLoop, Eval;
    var c := s.cond;
    LoopReports(s.id, Eval(s.id, c.throws, env), s.body, r, CanBe(c, true), r && CanBe(c, false), env);
  }

  lemma {:induction false} LoopScope(env: Env, body: Id)
    requires env.level > 0
    ensures ScopeOf(EnterLoop(body, env)) == InLoop(ScopeOf(env))
  {
  }

  lemma {:induction false} NamesInBody(s: Stmt, r: bool, env: Env)
    requires (s.While? || s.Do? || s.Foreach? || s.Sync?) && env.level > 0 && Shape(s)
    requires NoClause(Analyze(s, r, env).errs)
    ensures NamesAre(Analyze(s, r, env).errs, Misnamed(s, ScopeOf(env)))
    decreases s, 1
  {
    hide Analyze, Eval, NamesAre, ScopeOf;
    BodyErrors(s, r, env);
    EvalNameless(s.id, OwnThrows(s), env);
    LoopScope(env, s.body.id);
    NamesExact(s.body, BodyReached(s, r), BodyPlace(s, env));
    NamelessMore(Analyze(s.body, BodyReached(s, r), BodyPlace(s, env)).errs,
                 Eval(s.id, OwnThrows(s), env).errs + If1(r && !BodyReached(s, r), UnreachableStatement(s.body.id)),
                 Misnamed(s, ScopeOf(env)));
  }

  lemma {:induction false} NamesInFor(s: Stmt, r: bool, env: Env)
    requires s.For? && env.level > 0 && Shape(s) && NoClause(Analyze(s, r, env).errs)
    ensures NamesAre(Analyze(s, r, env).errs, Misnamed(s, ScopeOf(env)))
    decreases s, 1
  {
    hide Analyze, AnalyzeHeaders, Eval, NamesAre, ScopeOf;
    ForEffects(s, r, env);
    EvalNameless(s.id, OwnThrows(s), env);
    HeadersNameless(s.init, env);
    HeadersNameless(s.update, env);
    LoopScope(env, s.body.id);
    NamesExact(s.body, BodyReached(s, r), BodyPlace(s, env));
    var fb := Analyze(s.body, BodyReached(s, r), BodyPlace(s, env));
    var more := AnalyzeHeaders(s.update, env).errs + AnalyzeHeaders(s.init, env).errs +
      Eval(s.id, OwnThrows(s), env).errs + If1(r && !BodyReached(s, r), UnreachableStatement(s.body.id));
    NamelessMore(fb.errs, more, Misnamed(s, ScopeOf(env)));
    assert Analyze(s, r, env).errs == fb.errs + more;
  }

  lemma {:induction false} HeadersNameless(ss: seq<Stmt>, env: Env)
    requires env.level > 0 && forall i :: 0 <= i < |ss| ==> IsHeader(ss[i])
    ensures Nameless(AnalyzeHeaders(ss, env).errs)
  {
    if ss != [] {
      HeadersNameless(ss[1..], env);
      EvalNameless(ss[0].id, ss[0].e.throws, env);
      assert Analyze(ss[0], false, env).errs == Eval(ss[0].id, ss[0].e.throws, env).errs + {};
      HeadersSum(ss, env);
    }
  }

  lemma {:induction false} NamesInIf(s: Stmt, r: bool, env: Env)
    requires s.If? && env.level > 0 && Shape(s) && NoClause(Analyze(s, r, env).errs)
    ensures NamesAre(Analyze(s, r, env).errs, Misnamed(s, ScopeOf(env)))
    decreases s, 1
  {
    hide Analyze, Eval, NamesAre, ScopeOf;
    EvalNameless(s.id, s.cond.throws, env);
    IfErrors(s, r, env);
    NamesExact(s.thn, r, env);
    var ft, own := Analyze(s.thn, r, env).errs, Eval(s.id, s.cond.throws, env).errs;
    if s.els.Some? {
      NamesExact(s.els.value, r, env);
      var fe := Analyze(s.els.value, r, env).errs;
      NamesUnion(ft, Misnamed(s.thn, ScopeOf(env)), fe, Misnamed(s.els.value, ScopeOf(env)));
      NamelessMore(ft + fe, own, Misnamed(s, ScopeOf(env)));
    } else {
      assert Misnamed(s, ScopeOf(env)) == Misnamed(s.thn, ScopeOf(env));
      NamelessMore(ft, own, Misnamed(s, ScopeOf(env)));
      assert Analyze(s, r, env).errs == own + ft;
    }
  }

  lemma {:induction false} IfErrors(s: Stmt, r: bool, env: Env)
    requires s.If? && env.level > 0
    ensures Analyze(s, r, env).errs ==
            Eval(s.id, s.cond.throws, env).errs +
            (Analyze(s.thn, r, env).errs + if s.els.Some? then Analyze(s.els.value, r, env).errs else {})
  {
    assert Analyze(s, r, env) == AnalyzeIf(s, r, env);
    hide Analyze;
  }

  lemma {:induction false} GapNameless(ss: seq<Stmt>, r: bool, env: Env)
    requires env.level > 0
    ensures Nameless(GapErrors(ss, r, r, env))
  {
  }

  lemma {:induction false} NamesInSeq(ss: seq<Stmt>, r: bool, env: Env)
    requires env.level > 0 && (forall i :: 0 <= i < |ss| ==> Shape(ss[i])) && NoClause(AnalyzeSeq(ss, r, env).errs)
    ensures NamesAre(AnalyzeSeq(ss, r, env).errs, MisnamedAmong(ss, ScopeOf(env)))
    decreases ss, 0
  {
    hide Analyze, ScopeOf, Shape;
    if ss != [] {
      SeqSums(ss, r, env);
      var f0 := Analyze(ss[0], r, env);
      NamesExact(ss[0], r, env);
      NamesInSeq(ss[1..], f0.completes, env);
      NamesUnion(f0.errs, Misnamed(ss[0], ScopeOf(env)),
                 AnalyzeSeq(ss[1..], f0.completes, env).errs, MisnamedAmong(ss[1..], ScopeOf(env)));
    }
  }

  lemma {:induction false} BlockScope(s: Stmt, env: Env)
    requires s.Block?
    ensures ScopeOf(EnterBlock(s.id, s.tag, s.stmts, env)) == Inside(s.tag, s.stmts, ScopeOf(env))
    ensures LabelErrors(s.id, s.tag, env) ==
            If1(s.tag.Some? && s.tag.value in ScopeOf(env).labels, DuplicateLabel(s.id))
  {
  }

  lemma {:induction false} BlockErrors(s: Stmt, r: bool, env: Env)
    requires s.Block?
    ensures var inner := EnterBlock(s.id, s.tag, s.stmts, env);
            AnalyzeBlock(s.id, s.tag, s.stmts, r, env).errs ==
            LabelErrors(s.id, s.tag, env) + AnalyzeSeq(s.stmts, r, inner).errs + GapErrors(s.stmts, r, r, inner)
  {
    hide AnalyzeSeq, GapErrors, LabelErrors;
  }

  lemma {:induction false} BlockNames(s: Stmt, r: bool, env: Env)
    requires s.Block? && Shape(s) && NoClause(AnalyzeBlock(s.id, s.tag, s.stmts, r, env).errs)
    ensures NamesAre(AnalyzeBlock(s.id, s.tag, s.stmts, r, env).errs, Misnamed(s, ScopeOf(env)))
    decreases s, 0
  {
    hide Analyze, AnalyzeSeq, AnalyzeBlock, NamesAre, ScopeOf, GapErrors, LabelErrors, EnterBlock;
    var inner := EnterBlock(s.id, s.tag, s.stmts, env);
    LevelInside(s, env);
    BlockErrors(s, r, env);
    BlockScope(s, env);
    GapNameless(s.stmts, r, inner);
    NamesInSeq(s.stmts, r, inner);
    var wrong := LabelErrors(s.id, s.tag, env);
    LabelNames(s, env);
    NamesUnion(wrong, wrong, AnalyzeSeq(s.stmts, r, inner).errs, MisnamedAmong(s.stmts, ScopeOf(inner)));
    NamelessMore(wrong + AnalyzeSeq(s.stmts, r, inner).errs, GapErrors(s.stmts, r, r, inner),
                 Misnamed(s, ScopeOf(env)));
  }

  lemma {:induction false} LevelInside(s: Stmt, env: Env)
    requires s.Block?
    ensures EnterBlock(s.id, s.tag, s.stmts, env).level > 0
  {
  }

  lemma {:induction false} LabelNames(s: Stmt, env: Env)
    requires s.Block?
    ensures NamesAre(LabelErrors(s.id, s.tag, env), LabelErrors(s.id, s.tag, env))
  {
  }

  lemma {:induction false} NamesInBlock(s: Stmt, r: bool, env: Env)
    requires s.Block? && env.level > 0 && Shape(s) && NoClause(Analyze(s, r, env).errs)
    ensures NamesAre(Analyze(s, r, env).errs, Misnamed(s, ScopeOf(env)))
    decreases s, 1
  {
    hide AnalyzeBlock, NamesAre, ScopeOf;
    assert Analyze(s, r, env) == AnalyzeBlock(s.id, s.tag, s.stmts, r, env);
    BlockNames(s, r, env);
  }

  lemma {:induction false} SameScope(env: Env, env': Env)
    requires env.labels == env'.labels && env.breaks.Some? == env'.breaks.Some?
    requires env.continues.Some? == env'.continues.Some?
    ensures ScopeOf(env) == ScopeOf(env')
  {
  }

  lemma {:induction false} NamesInGroups(gs: seq<Stmt>, r: bool, last: bool, env: Env)
    requires env.level > 0 && (forall i :: 0 <= i < |gs| ==> gs[i].Block? && Shape(gs[i]))
    requires NoClause(AnalyzeGroups(gs, r, last, env).errs)
    ensures NamesAre(AnalyzeGroups(gs, r, last, env).errs, MisnamedInGroups(gs, ScopeOf(env)))
    decreases gs, 0
  {
    hide Analyze, AnalyzeSeq, GapErrors, ScopeOf;
    if gs != [] {
      var g, inner := gs[0], env.(level := env.level + 1);
      GroupsSums(gs, r, last, env);
      SameScope(env, inner);
      GapNameless(g.stmts, r, inner);
      SeqShapes(g);
      hide Shape;
      var f0 := AnalyzeSeq(g.stmts, r, inner);
      NamesInSeq(g.stmts, r, inner);
      NamesInGroups(gs[1..], r, f0.completes, env);
      NamelessMore(f0.errs, GapErrors(g.stmts, r, r, inner), MisnamedAmong(g.stmts, ScopeOf(env)));
      NamesUnion(f0.errs + GapErrors(g.stmts, r, r, inner), MisnamedAmong(g.stmts, ScopeOf(env)),
                 AnalyzeGroups(gs[1..], r, f0.completes, env).errs, MisnamedInGroups(gs[1..], ScopeOf(env)));
    }
  }

  lemma {:induction false} SwitchErrors(s: Stmt, r: bool, env: Env)
    requires s.Switch? && env.level > 0
    ensures var inner := EnterSwitch(s.blockId, env);
            && Analyze(s, r, env).errs ==
               Eval(s.id, s.e.throws, env).errs + AnalyzeGroups(s.groups, r, false, inner).errs
            && ScopeOf(inner) == ScopeOf(env).(breakable := true)
  {
    hide AnalyzeGroups;
  }

  lemma {:induction false} NamesInSwitch(s: Stmt, r: bool, env: Env)
    requires s.Switch? && env.level > 0 && Shape(s) && NoClause(Analyze(s, r, env).errs)
    ensures NamesAre(Analyze(s, r, env).errs, Misnamed(s, ScopeOf(env)))
    decreases s, 1
  {
    hide Analyze, AnalyzeGroups, NamesAre, ScopeOf;
    SwitchErrors(s, r, env);
    EvalNameless(s.id, s.e.throws, env);
    NamesInGroups(s.groups, r, false, EnterSwitch(s.blockId, env));
    NamelessMore(AnalyzeGroups(s.groups, r, false, EnterSwitch(s.blockId, env)).errs,
                 Eval(s.id, s.e.throws, env).errs, Misnamed(s, ScopeOf(env)));
  }

  lemma {:induction false} NamesInClauses(cs: seq<Catch>, before: seq<Class>, found: set<Class>, env: Env)
    requires env.level > 0 && (forall i :: 0 <= i < |cs| ==> Shape(cs[i].body))
    requires NoClause(AnalyzeCatches(cs, before, found, env).errs)
    ensures NamesAre(AnalyzeCatches(cs, before, found, env).errs, MisnamedInClauses(cs, ScopeOf(env)))
    decreases cs, 0
  {
    hide Analyze, ScopeOf, Shape;
    if cs != [] {
      var c := cs[0];
      assert c.body < c;
      ClauseErrors(cs, before, found, env);
      var f := AnalyzeCatches(cs, before, found, env);
      var rest := AnalyzeCatches(cs[1..], before + [c.cls], found, env);
      assert UnreachableCatch(c.body.id) !in f.errs && BlockedCatch(c.body.id) !in f.errs;
      NamesExact(c.body, true, env);
      NamesInClauses(cs[1..], before + [c.cls], found, env);
      NamesUnion(Analyze(c.body, true, env).errs, Misnamed(c.body, ScopeOf(env)),
                 rest.errs, MisnamedInClauses(cs[1..], ScopeOf(env)));
    }
  }

  lemma {:induction false} NamesInTry(s: Stmt, r: bool, env: Env)
    requires s.Try? && env.level > 0 && Shape(s) && NoClause(Analyze(s, r, env).errs)
    ensures NamesAre(Analyze(s, r, env).errs, Misnamed(s, ScopeOf(env)))
    decreases s, 1
  {
    hide Analyze, AnalyzeCatches, NamesAre, ScopeOf;
    var benv, cenv := BlockEnv(s, r, env), ClausesEnv(s, r, env);
    var ff, fb, fc := FinallyFx(s, r, env), BlockFx(s, r, env), ClausesFx(s, r, env);
    TryEffects(s, r, env);
    SameScope(env, benv);
    SameScope(env, cenv);
    ShapeParts(s);
    NamesExact(s.body, r, benv);
    NamesInClauses(s.catches, [], fb.exc + {ERROR, RUNTIME_EXCEPTION}, cenv);
    var nb, nc := Misnamed(s.body, ScopeOf(env)), MisnamedInClauses(s.catches, ScopeOf(env));
    NamesUnion(fb.errs, nb, fc.errs, nc);
    assert Analyze(s, r, env).errs == fb.errs + fc.errs + ff.errs;
    if s.fin.Some? {
      NamesExact(s.fin.value, r, env);
      NamesUnion(fb.errs + fc.errs, nb + nc, ff.errs, Misnamed(s.fin.value, ScopeOf(env)));
    } else {
      assert Analyze(s, r, env).errs == fb.errs + fc.errs && Misnamed(s, ScopeOf(env)) == nb + nc;
    }
  }

  // ---- Method bodies

  const NO_LABELS := Scope(map[], false, false)

  /** In a body without reported clauses, the errors about labels and jumps are those of the names in scope,
      and a missing return is reported exactly if the body of a non-void method is taken to complete. */
  lemma {:induction false} BodyNamesExact(body: Stmt, isVoid: bool, h: Hierarchy, ctx: Context, e: Error)
    requires body.Block? && Shape(body) && NoClause(AnalyzeBody(body, isVoid, h, ctx).errs)
    ensures var f := AnalyzeBody(body, isVoid, h, ctx);
            && (e in f.errs && e.IsNaming() <==> e in Misnamed(body, NO_LABELS))
            && (e.MissingReturn? ==> (e in f.errs <==> e.id == body.id && !isVoid && f.completes))
  {
    hide AnalyzeBlock;
    var env := MethodEnv(h, ctx);
    var f := AnalyzeBlock(body.id, body.tag, body.stmts, true, env);
    assert f.errs <= AnalyzeBody(body, isVoid, h, ctx).errs;
    BlockNames(body, true, env);
    assert ScopeOf(env) == NO_LABELS;
  }
}
