/** What the analysis of a method body promises about its runs. */
module MethodBodies {
  import opened Classes
  import opened JavaAst
  import opened Options
  import opened Runs
  import opened Flow
  import opened FlowBounds
  import opened FlowSound

  /** No block open. */
  function MethodEnv(h: Hierarchy, ctx: Context): Env {
    Env(h, ctx, 0, 0, map[], None, None, 0, [])
  }

  /** ProcessMethodBody: the body is reachable, and that of a non-void method must not be able to
      complete normally. */
  function AnalyzeBody(body: Stmt, isVoid: bool, h: Hierarchy, ctx: Context): Fx
    requires body.Block?
  {
    var f := AnalyzeBlock(body.id, body.tag, body.stmts, true, MethodEnv(h, ctx));
    f.(errs := f.errs + If1(f.completes && !isVoid, MissingReturn(body.id)))
  }

  /** Everything executed in a run of the body was marked. */
  ghost predicate Respects(f: Fx, r: Run, headers: set<Id>) {
    forall q :: Within(q, r) ==>
      && (q.at.id in headers || (q.at.id in f.reach && (q.out.Normal? ==> q.at.id in f.done)))
      && (q.at.Switch? ==> q.at.blockId in f.reach)
  }

  lemma {:induction false} MarkedWithin(q: Run, r: Run, reach: set<Id>, done: set<Id>, headers: set<Id>)
    requires Within(q, r) && Marked(r, reach, done, headers)
    ensures Marked(q, reach, done, headers)
    decreases r
  {
    if q != r {
      var i :| 0 <= i < |r.kids| && Within(q, r.kids[i]);
      MarkedWithin(q, r.kids[i], reach, done, headers);
    }
  }

  /** How a run of a method body ends is what its analysis predicts, and all it executes is marked. */
  lemma {:induction false} BodySound(body: Stmt, isVoid: bool, h: Hierarchy, ctx: Context, r: Run)
    requires IsPlain(body) && Shape(body) && r.at == body && Valid(h, r, None)
    requires NamesResolve(AnalyzeBody(body, isVoid, h, ctx).errs)
    ensures var f := AnalyzeBody(body, isVoid, h, ctx);
            && (r.out.Normal? ==> f.completes)
            && (r.out.ThrowOut? && NoneUncaught(f.errs) ==> !Uncaught(MethodEnv(h, ctx), r.out.cls))
            && Marked(r, f.reach, f.done, Headers(body))
  {
    hide Analyze;
    var Block(id, tag, ss) := body;
    var env, f := MethodEnv(h, ctx), AnalyzeBody(body, isVoid, h, ctx);
    var inner := EnterBlock(id, tag, ss, env);
    var fs := AnalyzeSeq(ss, true, inner);
    var o :| ValidSeq(h, r.kids, ss, tag, o) && r.out == LeaveBlock(o, tag);
    SoundSeq(r.kids, ss, tag, o, inner, f.reach, f.done, Headers(body));
    PredictsGrows(fs, f.(completes := true), o, inner);
  }

  /** Reachability: in every run of every method body, even one cut short, a statement that is executed
      was marked reachable, and one that completes normally was marked able to, for headers aside. */
  lemma {:induction false} ReachabilitySound(body: Stmt, isVoid: bool, h: Hierarchy, ctx: Context, r: Run)
    requires IsPlain(body) && Shape(body) && r.at == body && Valid(h, r, None)
    requires NamesResolve(AnalyzeBody(body, isVoid, h, ctx).errs)
    ensures Respects(AnalyzeBody(body, isVoid, h, ctx), r, Headers(body))
  {
    var f := AnalyzeBody(body, isVoid, h, ctx);
    BodySound(body, isVoid, h, ctx, r);
    forall q | Within(q, r)
      ensures q.at.id in Headers(body) || (q.at.id in f.reach && (q.out.Normal? ==> q.at.id in f.done))
      ensures q.at.Switch? ==> q.at.blockId in f.reach
    {
      MarkedWithin(q, r, f.reach, f.done, Headers(body));
    }
  }

  /** Exceptions: when no uncaught exception is reported, a checked exception leaves the method only if
      a throws clause names a superclass; for an instance initializer, one of every constructor. */
  lemma {:induction false} CheckedExceptionsSound(body: Stmt, isVoid: bool, h: Hierarchy, ctx: Context, r: Run)
    requires IsPlain(body) && Shape(body) && r.at == body && Valid(h, r, None)
    requires var errs := AnalyzeBody(body, isVoid, h, ctx).errs; NamesResolve(errs) && NoneUncaught(errs)
    requires r.out.ThrowOut? && Checked(h, r.out.cls)
    ensures Declared(h, ctx, r.out.cls)
  {
    BodySound(body, isVoid, h, ctx, r);
  }

  /** A non-void method that is accepted never falls off the end of its body. */
  lemma {:induction false} NeverFallsOff(body: Stmt, h: Hierarchy, ctx: Context, r: Run)
    requires IsPlain(body) && Shape(body) && r.at == body && Valid(h, r, None)
    requires NamesResolve(AnalyzeBody(body, false, h, ctx).errs)
    requires MissingReturn(body.id) !in AnalyzeBody(body, false, h, ctx).errs
    ensures !r.out.Normal?
  {
    BodySound(body, false, h, ctx, r);
  }

  lemma {:induction false} BodyHeaders(s: Stmt)
    requires s.Try?
    ensures Headers(s.body) <= Headers(s)
  {
  }

  /** Catch clauses: a clause that a run of a try statement enters was not reported, neither as
      unreachable nor as blocked, so it was processed. */
  lemma {:induction false} ReportedClauseNeverEntered(q: Run, owner: Option<string>, env: Env)
    requires q.at.Try? && Shape(q.at) && Valid(env.h, q, owner) && Placed(q.at, env, owner)
    requires NamesResolve(Analyze(q.at, true, env).errs) && q.kids != []
    requires TakenBy(env.h, q.at.catches, q.kids[0].out, q.pick)
    ensures CatchReachable(env.h, Found(q.at, env), q.at.catches[q.pick].cls)
    ensures !Covers(env.h, CatchTypes(q.at.catches)[..q.pick], q.at.catches[q.pick].cls)
  {
    hide Analyze, AnalyzeCatches, Headers;
    var f := Analyze(q.at, true, env);
    TryParts(q.at, env);
    BodyHeaders(q.at);
    var o := q.kids[0].out;
    Sound(q.kids[0], None, BodyEnv(q.at, env), f.reach, f.done, Headers(q.at));
    if !Checked(env.h, o.cls) {
      assert ERROR in Found(q.at, env) && RUNTIME_EXCEPTION in Found(q.at, env);
    } else {
      var c :| c in Analyze(q.at.body, true, BodyEnv(q.at, env)).exc && IsSubclass(env.h, o.cls, c);
      assert c in Found(q.at, env);
    }
    TakenClauseIsProcessed(env.h, q.at.catches, Found(q.at, env), o, q.pick);
  }

  // ---- For headers stay unmarked

  /** `for (x;;) {}`: the initialiser runs and completes, yet only the loop and its body are marked. */
  lemma {:induction false} ForInitialiserRunsUnmarked(env: Env)
    requires env.level > 0
    ensures var x := Simple(1, Expr([], None));
            var s := For(2, [x], None, [], Block(3, None, []));
            var q := Run(s, [Run(x, [], 0, Normal)], 0, Suspended);
            && Shape(s) && Valid(env.h, q, None) && Within(Run(x, [], 0, Normal), q)
            && Analyze(s, true, env).reach == {2, 3}
  {
    var x := Simple(1, Expr([], None));
    var s := For(2, [x], None, [], Block(3, None, []));
    var rx := Run(x, [], 0, Normal);
    var q := Run(s, [rx], 0, Suspended);
    assert ValidWhile(env.h, [], s.body, ForCondition(None), [], None, Suspended);
    assert q.kids[1..] == [] && s.init[1..] == [];
    assert ValidFor(env.h, q.kids[1..], s.init[1..], None, [], s.body, None, Suspended);
    assert Valid(env.h, rx, None);
    assert Within(rx, q.kids[0]);
    HeadersBounded(s.init, env);
    HeadersBounded([], env);
    var c := ForCondition(None);
    var inner := EnterLoop(3, env);
    assert Analyze(s.body, true, inner).reach == {3} && Analyze(s.body, true, inner).done == {3};
    assert Eval(2, c.throws, env).reach == {};
    var head := AnalyzeHeaders(s.init, env).Then(Eval(2, c.throws, env));
    assert AnalyzeLoop(2, head, s.body, true, true, false, env).reach == {3} + {2};
  }
}
