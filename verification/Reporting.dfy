/** Unreachable code is never passed over in silence: the reports about it and the marks agree. */
module Reporting {
  import opened Classes
  import opened JavaAst
  import opened Options
  import opened Flow
  import opened FlowBounds
  import opened MethodBodies

  /** The nodes of s that the analysis marks when they are reachable: all but for headers. */
  function Marks(s: Stmt): set<Id> {
    {s.id} + match s
    case Block(_, _, ss) => MarksOf(ss)
    case If(_, _, t, e) => Marks(t) + (if e.Some? then Marks(e.value) else {})
    case While(_, _, b) => Marks(b)
    case Do(_, b, _) => Marks(b)
    case For(_, _, _, _, b) => Marks(b)
    case Foreach(_, _, _, _, b) => Marks(b)
    case Switch(_, bid, _, gs, _) => {bid} + MarksOf(gs)
    case Try(_, b, cs, f) => Marks(b) + MarksOfCatches(cs) + (if f.Some? then Marks(f.value) else {})
    case Sync(_, _, b) => Marks(b)
    case _ => {}
  }

  function MarksOf(ss: seq<Stmt>): set<Id> {
    if ss == [] then {} else Marks(ss[0]) + MarksOf(ss[1..])
  }

  function MarksOfCatches(cs: seq<Catch>): set<Id> {
    if cs == [] then {} else
      var c := cs[0];
      assert c.body < c;
      Marks(c.body) + MarksOfCatches(cs[1..])
  }

  /** No report of an unreachable statement, loop body or catch clause. */
  ghost predicate Silent(errs: set<Error>) {
    forall e :: e in errs ==> !e.UnreachableStatement? && !e.UnreachableCatch? && !e.BlockedCatch?
  }

  lemma {:induction false} SilentMarks(s: Stmt, env: Env)
    requires env.level > 0 && Shape(s) && Silent(Analyze(s, true, env).errs)
    ensures Marks(s) <= Analyze(s, true, env).reach
    decreases s, 2
  {
    match s
    case Block(_, _, _) => SilentBlock(s, env);
    case If(_, _, _, _) => SilentIf(s, env);
    case While(id, c, b) =>
      SilentLoop(id, Eval(id, c.throws, env), b, CanBe(c, true), CanBe(c, false), env);
    case For(_, _, _, _, _) => SilentFor(s, env);
    case Foreach(_, _, _, _, _) => SilentSimpleBody(s, env);
    case Do(_, _, _) => SilentSimpleBody(s, env);
    case Sync(_, _, _) => SilentSimpleBody(s, env);
    case Switch(_, bid, _, gs, _) => SilentGroups(gs, false, EnterSwitch(bid, env));
    case Try(_, _, _, _) => SilentTry(s, env);
    case _ =>
  }

  lemma {:induction false} SilentIf(s: Stmt, env: Env)
    requires s.If? && env.level > 0 && Shape(s) && Silent(AnalyzeIf(s, true, env).errs)
    ensures Marks(s) <= AnalyzeIf(s, true, env).reach
    decreases s, 0
  {
    hide Analyze;
    SilentMarks(s.thn, env);
    if s.els.Some? {
      SilentMarks(s.els.value, env);
    }
  }

  lemma {:induction false} SilentFor(s: Stmt, env: Env)
    requires s.For? && env.level > 0 && Shape(s) && Silent(AnalyzeFor(s, true, env).errs)
    ensures Marks(s) <= AnalyzeFor(s, true, env).reach
    decreases s, 0
  {
    hide Analyze, AnalyzeHeaders;
    var c := ForCondition(s.end);
    SilentLoop(s.id, AnalyzeHeaders(s.init, env).Then(Eval(s.id, c.throws, env)), s.body, CanBe(c, true),
               CanBe(c, false), env);
  }

  lemma {:induction false} SilentSimpleBody(s: Stmt, env: Env)
    requires s.Foreach? || s.Do? || s.Sync?
    requires env.level > 0 && Shape(s) && Silent(Analyze(s, true, env).errs)
    ensures Marks(s) <= Analyze(s, true, env).reach
    decreases s, 0
  {
    var inner := if s.Sync? then env else EnterLoop(s.body.id, env);
    var f, fb := Analyze(s, true, env), Analyze(s.body, true, inner);
    assert fb.reach <= f.reach && fb.errs <= f.errs && s.id in f.reach;
    hide Analyze;
    SilentMarks(s.body, inner);
  }

  lemma {:induction false} SilentBlock(s: Stmt, env: Env)
    requires s.Block? && Shape(s) && Silent(AnalyzeBlock(s.id, s.tag, s.stmts, true, env).errs)
    ensures Marks(s) <= AnalyzeBlock(s.id, s.tag, s.stmts, true, env).reach
    decreases s, 0
  {
    hide Analyze;
    var inner := EnterBlock(s.id, s.tag, s.stmts, env);
    assert GapErrors(s.stmts, true, true, inner) <= AnalyzeBlock(s.id, s.tag, s.stmts, true, env).errs;
    SilentSeq(s.stmts, inner);
  }

  lemma {:induction false} GapReported(ss: seq<Stmt>, r: bool, env: Env)
    requires env.level > 0
    ensures var u := FirstUnreachable(ss, r, env);
            u.Some? ==> UnreachableStatement(u.value) in GapErrors(ss, r, true, env)
  {
  }

  lemma {:induction false} SilentSeq(ss: seq<Stmt>, env: Env)
    requires env.level > 0 && forall i :: 0 <= i < |ss| ==> Shape(ss[i])
    requires Silent(AnalyzeSeq(ss, true, env).errs) && Silent(GapErrors(ss, true, true, env))
    ensures MarksOf(ss) <= AnalyzeSeq(ss, true, env).reach
    decreases ss, 1
  {
    GapReported(ss, true, env);
    ReachedInOrder(ss, env);
  }

  lemma {:induction false} ReachedInOrder(ss: seq<Stmt>, env: Env)
    requires env.level > 0 && forall i :: 0 <= i < |ss| ==> Shape(ss[i])
    requires Silent(AnalyzeSeq(ss, true, env).errs) && FirstUnreachable(ss, true, env).None?
    ensures MarksOf(ss) <= AnalyzeSeq(ss, true, env).reach
    decreases ss, 0
  {
    hide Analyze, Shape;
    if ss != [] {
      SilentMarks(ss[0], env);
      if ss[1..] != [] {
        ReachedInOrder(ss[1..], env);
      }
    }
  }

  lemma {:induction false} MissedBodyReported(id: Id, head: Fx, b: Stmt, enters: bool, exits: bool, env: Env)
    requires env.level > 0
    ensures !enters ==> UnreachableStatement(b.id) in AnalyzeLoop(id, head, b, true, enters, exits, env).errs
  {
    hide Analyze;
  }

  lemma {:induction false} SilentLoop(id: Id, head: Fx, b: Stmt, enters: bool, exits: bool, env: Env)
    requires env.level > 0 && Shape(b) && Silent(AnalyzeLoop(id, head, b, true, enters, exits, env).errs)
    ensures {id} + Marks(b) <= AnalyzeLoop(id, head, b, true, enters, exits, env).reach
    decreases b, 3
  {
    hide Analyze;
    MissedBodyReported(id, head, b, enters, exits, env);
    SilentMarks(b, EnterLoop(b.id, env));
  }

  lemma {:induction false} SilentGroups(gs: seq<Stmt>, last: bool, env: Env)
    requires env.level > 0 && forall i :: 0 <= i < |gs| ==> gs[i].Block? && Shape(gs[i])
    requires Silent(AnalyzeGroups(gs, true, last, env).errs)
    ensures MarksOf(gs) <= AnalyzeGroups(gs, true, last, env).reach
    decreases gs, 0
  {
    hide Analyze;
    if gs != [] {
      var g, inner := gs[0], env.(level := env.level + 1);
      assert GapErrors(g.stmts, true, true, inner) <= AnalyzeGroups(gs, true, last, env).errs;
      assert Marks(g) == {g.id} + MarksOf(g.stmts);
      SilentSeqOf(g, inner);
      SilentGroups(gs[1..], AnalyzeSeq(g.stmts, true, inner).completes, env);
    }
  }

  lemma {:induction false} SilentSeqOf(g: Stmt, env: Env)
    requires env.level > 0 && g.Block? && Shape(g)
    requires Silent(AnalyzeSeq(g.stmts, true, env).errs) && Silent(GapErrors(g.stmts, true, true, env))
    ensures MarksOf(g.stmts) <= AnalyzeSeq(g.stmts, true, env).reach
    decreases g, 0
  {
    SilentSeq(g.stmts, env);
  }

  lemma {:induction false} SilentTry(s: Stmt, env: Env)
    requires s.Try? && env.level > 0 && Shape(s) && Silent(AnalyzeTry(s, true, env).errs)
    ensures Marks(s) <= AnalyzeTry(s, true, env).reach
    decreases s, 0
  {
    hide Analyze, AnalyzeCatches;
    var Try(id, b, cs, f) := s;
    var ff := if f.Some? then Analyze(f.value, true, env) else Fx({}, {}, {}, {}, true);
    var env1, env2 := EnterTry(env, !ff.completes, CatchTypes(cs)), EnterTry(env, !ff.completes, []);
    if f.Some? { SilentMarks(f.value, env); }
    SilentMarks(b, env1);
    SilentCatches(cs, [], Analyze(b, true, env1).exc + {ERROR, RUNTIME_EXCEPTION}, env2);
  }

  lemma {:induction false} MissedClauseReported(cs: seq<Catch>, before: seq<Class>, found: set<Class>, env: Env)
    requires cs != [] && env.level > 0
    ensures var errs := AnalyzeCatches(cs, before, found, env).errs;
            && (!CatchReachable(env.h, found, cs[0].cls) ==> UnreachableCatch(cs[0].body.id) in errs)
            && (CatchReachable(env.h, found, cs[0].cls) && Covers(env.h, before, cs[0].cls) ==>
                  BlockedCatch(cs[0].body.id) in errs)
  {
  }

  lemma {:induction false} SilentCatches(cs: seq<Catch>, before: seq<Class>, found: set<Class>, env: Env)
    requires env.level > 0 && forall i :: 0 <= i < |cs| ==> Shape(cs[i].body)
    requires Silent(AnalyzeCatches(cs, before, found, env).errs)
    ensures MarksOfCatches(cs) <= AnalyzeCatches(cs, before, found, env).reach
    decreases cs, 0
  {
    hide Analyze, Shape;
    if cs != [] {
      var c := cs[0];
      assert c.body < c;
      MissedClauseReported(cs, before, found, env);
      SilentMarks(c.body, env);
      SilentCatches(cs[1..], before + [c.cls], found, env);
    }
  }

  /** If processing a method body reports no unreachable statement, loop body or catch clause, every node
      of the body is marked reachable, for headers aside. */
  lemma {:induction false} NoSilentUnreachableCode(body: Stmt, isVoid: bool, h: Hierarchy, ctx: Context)
    requires body.Block? && Shape(body) && Silent(AnalyzeBody(body, isVoid, h, ctx).errs)
    ensures Marks(body) <= AnalyzeBody(body, isVoid, h, ctx).reach
  {
    SilentBlock(body, MethodEnv(h, ctx));
  }

  // ---- Reports are true

  lemma {:induction false} MarksAreIds(s: Stmt)
    ensures Marks(s) <= Ids(s)
    decreases s, 1
  {
    match s
    case Block(_, _, ss) => MarksOfAreIds(ss);
    case If(_, _, t, e) => MarksAreIds(t); if e.Some? { MarksAreIds(e.value); }
    case While(_, _, b) => MarksAreIds(b);
    case Do(_, b, _) => MarksAreIds(b);
    case For(_, _, _, _, b) => MarksAreIds(b);
    case Foreach(_, _, _, _, b) => MarksAreIds(b);
    case Switch(_, _, _, gs, _) => MarksOfAreIds(gs);
    case Try(_, b, cs, f) =>
      MarksAreIds(b); MarksOfCatchesAreIds(cs); if f.Some? { MarksAreIds(f.value); }
    case Sync(_, _, b) => MarksAreIds(b);
    case _ =>
  }

  lemma {:induction false} MarksOfAreIds(ss: seq<Stmt>)
    ensures MarksOf(ss) <= IdsOf(ss)
    decreases ss, 0
  {
    if ss != [] {
      MarksAreIds(ss[0]);
      MarksOfAreIds(ss[1..]);
    }
  }

  lemma {:induction false} MarksOfCatchesAreIds(cs: seq<Catch>)
    ensures MarksOfCatches(cs) <= IdsOfCatches(cs)
    decreases cs, 0
  {
    if cs != [] {
      var c := cs[0];
      assert c.body < c;
      MarksAreIds(c.body);
      MarksOfCatchesAreIds(cs[1..]);
    }
  }

  /** u was reported unreachable and is indeed a node that stays unmarked. */
  ghost predicate ReportHolds(u: Id, marks: set<Id>, f: Fx) {
    UnreachableStatement(u) in f.errs ==> u in marks && u !in f.reach
  }

  /** A statement that is not reachable is not marked. */
  lemma {:induction false} Unmarked(s: Stmt, env: Env)
    requires env.level > 0 && Shape(s) && Unique(s)
    ensures s.id !in Analyze(s, false, env).reach
  {
    match s
    case Block(id, tag, ss) =>
      assert Analyze(s, false, env) == AnalyzeBlock(id, tag, ss, false, env);
      UnmarkedBlock(s, env);
    case If(_, _, _, _) =>
      assert Analyze(s, false, env) == AnalyzeIf(s, false, env);
      UnmarkedIf(s, env);
    case While(_, _, b) => AnalyzeBounded(b, false, EnterLoop(b.id, env));
    case For(_, _, _, _, _) =>
      assert Analyze(s, false, env) == AnalyzeFor(s, false, env);
      UnmarkedFor(s, env);
    case Foreach(_, _, _, _, b) => AnalyzeBounded(b, false, EnterLoop(b.id, env));
    case Do(_, b, _) => AnalyzeBounded(b, false, EnterLoop(b.id, env));
    case Switch(_, bid, _, gs, _) => GroupsBounded(gs, false, false, EnterSwitch(bid, env));
    case Try(_, _, _, _) =>
      assert Analyze(s, false, env) == AnalyzeTry(s, false, env);
      UnmarkedTry(s, env);
    case Sync(_, _, b) => AnalyzeBounded(b, false, env);
    case _ =>
  }

  lemma {:induction false} UnmarkedBlock(s: Stmt, env: Env)
    requires s.Block? && Shape(s) && Unique(s)
    ensures s.id !in AnalyzeBlock(s.id, s.tag, s.stmts, false, env).reach
  {
    hide Analyze, AnalyzeSeq, Ids;
    SeqBounded(s.stmts, false, EnterBlock(s.id, s.tag, s.stmts, env));
  }

  lemma {:induction false} UnmarkedIf(s: Stmt, env: Env)
    requires s.If? && env.level > 0 && Shape(s) && Unique(s)
    ensures s.id !in AnalyzeIf(s, false, env).reach
  {
    hide Analyze, Ids;
    AnalyzeBounded(s.thn, false, env);
    if s.els.Some? { AnalyzeBounded(s.els.value, false, env); }
  }

  lemma {:induction false} UnmarkedFor(s: Stmt, env: Env)
    requires s.For? && env.level > 0 && Shape(s) && Unique(s)
    ensures s.id !in AnalyzeFor(s, false, env).reach
  {
    hide Analyze, AnalyzeHeaders, Ids;
    HeadersBounded(s.init, env);
    HeadersBounded(s.update, env);
    AnalyzeBounded(s.body, false, EnterLoop(s.body.id, env));
  }

  lemma {:induction false} UnmarkedTry(s: Stmt, env: Env)
    requires s.Try? && env.level > 0 && Shape(s) && Unique(s)
    ensures s.id !in AnalyzeTry(s, false, env).reach
  {
    hide Analyze, AnalyzeCatches;
    var Try(_, b, cs, f) := s;
    var ff := if f.Some? then Analyze(f.value, false, env) else Fx({}, {}, {}, {}, true);
    if f.Some? { AnalyzeBounded(f.value, false, env); }
    var env1, env2 := EnterTry(env, !ff.completes, CatchTypes(cs)), EnterTry(env, !ff.completes, []);
    AnalyzeBounded(b, false, env1);
    CatchesBounded(cs, [], Analyze(b, false, env1).exc + {ERROR, RUNTIME_EXCEPTION}, env2);
  }

  lemma {:induction false} ReportsTrue(s: Stmt, r: bool, env: Env, u: Id)
    requires env.level > 0 && Shape(s) && Unique(s)
    ensures ReportHolds(u, Marks(s), Analyze(s, r, env))
    decreases s, 2
  {
    match s
    case Block(_, _, _) => ReportsBlock(s, r, env, u);
    case If(_, _, _, _) => ReportsIf(s, r, env, u);
    case While(id, c, b) => ReportsLoop(s, Eval(id, c.throws, env), r, CanBe(c, true), r && CanBe(c, false), env, u);
    case For(_, _, _, _, _) => ReportsFor(s, r, env, u);
    case Foreach(_, _, _, _, _) => ReportsSimpleBody(s, r, env, u);
    case Do(_, _, _) => ReportsSimpleBody(s, r, env, u);
    case Sync(_, _, _) => ReportsSimpleBody(s, r, env, u);
    case Switch(_, _, _, _, _) => ReportsSwitch(s, r, env, u);
    case Try(_, _, _, _) => ReportsTry(s, r, env, u);
    case _ =>
  }

  lemma {:induction false} ReportsBlock(s: Stmt, r: bool, env: Env, u: Id)
    requires s.Block? && Shape(s) && Unique(s)
    ensures ReportHolds(u, Marks(s), AnalyzeBlock(s.id, s.tag, s.stmts, r, env))
    decreases s, 0
  {
    hide Analyze;
    var inner := EnterBlock(s.id, s.tag, s.stmts, env);
    ReportsSeq(s.stmts, r, inner, u);
    MarksOfAreIds(s.stmts);
    ReportedIsFirst(s.stmts, r, r, inner, u);
  }

  lemma {:induction false} ReportedIsFirst(ss: seq<Stmt>, r: bool, top: bool, env: Env, u: Id)
    requires env.level > 0
    ensures UnreachableStatement(u) in GapErrors(ss, r, top, env) ==> FirstUnreachable(ss, r, env) == Some(u)
  {
  }

  lemma {:induction false} ReportsSeq(ss: seq<Stmt>, r: bool, env: Env, u: Id)
    requires env.level > 0 && UniqueAll(ss) && forall i :: 0 <= i < |ss| ==> Shape(ss[i])
    ensures ReportHolds(u, MarksOf(ss), AnalyzeSeq(ss, r, env))
    ensures FirstUnreachable(ss, r, env) == Some(u) ==> u in MarksOf(ss) && u !in AnalyzeSeq(ss, r, env).reach
    decreases ss, 0
  {
    hide Analyze, Shape;
    if ss != [] {
      var f := Analyze(ss[0], r, env);
      ReportsTrue(ss[0], r, env, u);
      ReportsSeq(ss[1..], f.completes, env, u);
      AnalyzeBounded(ss[0], r, env);
      SeqBounded(ss[1..], f.completes, env);
      MarksAreIds(ss[0]);
      MarksOfAreIds(ss[1..]);
      Unmarked(ss[0], env);
      assert ss[0].id in Marks(ss[0]);
    }
  }

  lemma {:induction false} ReportsIf(s: Stmt, r: bool, env: Env, u: Id)
    requires s.If? && env.level > 0 && Shape(s) && Unique(s)
    ensures ReportHolds(u, Marks(s), AnalyzeIf(s, r, env))
    decreases s, 0
  {
    hide Analyze;
    var If(_, _, t, e) := s;
    ReportsTrue(t, r, env, u);
    AnalyzeBounded(t, r, env);
    MarksAreIds(t);
    if e.Some? {
      ReportsTrue(e.value, r, env, u);
      AnalyzeBounded(e.value, r, env);
      MarksAreIds(e.value);
    }
  }

  lemma {:induction false} ReportsLoop(s: Stmt, head: Fx, r: bool, enters: bool, exits: bool, env: Env, u: Id)
    requires IsLoop(s) && env.level > 0 && Shape(s) && Unique(s) && s.id !in Ids(s.body) && Unique(s.body)
    requires head.reach == {} && UnreachableStatement(u) !in head.errs
    ensures ReportHolds(u, Marks(s), AnalyzeLoop(s.id, head, s.body, r, enters, exits, env))
    decreases s, 0
  {
    hide Analyze;
    ReportsTrue(s.body, r && enters, EnterLoop(s.body.id, env), u);
    AnalyzeBounded(s.body, r && enters, EnterLoop(s.body.id, env));
    MarksAreIds(s.body);
    Unmarked(s.body, EnterLoop(s.body.id, env));
    assert s.body.id in Marks(s.body);
  }

  lemma {:induction false} HeadersNotReported(ss: seq<Stmt>, env: Env, u: Id)
    requires env.level > 0 && forall i :: 0 <= i < |ss| ==> IsHeader(ss[i])
    ensures UnreachableStatement(u) !in AnalyzeHeaders(ss, env).errs
  {
    if ss != [] {
      HeadersNotReported(ss[1..], env, u);
    }
  }

  lemma {:induction false} ReportsFor(s: Stmt, r: bool, env: Env, u: Id)
    requires s.For? && env.level > 0 && Shape(s) && Unique(s)
    ensures ReportHolds(u, Marks(s), AnalyzeFor(s, r, env))
    decreases s, 1
  {
    hide Analyze, AnalyzeHeaders;
    var c := ForCondition(s.end);
    HeadersBounded(s.init, env);
    HeadersBounded(s.update, env);
    HeadersNotReported(s.init, env, u);
    HeadersNotReported(s.update, env, u);
    ReportsLoop(s, AnalyzeHeaders(s.init, env).Then(Eval(s.id, c.throws, env)), r, CanBe(c, true),
                r && CanBe(c, false), env, u);
  }

  lemma {:induction false} ReportsSimpleBody(s: Stmt, r: bool, env: Env, u: Id)
    requires s.Foreach? || s.Do? || s.Sync?
    requires env.level > 0 && Shape(s) && Unique(s)
    ensures ReportHolds(u, Marks(s), Analyze(s, r, env))
    decreases s, 0
  {
    var inner := if s.Sync? then env else EnterLoop(s.body.id, env);
    var f, fb := Analyze(s, r, env), Analyze(s.body, r, inner);
    assert f.reach == fb.reach + If1(r, s.id);
    assert UnreachableStatement(u) in f.errs ==> UnreachableStatement(u) in fb.errs;
    hide Analyze;
    ReportsTrue(s.body, r, inner, u);
    MarksAreIds(s.body);
  }

  lemma {:induction false} ReportsSwitch(s: Stmt, r: bool, env: Env, u: Id)
    requires s.Switch? && env.level > 0 && Shape(s) && Unique(s)
    ensures ReportHolds(u, Marks(s), Analyze(s, r, env))
    decreases s, 1
  {
    hide AnalyzeGroups;
    ReportsGroups(s.groups, r, false, EnterSwitch(s.blockId, env), u);
    MarksOfAreIds(s.groups);
  }

  lemma {:induction false} ReportsGroups(gs: seq<Stmt>, r: bool, last: bool, env: Env, u: Id)
    requires env.level > 0 && UniqueAll(gs) && forall i :: 0 <= i < |gs| ==> gs[i].Block? && Shape(gs[i])
    ensures ReportHolds(u, MarksOf(gs), AnalyzeGroups(gs, r, last, env))
    decreases gs, 0
  {
    hide Analyze;
    if gs != [] {
      var g, inner := gs[0], env.(level := env.level + 1);
      var done := AnalyzeSeq(g.stmts, r, inner).completes;
      ReportsGroup(g, r, inner, u);
      ReportsGroups(gs[1..], r, done, env, u);
      GroupBounded(g, r, inner);
      GroupsBounded(gs[1..], r, done, env);
      MarksAreIds(g);
      MarksOfAreIds(gs[1..]);
      ReportedIsFirst(g.stmts, r, r, inner, u);
      hide AnalyzeSeq;
      hide GapErrors;
      hide FirstUnreachable;
      hide Outer;
      hide Shape;
      hide Ids;
      hide Marks;
    }
  }

  lemma {:induction false} ReportsGroup(g: Stmt, r: bool, env: Env, u: Id)
    requires env.level > 0 && g.Block? && Shape(g) && Unique(g)
    ensures UnreachableStatement(u) in AnalyzeSeq(g.stmts, r, env).errs ==>
              u in Marks(g) && u !in AnalyzeSeq(g.stmts, r, env).reach && u != g.id
    ensures FirstUnreachable(g.stmts, r, env) == Some(u) ==>
              u in Marks(g) && u !in AnalyzeSeq(g.stmts, r, env).reach && u != g.id
    ensures g.id in Marks(g) && g.id in Ids(g)
    decreases g, 0
  {
    hide Analyze;
    ReportsSeq(g.stmts, r, env, u);
    MarksOfAreIds(g.stmts);
  }

  lemma {:induction false} TryMarks(s: Stmt)
    requires s.Try?
    ensures s.id in Marks(s) && Marks(s.body) <= Marks(s) && MarksOfCatches(s.catches) <= Marks(s)
    ensures s.fin.Some? ==> Marks(s.fin.value) <= Marks(s)
  {
  }

  lemma {:induction false} ReportsTry(s: Stmt, r: bool, env: Env, u: Id)
    requires s.Try? && env.level > 0 && Shape(s) && Unique(s)
    ensures ReportHolds(u, Marks(s), AnalyzeTry(s, r, env))
    decreases s, 0
  {
    hide Analyze, AnalyzeCatches, Unique, Ids, Marks, Shape, Outer;
    UniqueParts(s);
    ShapeParts(s);
    TryMarks(s);
    TryOuter(env, true, CatchTypes(s.catches));
    TryOuter(env, false, CatchTypes(s.catches));
    TryOuter(env, true, []);
    TryOuter(env, false, []);
    var Try(_, b, cs, f) := s;
    var ff := if f.Some? then Analyze(f.value, r, env) else Fx({}, {}, {}, {}, true);
    var env1, env2 := EnterTry(env, !ff.completes, CatchTypes(cs)), EnterTry(env, !ff.completes, []);
    var found := Analyze(b, r, env1).exc + {ERROR, RUNTIME_EXCEPTION};
    if f.Some? {
      ReportsTrue(f.value, r, env, u);
      AnalyzeBounded(f.value, r, env);
      MarksAreIds(f.value);
    }
    ReportsTrue(b, r, env1, u);
    AnalyzeBounded(b, r, env1);
    MarksAreIds(b);
    ReportsCatches(cs, [], found, env2, u);
    CatchesBounded(cs, [], found, env2);
    MarksOfCatchesAreIds(cs);
  }

  lemma {:induction false} OwnMark(s: Stmt)
    ensures s.id in Marks(s) && s.id in Ids(s)
  {
  }

  lemma {:induction false} ReportsCatches(cs: seq<Catch>, before: seq<Class>, found: set<Class>, env: Env, u: Id)
    requires env.level > 0 && UniqueCatches(cs) && forall i :: 0 <= i < |cs| ==> Shape(cs[i].body)
    ensures ReportHolds(u, MarksOfCatches(cs), AnalyzeCatches(cs, before, found, env))
    decreases cs, 0
  {
    hide Analyze, Shape, Outer, Ids, Marks, Unique;
    if cs != [] {
      var c := cs[0];
      assert c.body < c;
      OwnMark(c.body);
      ReportsTrue(c.body, true, env, u);
      AnalyzeBounded(c.body, true, env);
      MarksAreIds(c.body);
      ReportsCatches(cs[1..], before + [c.cls], found, env, u);
      CatchesBounded(cs[1..], before + [c.cls], found, env);
      MarksOfCatchesAreIds(cs[1..]);
    }
  }

  /** When no catch clause is reported, unreachable statements and loop bodies are reported exactly when
      some node other than a for header stays unmarked. */
  lemma {:induction false} UnreachableReportsExact(body: Stmt, isVoid: bool, h: Hierarchy, ctx: Context)
    requires body.Block? && Shape(body) && Unique(body)
    requires forall e :: e in AnalyzeBody(body, isVoid, h, ctx).errs ==> !e.UnreachableCatch? && !e.BlockedCatch?
    ensures (exists u :: UnreachableStatement(u) in AnalyzeBody(body, isVoid, h, ctx).errs) <==>
            !(Marks(body) <= AnalyzeBody(body, isVoid, h, ctx).reach)
  {
    hide AnalyzeBlock;
    var f := AnalyzeBody(body, isVoid, h, ctx);
    if exists u :: UnreachableStatement(u) in f.errs {
      var u :| UnreachableStatement(u) in f.errs;
      ReportsBlock(body, true, MethodEnv(h, ctx), u);
    } else {
      NoSilentUnreachableCode(body, isVoid, h, ctx);
    }
  }
}
