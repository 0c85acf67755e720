/** Where unreachable statements are reported: at the first of a reached block, and at the body of a loop
    that can never be entered. */
module Gaps {
  import opened JavaAst
  import opened Classes
  import opened Options
  import opened Flow
  import opened FlowBounds
  import opened FlowSound
  import opened Reporting
  import opened ClauseReports
  import opened MethodBodies
  import opened Causes
  import opened Naming
  import opened Runs
  import opened Embeddings
  import opened Completion
  import opened NodeRuns

  /** i is the first statement of ss that is not reached. */
  predicate FirstMissed(ss: seq<Stmt>, reach: set<Id>, i: Id) {
    exists k :: 0 <= k < |ss| && ss[k].id == i && i !in reach && forall j :: 0 <= j < k ==> ss[j].id in reach
  }

  /** In s, statement i is where a part that is not reached starts, though what is around it is reached. */
  predicate Gap(s: Stmt, reach: set<Id>, i: Id)
    decreases s, 1
  {
    match s
    case Block(id, _, ss) => || (id in reach && ss != [] && ss[0].id in reach && FirstMissed(ss, reach, i))
                             || GapAmong(ss, reach, i)
    case If(_, _, t, e) => Gap(t, reach, i) || (e.Some? && Gap(e.value, reach, i))
    case While(id, _, b) => (id in reach && i == b.id && i !in reach) || Gap(b, reach, i)
    case Do(_, b, _) => Gap(b, reach, i)
    case For(id, _, _, _, b) => (id in reach && i == b.id && i !in reach) || Gap(b, reach, i)
    case Foreach(_, _, _, _, b) => Gap(b, reach, i)
    case Switch(_, _, _, gs, _) => GapAmong(gs, reach, i)
    case Try(_, b, cs, f) =>
      Gap(b, reach, i) || GapInClauses(cs, reach, i) || (f.Some? && Gap(f.value, reach, i))
    case Sync(_, _, b) => Gap(b, reach, i)
    case _ => false
  }

  predicate GapAmong(ss: seq<Stmt>, reach: set<Id>, i: Id)
    decreases ss, 0
  {
    ss != [] && (Gap(ss[0], reach, i) || GapAmong(ss[1..], reach, i))
  }

  predicate GapInClauses(cs: seq<Catch>, reach: set<Id>, i: Id)
    decreases cs, 0
  {
    cs != [] &&
    var c := cs[0];
    assert c.body < c;
    Gap(c.body, reach, i) || GapInClauses(cs[1..], reach, i)
  }

  // ---- Parts

  /** On nodes `ids` the marks are those in `some`. */
  ghost predicate On(ids: set<Id>, reach: set<Id>, some: set<Id>) {
    forall id :: id in ids ==> (id in reach <==> id in some)
  }

  lemma {:induction false} OnPart(ids: set<Id>, reach: set<Id>, all: set<Id>, part: set<Id>, some: set<Id>,
                                  others: set<Id>)
    requires On(ids, reach, all) && part <= ids && some <= all <= some + others && others !! part
    ensures On(part, reach, some)
  {
  }

  ghost predicate Exactly(s: Stmt, f: Fx, reach: set<Id>, i: Id) {
    UnreachableStatement(i) in f.errs <==> Gap(s, reach, i)
  }

  lemma {:induction false} EvalGapless(id: Id, throws: seq<Class>, env: Env, i: Id)
    ensures UnreachableStatement(i) !in Eval(id, throws, env).errs && Eval(id, throws, env).reach == {}
  {
  }

  /** A statement is marked exactly if it is reachable. */
  lemma {:induction false} TopMarked(s: Stmt, r: bool, env: Env)
    requires env.level > 0 && Shape(s) && Unique(s)
    ensures s.id in Analyze(s, r, env).reach <==> r
  {
    if r {
      hide Shape, Unique, AnalyzeSeq, AnalyzeGroups, AnalyzeHeaders, AnalyzeCatches;
      ReachedMarked(s, env);
    } else {
      hide Analyze, Shape, Unique;
      Unmarked(s, env);
    }
  }

  lemma {:induction false} ReachedMarked(s: Stmt, env: Env)
    requires env.level > 0
    ensures s.id in Analyze(s, true, env).reach
  {
    hide AnalyzeSeq, AnalyzeGroups, AnalyzeHeaders, AnalyzeCatches;
    match s
    case Block(id, tag, ss) => assert Analyze(s, true, env) == AnalyzeBlock(id, tag, ss, true, env);
    case If(_, _, _, _) => assert Analyze(s, true, env) == AnalyzeIf(s, true, env);
    case For(_, _, _, _, _) => assert Analyze(s, true, env) == AnalyzeFor(s, true, env);
    case Try(_, _, _, _) => assert Analyze(s, true, env) == AnalyzeTry(s, true, env);
    case _ =>
  }

  lemma {:induction false} GapsExact(s: Stmt, r: bool, env: Env, reach: set<Id>, i: Id)
    requires env.level > 0 && Shape(s) && Unique(s) && On(Ids(s), reach, Analyze(s, r, env).reach)
    ensures Exactly(s, Analyze(s, r, env), reach, i)
    decreases s, 3
  {
    hide Analyze, Gap, Shape, Unique, Ids;
    match s
    case Block(_, _, _) => GapsInBlock(s, r, env, reach, i);
    case If(_, _, _, _) => GapsInIf(s, r, env, reach, i);
    case While(_, _, _) => GapsInBody(s, r, env, reach, i);
    case Do(_, _, _) => GapsInBody(s, r, env, reach, i);
    case Foreach(_, _, _, _, _) => GapsInBody(s, r, env, reach, i);
    case Sync(_, _, _) => GapsInBody(s, r, env, reach, i);
    case For(_, _, _, _, _) => GapsInFor(s, r, env, reach, i);
    case Switch(_, _, _, _, _) => GapsInSwitch(s, r, env, reach, i);
    case Try(_, _, _, _) => GapsInTry(s, r, env, reach, i);
    case _ => LeafGapless(s, r, env, reach, i);
  }

  lemma {:induction false} LeafGapless(s: Stmt, r: bool, env: Env, reach: set<Id>, i: Id)
    requires env.level > 0 && IsLeaf(s)
    ensures Exactly(s, Analyze(s, r, env), reach, i)
  {
    EvalGapless(s.id, OwnThrows(s), env, i);
  }

  // ---- Statements with one body

  lemma {:induction false} BodyMarks(s: Stmt, r: bool, env: Env)
    requires (s.While? || s.Do? || s.Foreach? || s.Sync? || s.For?) && env.level > 0 && Shape(s)
    ensures var f, fb := Analyze(s, r, env), Analyze(s.body, BodyReached(s, r), BodyPlace(s, env));
            fb.reach <= f.reach <= fb.reach + {s.id}
  {
    hide Shape;
    match s
    case While(id, c, b) =>
      assert Analyze(s, r, env) ==
             AnalyzeLoop(id, Eval(id, c.throws, env), b, r, CanBe(c, true), r && CanBe(c, false), env);
      LoopMarks(id, Eval(id, c.throws, env), b, r, CanBe(c, true), r && CanBe(c, false), env);
    case For(_, _, _, _, _) => ForMarks(s, r, env);
    case _ =>
  }

  lemma {:induction false} LoopMarks(id: Id, head: Fx, b: Stmt, r: bool, enters: bool, exits: bool, env: Env)
    requires env.level > 0 && head.reach == {}
    ensures var f, fb := AnalyzeLoop(id, head, b, r, enters, exits, env), Analyze(b, r && enters, EnterLoop(b.id, env));
            fb.reach <= f.reach <= fb.reach + {id}
  {
    hide Analyze;
  }

  lemma {:induction false} ForMarks(s: Stmt, r: bool, env: Env)
    requires s.For? && env.level > 0 && Shape(s)
    ensures var f, fb := Analyze(s, r, env), Analyze(s.body, BodyReached(s, r), BodyPlace(s, env));
            fb.reach <= f.reach <= fb.reach + {s.id}
  {
    hide AnalyzeHeaders, AnalyzeLoop;
    var c := ForCondition(s.end);
    var head := AnalyzeHeaders(s.init, env).Then(Eval(s.id, c.throws, env));
    HeadersBounded(s.init, env);
    HeadersBounded(s.update, env);
    LoopMarks(s.id, head, s.body, r, CanBe(c, true), r && CanBe(c, false), env);
    assert Analyze(s, r, env) == AnalyzeFor(s, r, env);
  }

  lemma {:induction false} BodyIn(s: Stmt)
    requires (s.While? || s.Do? || s.Foreach? || s.Sync? || s.For?) && Shape(s) && Unique(s)
    ensures Shape(s.body) && Unique(s.body) && Ids(s.body) <= Ids(s) && s.id in Ids(s) && s.id !in Ids(s.body)
    ensures s.body.id in Ids(s.body)
  {
  }

  /** The only report of s itself is that its body cannot be entered. */
  lemma {:induction false} BodyGap(s: Stmt, r: bool, env: Env, reach: set<Id>, i: Id)
    requires (s.While? || s.Do? || s.Foreach? || s.Sync? || s.For?) && env.level > 0 && Shape(s) && Unique(s)
    requires On(Ids(s), reach, Analyze(s, r, env).reach)
    requires var fb := Analyze(s.body, BodyReached(s, r), BodyPlace(s, env));
             && Exactly(s.body, fb, reach, i)
             && (UnreachableStatement(i) in Analyze(s, r, env).errs <==>
                   UnreachableStatement(i) in fb.errs || (r && !BodyReached(s, r) && i == s.body.id))
    requires On(Ids(s.body), reach, Analyze(s.body, BodyReached(s, r), BodyPlace(s, env)).reach)
    ensures Exactly(s, Analyze(s, r, env), reach, i)
  {
    hide Analyze, Shape, Unique;
    BodyIn(s);
    TopMarked(s, r, env);
    TopMarked(s.body, BodyReached(s, r), BodyPlace(s, env));
  }

  lemma {:induction false} BodyPart(s: Stmt, r: bool, env: Env, reach: set<Id>)
    requires (s.While? || s.Do? || s.Foreach? || s.Sync? || s.For?) && env.level > 0 && Shape(s) && Unique(s)
    requires On(Ids(s), reach, Analyze(s, r, env).reach)
    ensures On(Ids(s.body), reach, Analyze(s.body, BodyReached(s, r), BodyPlace(s, env)).reach)
  {
    hide Analyze, Shape, Unique;
    BodyIn(s);
    BodyMarks(s, r, env);
    OnPart(Ids(s), reach, Analyze(s, r, env).reach, Ids(s.body),
           Analyze(s.body, BodyReached(s, r), BodyPlace(s, env)).reach, {s.id});
  }

  lemma {:induction false} GapsInBody(s: Stmt, r: bool, env: Env, reach: set<Id>, i: Id)
    requires (s.While? || s.Do? || s.Foreach? || s.Sync?) && env.level > 0 && Shape(s) && Unique(s)
    requires On(Ids(s), reach, Analyze(s, r, env).reach)
    ensures Exactly(s, Analyze(s, r, env), reach, i)
    decreases s, 1
  {
    hide Analyze, Eval, Shape, Unique;
    BodyIn(s);
    BodyPart(s, r, env, reach);
    BodyErrors(s, r, env);
    EvalGapless(s.id, OwnThrows(s), env, i);
    GapsExact(s.body, BodyReached(s, r), BodyPlace(s, env), reach, i);
    BodyGap(s, r, env, reach, i);
  }

  lemma {:induction false} GapsInFor(s: Stmt, r: bool, env: Env, reach: set<Id>, i: Id)
    requires s.For? && env.level > 0 && Shape(s) && Unique(s) && On(Ids(s), reach, Analyze(s, r, env).reach)
    ensures Exactly(s, Analyze(s, r, env), reach, i)
    decreases s, 1
  {
    hide Analyze, AnalyzeHeaders, Eval, Unique;
    HeadersGapless(s.init, env, i);
    HeadersGapless(s.update, env, i);
    hide Shape;
    BodyIn(s);
    BodyPart(s, r, env, reach);
    ForEffects(s, r, env);
    EvalGapless(s.id, OwnThrows(s), env, i);
    GapsExact(s.body, BodyReached(s, r), BodyPlace(s, env), reach, i);
    BodyGap(s, r, env, reach, i);
  }

  lemma {:induction false} HeadersGapless(ss: seq<Stmt>, env: Env, i: Id)
    requires env.level > 0 && forall k :: 0 <= k < |ss| ==> IsHeader(ss[k])
    ensures UnreachableStatement(i) !in AnalyzeHeaders(ss, env).errs
  {
    if ss != [] {
      HeadersGapless(ss[1..], env, i);
      EvalGapless(ss[0].id, ss[0].e.throws, env, i);
      assert Analyze(ss[0], false, env).errs == Eval(ss[0].id, ss[0].e.throws, env).errs + {};
      HeadersSum(ss, env);
    }
  }

  // ---- If statements

  lemma {:induction false} IfMarks(s: Stmt, r: bool, env: Env)
    requires s.If? && env.level > 0 && Shape(s) && Unique(s)
    ensures var f, ft := Analyze(s, r, env), Analyze(s.thn, r, env);
            var fe := if s.els.Some? then Analyze(s.els.value, r, env) else EMPTY;
            ft.reach + fe.reach <= f.reach <= ft.reach + fe.reach + {s.id}
  {
    assert Analyze(s, r, env) == AnalyzeIf(s, r, env);
    hide Analyze;
  }

  lemma {:induction false} BranchIn(s: Stmt)
    requires s.If? && Shape(s) && Unique(s)
    ensures Shape(s.thn) && Unique(s.thn) && Ids(s.thn) <= Ids(s) && s.id !in Ids(s.thn)
    ensures s.els.Some? ==>
              var e := s.els.value;
              Shape(e) && Unique(e) && Ids(e) <= Ids(s) && s.id !in Ids(e) && Ids(s.thn) !! Ids(e)
  {
  }

  lemma {:induction false} GapsInIf(s: Stmt, r: bool, env: Env, reach: set<Id>, i: Id)
    requires s.If? && env.level > 0 && Shape(s) && Unique(s) && On(Ids(s), reach, Analyze(s, r, env).reach)
    ensures Exactly(s, Analyze(s, r, env), reach, i)
    decreases s, 1
  {
    hide Analyze, Eval, Shape, Unique, Ids, Outer;
    BranchIn(s);
    IfMarks(s, r, env);
    IfErrors(s, r, env);
    EvalGapless(s.id, s.cond.throws, env, i);
    var f, ft := Analyze(s, r, env), Analyze(s.thn, r, env);
    AnalyzeBounded(s.thn, r, env);
    if s.els.Some? {
      var fe := Analyze(s.els.value, r, env);
      AnalyzeBounded(s.els.value, r, env);
      OnPart(Ids(s), reach, f.reach, Ids(s.thn), ft.reach, fe.reach + {s.id});
      OnPart(Ids(s), reach, f.reach, Ids(s.els.value), fe.reach, ft.reach + {s.id});
      GapsExact(s.els.value, r, env, reach, i);
    } else {
      OnPart(Ids(s), reach, f.reach, Ids(s.thn), ft.reach, {s.id});
    }
    GapsExact(s.thn, r, env, reach, i);
  }

  // ---- Statements in order

  lemma {:induction false} SeqMarks(ss: seq<Stmt>, r: bool, env: Env)
    requires ss != [] && env.level > 0
    ensures var f, f0 := AnalyzeSeq(ss, r, env), Analyze(ss[0], r, env);
            f.reach == f0.reach + AnalyzeSeq(ss[1..], f0.completes, env).reach
  {
    hide Analyze;
  }

  lemma {:induction false} SeqIn(ss: seq<Stmt>)
    requires ss != [] && UniqueAll(ss) && forall k :: 0 <= k < |ss| ==> Shape(ss[k])
    ensures Shape(ss[0]) && Unique(ss[0]) && UniqueAll(ss[1..]) && Ids(ss[0]) !! IdsOf(ss[1..])
    ensures Ids(ss[0]) <= IdsOf(ss) && IdsOf(ss[1..]) <= IdsOf(ss) && ss[0].id in Ids(ss[0])
    ensures forall k :: 0 <= k < |ss[1..]| ==> Shape(ss[1..][k])
  {
  }

  lemma {:induction false} GapsInSeq(ss: seq<Stmt>, r: bool, env: Env, reach: set<Id>, i: Id)
    requires env.level > 0 && UniqueAll(ss) && forall k :: 0 <= k < |ss| ==> Shape(ss[k])
    requires On(IdsOf(ss), reach, AnalyzeSeq(ss, r, env).reach)
    ensures UnreachableStatement(i) in AnalyzeSeq(ss, r, env).errs <==> GapAmong(ss, reach, i)
    ensures FirstUnreachable(ss, r, env) == Some(i) <==> FirstMissed(ss, reach, i)
    ensures ss != [] ==> (ss[0].id in reach <==> r)
    decreases ss, 0
  {
    hide Analyze, Shape, Unique, Ids, Outer, FirstMissed;
    if ss == [] {
      NoneMissed(reach, i);
    } else {
      SeqIn(ss);
      SeqMarks(ss, r, env);
      SeqSums(ss, r, env);
      var f, f0 := AnalyzeSeq(ss, r, env), Analyze(ss[0], r, env);
      var rest := AnalyzeSeq(ss[1..], f0.completes, env);
      AnalyzeBounded(ss[0], r, env);
      SeqBounded(ss[1..], f0.completes, env);
      OnPart(IdsOf(ss), reach, f.reach, Ids(ss[0]), f0.reach, rest.reach);
      OnPart(IdsOf(ss), reach, f.reach, IdsOf(ss[1..]), rest.reach, f0.reach);
      GapsExact(ss[0], r, env, reach, i);
      TopMarked(ss[0], r, env);
      GapsInSeq(ss[1..], f0.completes, env, reach, i);
      MissedLater(ss, reach, i);
    }
  }

  lemma {:induction false} NoneMissed(reach: set<Id>, i: Id)
    ensures !FirstMissed([], reach, i)
  {
  }

  lemma {:induction false} MissedLater(ss: seq<Stmt>, reach: set<Id>, i: Id)
    requires ss != []
    ensures FirstMissed(ss, reach, i) <==>
            if ss[0].id in reach then FirstMissed(ss[1..], reach, i) else i == ss[0].id
  {
    if ss[0].id in reach {
      if FirstMissed(ss, reach, i) {
        var k :| 0 <= k < |ss| && ss[k].id == i && i !in reach && forall j :: 0 <= j < k ==> ss[j].id in reach;
        assert ss[1..][k - 1].id == i && forall j :: 0 <= j < k - 1 ==> ss[1..][j] == ss[j + 1];
      }
      if FirstMissed(ss[1..], reach, i) {
        var k :| 0 <= k < |ss[1..]| && ss[1..][k].id == i && i !in reach &&
          forall j :: 0 <= j < k ==> ss[1..][j].id in reach;
        assert ss[k + 1].id == i && forall j :: 0 < j < k + 1 ==> ss[j] == ss[1..][j - 1];
      }
    }
  }

  /** The report of a block is at the first statement that is not reached. */
  lemma {:induction false} BlockGap(b: Stmt, r: bool, inner: Env, reach: set<Id>, i: Id)
    requires b.Block? && inner.level > 0 && (b.id in reach <==> r)
    requires FirstUnreachable(b.stmts, r, inner) == Some(i) <==> FirstMissed(b.stmts, reach, i)
    requires b.stmts != [] ==> (b.stmts[0].id in reach <==> r)
    requires UnreachableStatement(i) in AnalyzeSeq(b.stmts, r, inner).errs <==> GapAmong(b.stmts, reach, i)
    ensures UnreachableStatement(i) in AnalyzeSeq(b.stmts, r, inner).errs + GapErrors(b.stmts, r, r, inner) <==>
            Gap(b, reach, i)
  {
    hide AnalyzeSeq;
    if b.stmts == [] { NoneMissed(reach, i); }
  }

  lemma {:induction false} BlockMarks(s: Stmt, r: bool, env: Env)
    requires s.Block?
    ensures var f := AnalyzeBlock(s.id, s.tag, s.stmts, r, env);
            f.reach == AnalyzeSeq(s.stmts, r, EnterBlock(s.id, s.tag, s.stmts, env)).reach + If1(r, s.id)
  {
    hide AnalyzeSeq, GapErrors, LabelErrors, EnterBlock;
  }

  lemma {:induction false} BlockIn(s: Stmt)
    requires s.Block? && Shape(s) && Unique(s)
    ensures UniqueAll(s.stmts) && (forall k :: 0 <= k < |s.stmts| ==> Shape(s.stmts[k]))
    ensures s.id !in IdsOf(s.stmts) && IdsOf(s.stmts) <= Ids(s) && s.id in Ids(s)
  {
  }

  lemma {:induction false} GapsInStmts(b: Stmt, r: bool, inner: Env, ids: set<Id>, all: set<Id>, others: set<Id>,
                                       reach: set<Id>, i: Id)
    requires b.Block? && Shape(b) && Unique(b) && inner.level > 0 && Ids(b) <= ids && On(ids, reach, all)
    requires var fs := AnalyzeSeq(b.stmts, r, inner).reach + If1(r, b.id);
             fs <= all <= fs + others && others !! Ids(b)
    ensures UnreachableStatement(i) in AnalyzeSeq(b.stmts, r, inner).errs + GapErrors(b.stmts, r, r, inner) <==>
            Gap(b, reach, i)
    decreases b, 0
  {
    hide AnalyzeSeq, GapErrors, Shape, Unique, Ids, Outer, FirstMissed, Gap;
    BlockIn(b);
    SeqBounded(b.stmts, r, inner);
    var fs := AnalyzeSeq(b.stmts, r, inner).reach;
    OnPart(ids, reach, all, IdsOf(b.stmts), fs, others + {b.id});
    GapsInSeq(b.stmts, r, inner, reach, i);
    assert b.id in reach <==> r;
    BlockGap(b, r, inner, reach, i);
  }

  lemma {:induction false} GapsOfBlock(s: Stmt, r: bool, env: Env, reach: set<Id>, i: Id)
    requires s.Block? && Shape(s) && Unique(s)
    requires On(Ids(s), reach, AnalyzeBlock(s.id, s.tag, s.stmts, r, env).reach)
    ensures Exactly(s, AnalyzeBlock(s.id, s.tag, s.stmts, r, env), reach, i)
    decreases s, 1
  {
    hide AnalyzeSeq, AnalyzeBlock, GapErrors, EnterBlock, Shape, Unique, Ids;
    var inner := EnterBlock(s.id, s.tag, s.stmts, env);
    LevelInside(s, env);
    BlockMarks(s, r, env);
    BlockErrors(s, r, env);
    GapsInStmts(s, r, inner, Ids(s), AnalyzeBlock(s.id, s.tag, s.stmts, r, env).reach, {}, reach, i);
  }

  lemma {:induction false} GapsInBlock(s: Stmt, r: bool, env: Env, reach: set<Id>, i: Id)
    requires s.Block? && env.level > 0 && Shape(s) && Unique(s) && On(Ids(s), reach, Analyze(s, r, env).reach)
    ensures Exactly(s, Analyze(s, r, env), reach, i)
    decreases s, 2
  {
    hide AnalyzeBlock, Shape, Unique, Ids, Gap;
    assert Analyze(s, r, env) == AnalyzeBlock(s.id, s.tag, s.stmts, r, env);
    GapsOfBlock(s, r, env, reach, i);
  }

  // ---- Switch

  lemma {:induction false} GroupsMarks(gs: seq<Stmt>, r: bool, last: bool, env: Env)
    requires gs != [] && gs[0].Block?
    ensures var inner := env.(level := env.level + 1);
            var f0 := AnalyzeSeq(gs[0].stmts, r, inner);
            AnalyzeGroups(gs, r, last, env).reach ==
            f0.reach + If1(r, gs[0].id) + AnalyzeGroups(gs[1..], r, f0.completes, env).reach
  {
    hide AnalyzeSeq, GapErrors;
  }

  lemma {:induction false} GapsInGroups(gs: seq<Stmt>, r: bool, last: bool, env: Env, reach: set<Id>, i: Id)
    requires env.level > 0 && UniqueAll(gs) && forall k :: 0 <= k < |gs| ==> gs[k].Block? && Shape(gs[k])
    requires On(IdsOf(gs), reach, AnalyzeGroups(gs, r, last, env).reach)
    ensures UnreachableStatement(i) in AnalyzeGroups(gs, r, last, env).errs <==> GapAmong(gs, reach, i)
    decreases gs, 0
  {
    hide AnalyzeSeq, GapErrors, Shape, Unique, Ids, Outer, Gap;
    if gs != [] {
      var g, inner := gs[0], env.(level := env.level + 1);
      var f0 := AnalyzeSeq(g.stmts, r, inner);
      var f, rest := AnalyzeGroups(gs, r, last, env), AnalyzeGroups(gs[1..], r, f0.completes, env);
      SeqIn(gs);
      GroupsMarks(gs, r, last, env);
      GroupsSums(gs, r, last, env);
      hide AnalyzeGroups;
      GroupsBounded(gs[1..], r, f0.completes, env);
      GroupBounded(g, r, inner);
      GapsInStmts(g, r, inner, IdsOf(gs), f.reach, rest.reach, reach, i);
      OnPart(IdsOf(gs), reach, f.reach, IdsOf(gs[1..]), rest.reach, f0.reach + If1(r, g.id));
      GapsInGroups(gs[1..], r, f0.completes, env, reach, i);
    }
  }

  lemma {:induction false} SwitchMarks(s: Stmt, r: bool, env: Env)
    requires s.Switch? && env.level > 0
    ensures var f, fg := Analyze(s, r, env), AnalyzeGroups(s.groups, r, false, EnterSwitch(s.blockId, env));
            fg.reach <= f.reach <= fg.reach + {s.id, s.blockId}
  {
    hide AnalyzeGroups;
  }

  lemma {:induction false} SwitchIn(s: Stmt)
    requires s.Switch? && Shape(s) && Unique(s)
    ensures UniqueAll(s.groups) && (forall k :: 0 <= k < |s.groups| ==> s.groups[k].Block? && Shape(s.groups[k]))
    ensures {s.id, s.blockId} !! IdsOf(s.groups) && IdsOf(s.groups) <= Ids(s)
  {
  }

  lemma {:induction false} GapsInSwitch(s: Stmt, r: bool, env: Env, reach: set<Id>, i: Id)
    requires s.Switch? && env.level > 0 && Shape(s) && Unique(s) && On(Ids(s), reach, Analyze(s, r, env).reach)
    ensures Exactly(s, Analyze(s, r, env), reach, i)
    decreases s, 1
  {
    hide Analyze, AnalyzeGroups, Eval, Shape, Unique, Ids;
    SwitchIn(s);
    SwitchMarks(s, r, env);
    SwitchErrors(s, r, env);
    EvalGapless(s.id, s.e.throws, env, i);
    var fg := AnalyzeGroups(s.groups, r, false, EnterSwitch(s.blockId, env));
    OnPart(Ids(s), reach, Analyze(s, r, env).reach, IdsOf(s.groups), fg.reach, {s.id, s.blockId});
    GapsInGroups(s.groups, r, false, EnterSwitch(s.blockId, env), reach, i);
  }

  // ---- Try

  lemma {:induction false} TryMarks(s: Stmt, r: bool, env: Env)
    requires s.Try? && env.level > 0
    ensures var f, ff, fb, fc := Analyze(s, r, env), FinallyFx(s, r, env), BlockFx(s, r, env), ClausesFx(s, r, env);
            ff.reach + fb.reach + fc.reach <= f.reach <= ff.reach + fb.reach + fc.reach + {s.id}
  {
    assert Analyze(s, r, env) == AnalyzeTry(s, r, env);
    hide Analyze, AnalyzeCatches;
  }

  /** Where nothing but perhaps the block itself is marked, there is no gap. */
  lemma {:induction false} NoGap(s: Stmt, reach: set<Id>, i: Id)
    requires Unique(s) && (if s.Block? then Ids(s) * reach <= {s.id} else Ids(s) !! reach)
    ensures !Gap(s, reach, i)
    decreases s, 1
  {
    match s
    case Block(_, _, ss) => NoGapAmong(ss, reach, i); if ss != [] { assert ss[0].id in Ids(ss[0]); }
    case If(_, _, t, e) => NoGap(t, reach, i); if e.Some? { NoGap(e.value, reach, i); }
    case While(_, _, b) => NoGap(b, reach, i);
    case Do(_, b, _) => NoGap(b, reach, i);
    case For(_, _, _, _, b) => NoGap(b, reach, i);
    case Foreach(_, _, _, _, b) => NoGap(b, reach, i);
    case Switch(_, _, _, gs, _) => NoGapAmong(gs, reach, i);
    case Try(_, b, cs, f) =>
      NoGap(b, reach, i); NoGapInClauses(cs, reach, i); if f.Some? { NoGap(f.value, reach, i); }
    case Sync(_, _, b) => NoGap(b, reach, i);
    case _ =>
  }

  lemma {:induction false} NoGapAmong(ss: seq<Stmt>, reach: set<Id>, i: Id)
    requires UniqueAll(ss) && IdsOf(ss) !! reach
    ensures !GapAmong(ss, reach, i)
    decreases ss, 0
  {
    if ss != [] {
      NoGap(ss[0], reach, i);
      NoGapAmong(ss[1..], reach, i);
    }
  }

  lemma {:induction false} NoGapInClauses(cs: seq<Catch>, reach: set<Id>, i: Id)
    requires UniqueCatches(cs) && IdsOfCatches(cs) !! reach
    ensures !GapInClauses(cs, reach, i)
    decreases cs, 0
  {
    if cs != [] {
      var c := cs[0];
      assert c.body < c;
      NoGap(c.body, reach, i);
      NoGapInClauses(cs[1..], reach, i);
    }
  }

  /** What the first clause contributes. */
  function ClauseFx(cs: seq<Catch>, before: seq<Class>, found: set<Class>, env: Env): Fx
    requires cs != [] && env.level > 0
  {
    var c := cs[0];
    if !CatchReachable(env.h, found, c.cls) then Fx({c.body.id}, {}, {}, {UnreachableCatch(c.body.id)}, false)
    else if Covers(env.h, before, c.cls) then Fx({c.body.id}, {}, {}, {BlockedCatch(c.body.id)}, false)
    else Analyze(c.body, true, env)
  }

  lemma {:induction false} CatchesMarks(cs: seq<Catch>, before: seq<Class>, found: set<Class>, env: Env)
    requires cs != [] && env.level > 0
    ensures var f, f0 := AnalyzeCatches(cs, before, found, env), ClauseFx(cs, before, found, env);
            var rest := AnalyzeCatches(cs[1..], before + [cs[0].cls], found, env);
            f.reach == f0.reach + rest.reach && f.errs == f0.errs + rest.errs
  {
    hide Analyze;
  }

  lemma {:induction false} GapsInClause(cs: seq<Catch>, before: seq<Class>, found: set<Class>, env: Env,
                                        reach: set<Id>, i: Id)
    requires cs != [] && env.level > 0 && Shape(cs[0].body) && cs[0].body.Block? && Unique(cs[0].body)
    requires On(Ids(cs[0].body), reach, ClauseFx(cs, before, found, env).reach)
    ensures Exactly(cs[0].body, ClauseFx(cs, before, found, env), reach, i)
    decreases cs[0].body, 4
  {
    hide Analyze, CatchReachable, Covers, Gap;
    var c := cs[0];
    if !CatchReachable(env.h, found, c.cls) || Covers(env.h, before, c.cls) {
      NoGap(c.body, reach, i);
    } else {
      GapsExact(c.body, true, env, reach, i);
    }
  }

  lemma {:induction false} ClausesIn(cs: seq<Catch>)
    requires cs != [] && UniqueCatches(cs)
    ensures Unique(cs[0].body) && UniqueCatches(cs[1..]) && Ids(cs[0].body) !! IdsOfCatches(cs[1..])
    ensures IdsOfCatches(cs) == Ids(cs[0].body) + IdsOfCatches(cs[1..]) && cs[0].body.id in Ids(cs[0].body)
  {
  }

  lemma {:induction false} ClauseBounded(cs: seq<Catch>, before: seq<Class>, found: set<Class>, env: Env)
    requires cs != [] && env.level > 0 && Shape(cs[0].body)
    ensures ClauseFx(cs, before, found, env).reach <= Ids(cs[0].body)
  {
    AnalyzeBounded(cs[0].body, true, env);
  }

  lemma {:induction false} GapsInClauses(cs: seq<Catch>, before: seq<Class>, found: set<Class>, env: Env,
                                         reach: set<Id>, i: Id)
    requires env.level > 0 && UniqueCatches(cs)
    requires forall k :: 0 <= k < |cs| ==> Shape(cs[k].body) && cs[k].body.Block?
    requires On(IdsOfCatches(cs), reach, AnalyzeCatches(cs, before, found, env).reach)
    ensures UnreachableStatement(i) in AnalyzeCatches(cs, before, found, env).errs <==> GapInClauses(cs, reach, i)
    decreases cs, 0
  {
    hide Analyze, Shape, Unique, Ids, ClauseFx, Gap, Outer;
    if cs != [] {
      var c := cs[0];
      assert c.body < c;
      ClausesIn(cs);
      CatchesMarks(cs, before, found, env);
      var f, f0 := AnalyzeCatches(cs, before, found, env), ClauseFx(cs, before, found, env);
      var rest := AnalyzeCatches(cs[1..], before + [c.cls], found, env);
      CatchesBounded(cs[1..], before + [c.cls], found, env);
      ClauseBounded(cs, before, found, env);
      OnPart(IdsOfCatches(cs), reach, f.reach, Ids(c.body), f0.reach, rest.reach);
      OnPart(IdsOfCatches(cs), reach, f.reach, IdsOfCatches(cs[1..]), rest.reach, f0.reach);
      GapsInClause(cs, before, found, env, reach, i);
      GapsInClauses(cs[1..], before + [c.cls], found, env, reach, i);
    }
  }

  lemma {:induction false} TryPartsBounded(s: Stmt, r: bool, env: Env)
    requires s.Try? && env.level > 0 && Shape(s)
    ensures BlockFx(s, r, env).reach <= Ids(s.body) && ClausesFx(s, r, env).reach <= IdsOfCatches(s.catches)
    ensures FinallyFx(s, r, env).reach <= (if s.fin.Some? then Ids(s.fin.value) else {})
  {
    hide Analyze, AnalyzeCatches, Ids, Outer;
    ShapeParts(s);
    hide Shape;
    AnalyzeBounded(s.body, r, BlockEnv(s, r, env));
    CatchesBounded(s.catches, [], BlockFx(s, r, env).exc + {ERROR, RUNTIME_EXCEPTION}, ClausesEnv(s, r, env));
    if s.fin.Some? { AnalyzeBounded(s.fin.value, r, env); }
  }

  lemma {:induction false} TryOn(s: Stmt, r: bool, env: Env, reach: set<Id>)
    requires s.Try? && env.level > 0 && Shape(s) && Unique(s) && On(Ids(s), reach, Analyze(s, r, env).reach)
    ensures On(Ids(s.body), reach, BlockFx(s, r, env).reach)
    ensures On(IdsOfCatches(s.catches), reach, ClausesFx(s, r, env).reach)
    ensures s.fin.Some? ==> On(Ids(s.fin.value), reach, FinallyFx(s, r, env).reach)
  {
    hide Analyze, AnalyzeCatches, Ids, Unique, Shape, BlockFx, ClausesFx, FinallyFx;
    TryMarks(s, r, env);
    TryPartsBounded(s, r, env);
    UniqueParts(s);
    var f, ff, fb, fc := Analyze(s, r, env), FinallyFx(s, r, env), BlockFx(s, r, env), ClausesFx(s, r, env);
    OnPart(Ids(s), reach, f.reach, Ids(s.body), fb.reach, ff.reach + fc.reach + {s.id});
    OnPart(Ids(s), reach, f.reach, IdsOfCatches(s.catches), fc.reach, ff.reach + fb.reach + {s.id});
    if s.fin.Some? { OnPart(Ids(s), reach, f.reach, Ids(s.fin.value), ff.reach, fb.reach + fc.reach + {s.id}); }
  }

  lemma {:induction false} GapsInTry(s: Stmt, r: bool, env: Env, reach: set<Id>, i: Id)
    requires s.Try? && env.level > 0 && Shape(s) && Unique(s) && On(Ids(s), reach, Analyze(s, r, env).reach)
    ensures Exactly(s, Analyze(s, r, env), reach, i)
    decreases s, 1
  {
    hide Analyze, AnalyzeCatches, Ids, Unique, Shape;
    TryEffects(s, r, env);
    TryOn(s, r, env, reach);
    UniqueParts(s);
    ShapeParts(s);
    GapsExact(s.body, r, BlockEnv(s, r, env), reach, i);
    GapsInClauses(s.catches, [], BlockFx(s, r, env).exc + {ERROR, RUNTIME_EXCEPTION}, ClausesEnv(s, r, env), reach, i);
    if s.fin.Some? { GapsExact(s.fin.value, r, env, reach, i); }
  }

  // ---- Method bodies

  /** A statement is reported unreachable exactly if it is the first of a reached block, after a reached one,
      that is not reached, or the body of a reached loop that is not reached. */
  lemma {:induction false} BodyGapsExact(body: Stmt, isVoid: bool, h: Hierarchy, ctx: Context, i: Id)
    requires IsPlain(body) && Shape(body) && Unique(body)
    ensures var f := AnalyzeBody(body, isVoid, h, ctx);
            UnreachableStatement(i) in f.errs <==> Gap(body, f.reach, i)
  {
    hide AnalyzeBlock, Shape, Unique, Ids, Gap;
    var env := MethodEnv(h, ctx);
    GapsOfBlock(body, true, env, AnalyzeBlock(body.id, body.tag, body.stmts, true, env).reach, i);
  }

  // ---- What is reported never runs

  lemma {:induction false} HeadersApart(s: Stmt)
    requires Unique(s)
    ensures Marks(s) !! Headers(s) && Marks(s) <= Ids(s) && Headers(s) <= Ids(s)
    decreases s, 1
  {
    MarksAreIds(s);
    match s
    case Block(_, _, ss) => HeadersApartAll(ss);
    case If(_, _, t, e) => HeadersApart(t); if e.Some? { HeadersApart(e.value); }
    case While(_, _, b) => HeadersApart(b);
    case Do(_, b, _) => HeadersApart(b);
    case For(_, _, _, _, _) => HeadersApartFor(s);
    case Foreach(_, _, _, _, b) => HeadersApart(b);
    case Switch(_, _, _, gs, _) => HeadersApartAll(gs);
    case Try(_, _, _, _) => HeadersApartTry(s);
    case Sync(_, _, b) => HeadersApart(b);
    case _ =>
  }

  lemma {:induction false} HeadersApartFor(s: Stmt)
    requires s.For? && Unique(s)
    ensures Marks(s) !! Headers(s) && Headers(s) <= Ids(s)
    decreases s, 0
  {
    HeadersApart(s.body);
    IdsAmong(s.init);
    IdsAmong(s.update);
    hide IdsOf;
  }

  lemma {:induction false} HeadersApartTry(s: Stmt)
    requires s.Try? && Unique(s)
    ensures Marks(s) !! Headers(s) && Headers(s) <= Ids(s)
    decreases s, 0
  {
    hide IdsOfCatches, MarksOfCatches, HeadersOfCatches, UniqueCatches;
    HeadersApart(s.body);
    HeadersApartClauses(s.catches);
    if s.fin.Some? { HeadersApart(s.fin.value); }
  }

  lemma {:induction false} IdsAmong(ss: seq<Stmt>)
    ensures forall k :: 0 <= k < |ss| ==> ss[k].id in IdsOf(ss)
  {
    if ss != [] { IdsAmong(ss[1..]); }
  }

  lemma {:induction false} HeadersApartAll(ss: seq<Stmt>)
    requires UniqueAll(ss)
    ensures MarksOf(ss) !! HeadersOf(ss) && MarksOf(ss) <= IdsOf(ss) && HeadersOf(ss) <= IdsOf(ss)
    decreases ss, 0
  {
    hide Marks, Headers, Unique, Ids;
    if ss != [] {
      HeadersApart(ss[0]);
      HeadersApartAll(ss[1..]);
    }
  }

  lemma {:induction false} HeadersApartClauses(cs: seq<Catch>)
    requires UniqueCatches(cs)
    ensures MarksOfCatches(cs) !! HeadersOfCatches(cs)
    ensures MarksOfCatches(cs) <= IdsOfCatches(cs) && HeadersOfCatches(cs) <= IdsOfCatches(cs)
    decreases cs, 0
  {
    hide Marks, Headers, Unique, Ids;
    if cs != [] {
      var c := cs[0];
      assert c.body < c;
      HeadersApart(c.body);
      HeadersApartClauses(cs[1..]);
    }
  }

  /** No run executes a statement that is reported unreachable. */
  lemma {:induction false} ReportedNeverRuns(body: Stmt, isVoid: bool, h: Hierarchy, ctx: Context, u: Id)
    requires IsPlain(body) && Shape(body) && Unique(body)
    requires var errs := AnalyzeBody(body, isVoid, h, ctx).errs; NamesResolve(errs) && UnreachableStatement(u) in errs
    ensures u in Marks(body) && !Executes(h, body, None, u)
  {
    hide AnalyzeBlock, Valid, Shape, Unique, Marks, Headers, Within;
    ReportsBlock(body, true, MethodEnv(h, ctx), u);
    HeadersApart(body);
    if Executes(h, body, None, u) {
      var q: Run, w: Run :| IsRun(h, body, None, q) && Within(w, q) && Shows(w, u);
      ReachabilitySound(body, isVoid, h, ctx, q);
      assert false;
    }
  }

  /** When no catch clause is reported or dead and names resolve, something is reported unreachable exactly if
      some statement is executed in no run. */
  lemma {:induction false} DeadCodeExact(body: Stmt, isVoid: bool, h: Hierarchy, ctx: Context)
    requires IsPlain(body) && Shape(body) && Unique(body) && Live(h, body)
    requires var errs := AnalyzeBody(body, isVoid, h, ctx).errs; NamesResolve(errs) && NoClause(errs)
    ensures (exists u :: UnreachableStatement(u) in AnalyzeBody(body, isVoid, h, ctx).errs) <==>
            exists u :: u in Marks(body) && !Executes(h, body, None, u)
  {
    hide AnalyzeBody, Shape, Unique, Marks, Executes, Live;
    var f := AnalyzeBody(body, isVoid, h, ctx);
    if u :| UnreachableStatement(u) in f.errs {
      ReportedNeverRuns(body, isVoid, h, ctx, u);
    } else {
      NoSilentUnreachableCode(body, isVoid, h, ctx);
      BodyShown(body, isVoid, h, ctx);
    }
  }
}
