/** No run of a method body enters a catch clause that was reported. A clause is named by its block, so the
    distinctness of nodes tells whose report it was. */
module ClauseReports {
  import opened JavaAst
  import opened Classes
  import opened Options
  import opened Runs
  import opened Flow
  import opened FlowSound
  import opened MethodBodies

  /** The catch clause with block i was reported. */
  predicate Rejected(f: Fx, i: Id) {
    UnreachableCatch(i) in f.errs || BlockedCatch(i) in f.errs
  }

  ghost predicate NoClause(errs: set<Error>) {
    forall e :: e in errs ==> !e.UnreachableCatch? && !e.BlockedCatch?
  }

  /** f rejects exactly what g does. */
  ghost predicate SameRejects(f: Fx, g: Fx) {
    g.errs <= f.errs && forall i :: Rejected(f, i) ==> Rejected(g, i)
  }

  lemma {:induction false} OnlyFrom(f: Fx, before: set<Error>, g: Fx, after: set<Error>)
    requires f.errs == before + g.errs + after && NoClause(before) && NoClause(after)
    ensures SameRejects(f, g)
  {
  }

  lemma {:induction false} EvalClean(id: Id, throws: seq<Class>, env: Env)
    ensures NoClause(Eval(id, throws, env).errs)
  {
  }

  // ---- Reports are about clauses inside the statement analysed

  ghost predicate RejectsIn(f: Fx, ids: set<Id>) {
    forall i :: Rejected(f, i) ==> i in ids
  }

  lemma {:induction false} RejectsInside(s: Stmt, r: bool, env: Env)
    requires env.level > 0
    ensures RejectsIn(Analyze(s, r, env), Ids(s))
    decreases s, 1
  {
    hide AnalyzeBlock, AnalyzeIf, AnalyzeFor, AnalyzeTry, AnalyzeGroups, AnalyzeLoop, Eval, Ids;
    match s
    case Block(id, tag, ss) =>
      assert Analyze(s, r, env) == AnalyzeBlock(id, tag, ss, r, env);
      BlockInside(s, r, env);
    case If(_, _, _, _) =>
      assert Analyze(s, r, env) == AnalyzeIf(s, r, env);
      IfRejects(s, r, env);
    case For(_, _, _, _, _) =>
      assert Analyze(s, r, env) == AnalyzeFor(s, r, env);
      ForRejects(s, r, env);
    case Try(_, _, _, _) =>
      assert Analyze(s, r, env) == AnalyzeTry(s, r, env);
      TryRejects(s, r, env);
    case While(_, _, _) => BodyRejects(s, r, env);
    case Foreach(_, _, _, _, _) => BodyRejects(s, r, env);
    case Do(_, _, _) => BodyRejects(s, r, env);
    case Sync(_, _, _) => BodyRejects(s, r, env);
    case Switch(_, _, _, _, _) => SwitchRejects(s, r, env);
    case _ => LeafRejects(s, r, env);
  }

  lemma {:induction false} SwitchRejects(s: Stmt, r: bool, env: Env)
    requires s.Switch? && env.level > 0
    ensures RejectsIn(Analyze(s, r, env), Ids(s))
    decreases s, 0
  {
    hide AnalyzeGroups;
    GroupsReject(s.groups, r, false, EnterSwitch(s.blockId, env));
  }

  lemma {:induction false} LeafRejects(s: Stmt, r: bool, env: Env)
    requires IsLeaf(s) && env.level > 0
    ensures RejectsIn(Analyze(s, r, env), Ids(s))
  {
  }

  lemma {:induction false} LoopReports(id: Id, head: Fx, b: Stmt, r: bool, enters: bool, exits: bool, env: Env)
    requires env.level > 0
    ensures AnalyzeLoop(id, head, b, r, enters, exits, env).errs ==
            head.errs + Analyze(b, r && enters, EnterLoop(b.id, env)).errs +
            If1(r && !enters, UnreachableStatement(b.id))
  {
    hide Analyze;
  }

  /** The reports of a statement with a body are those of the body. */
  lemma {:induction false} BodyReports(s: Stmt, r: bool, env: Env)
    requires s.While? || s.Foreach? || s.Do? || s.Sync?
    requires env.level > 0
    ensures SameRejects(Analyze(s, r, env),
                        Analyze(s.body, r && (s.While? ==> CanBe(s.cond, true)),
                                if s.Sync? then env else EnterLoop(s.body.id, env)))
  {
    hide NoClause, SameRejects, Eval;
    var f, inner := Analyze(s, r, env), if s.Sync? then env else EnterLoop(s.body.id, env);
    match s
    case While(id, c, b) =>
      EvalClean(id, c.throws, env);
      assert f == AnalyzeLoop(id, Eval(id, c.throws, env), b, r, CanBe(c, true), r && CanBe(c, false), env);
      LoopReports(id, Eval(id, c.throws, env), b, r, CanBe(c, true), r && CanBe(c, false), env);
      BodyUnreachable(b.id);
      OnlyFrom(f, Eval(id, c.throws, env).errs, Analyze(b, r && CanBe(c, true), inner),
               If1(r && !CanBe(c, true), UnreachableStatement(b.id)));
    case Foreach(id, _, _, e, b) =>
      EvalClean(id, e.throws, env);
      BodyUnreachable(b.id);
      OnlyFrom(f, Eval(id, e.throws, env).errs, Analyze(b, r, inner), If1(false, UnreachableStatement(b.id)));
    case Do(id, b, c) =>
      EvalClean(id, c.throws, env);
      BodyUnreachable(b.id);
      OnlyFrom(f, If1(false, UnreachableStatement(b.id)), Analyze(b, r, inner), Eval(id, c.throws, env).errs);
    case Sync(id, e, b) =>
      EvalClean(id, e.throws, env);
      BodyUnreachable(b.id);
      OnlyFrom(f, Eval(id, e.throws, env).errs, Analyze(b, r, inner), If1(false, UnreachableStatement(b.id)));
  }

  lemma {:induction false} BodyUnreachable(id: Id)
    ensures forall b: bool :: NoClause(If1(b, UnreachableStatement(id)))
  {
  }

  lemma {:induction false} BodyRejects(s: Stmt, r: bool, env: Env)
    requires s.While? || s.Foreach? || s.Do? || s.Sync?
    requires env.level > 0
    ensures RejectsIn(Analyze(s, r, env), Ids(s))
    decreases s, 0
  {
    hide Analyze;
    BodyReports(s, r, env);
    RejectsInside(s.body, r && (s.While? ==> CanBe(s.cond, true)), if s.Sync? then env else EnterLoop(s.body.id, env));
  }

  lemma {:induction false} BlockInside(s: Stmt, r: bool, env: Env)
    requires s.Block?
    ensures RejectsIn(AnalyzeBlock(s.id, s.tag, s.stmts, r, env), Ids(s))
    decreases s, 0
  {
    hide Analyze, AnalyzeBlock, AnalyzeSeq;
    SeqRejects(s.stmts, r, EnterBlock(s.id, s.tag, s.stmts, env));
    BlockRejects(s.id, s.tag, s.stmts, r, env);
  }

  lemma {:induction false} IfRejects(s: Stmt, r: bool, env: Env)
    requires s.If? && env.level > 0
    ensures RejectsIn(AnalyzeIf(s, r, env), Ids(s))
    decreases s, 0
  {
    hide Analyze;
    RejectsInside(s.thn, r, env);
    if s.els.Some? { RejectsInside(s.els.value, r, env); }
  }

  lemma {:induction false} ForRejects(s: Stmt, r: bool, env: Env)
    requires s.For? && env.level > 0
    ensures RejectsIn(AnalyzeFor(s, r, env), Ids(s))
    decreases s, 0
  {
    hide Analyze, AnalyzeHeaders;
    HeadersReject(s.init, env);
    HeadersReject(s.update, env);
    RejectsInside(s.body, r && CanBe(ForCondition(s.end), true), EnterLoop(s.body.id, env));
  }

  /** The reports of a block are those of its statements. */
  lemma {:induction false} BlockRejects(id: Id, tag: Option<string>, ss: seq<Stmt>, r: bool, env: Env)
    ensures SameRejects(AnalyzeBlock(id, tag, ss, r, env), AnalyzeSeq(ss, r, EnterBlock(id, tag, ss, env)))
  {
    hide Analyze, AnalyzeSeq;
    var inner := EnterBlock(id, tag, ss, env);
    var f, fs := AnalyzeBlock(id, tag, ss, r, env), AnalyzeSeq(ss, r, inner);
    assert f.errs == fs.errs + (LabelErrors(id, tag, env) + GapErrors(ss, r, r, inner));
    forall i | Rejected(f, i) ensures Rejected(fs, i) {
      assert UnreachableCatch(i) !in GapErrors(ss, r, r, inner) && BlockedCatch(i) !in GapErrors(ss, r, r, inner);
    }
  }

  lemma {:induction false} SeqRejects(ss: seq<Stmt>, r: bool, env: Env)
    requires env.level > 0
    ensures RejectsIn(AnalyzeSeq(ss, r, env), IdsOf(ss))
    decreases ss, 0
  {
    hide Analyze, Ids;
    if ss != [] {
      RejectsInside(ss[0], r, env);
      SeqRejects(ss[1..], Analyze(ss[0], r, env).completes, env);
    }
  }

  lemma {:induction false} HeadersReject(ss: seq<Stmt>, env: Env)
    requires env.level > 0
    ensures RejectsIn(AnalyzeHeaders(ss, env), IdsOf(ss))
    decreases ss, 0
  {
    hide Analyze, Ids;
    if ss != [] {
      RejectsInside(ss[0], false, env);
      HeadersReject(ss[1..], env);
    }
  }

  lemma {:induction false} GroupsReject(gs: seq<Stmt>, r: bool, last: bool, env: Env)
    requires env.level > 0
    ensures RejectsIn(AnalyzeGroups(gs, r, last, env), IdsOf(gs))
    decreases gs, 0
  {
    hide Analyze;
    if gs != [] && gs[0].Block? {
      var inner := env.(level := env.level + 1);
      SeqRejects(gs[0].stmts, r, inner);
      GroupsReject(gs[1..], r, AnalyzeSeq(gs[0].stmts, r, inner).completes, env);
      hide AnalyzeSeq;
    }
  }

  lemma {:induction false} TryRejects(s: Stmt, r: bool, env: Env)
    requires s.Try? && env.level > 0
    ensures RejectsIn(AnalyzeTry(s, r, env), Ids(s))
    decreases s, 0
  {
    hide Analyze, AnalyzeCatches;
    var Try(_, b, cs, f) := s;
    var ff := if f.Some? then Analyze(f.value, r, env) else Fx({}, {}, {}, {}, true);
    if f.Some? { RejectsInside(f.value, r, env); }
    var env1, env2 := EnterTry(env, !ff.completes, CatchTypes(cs)), EnterTry(env, !ff.completes, []);
    RejectsInside(b, r, env1);
    CatchesReject(cs, [], Analyze(b, r, env1).exc + {ERROR, RUNTIME_EXCEPTION}, env2);
  }

  lemma {:induction false} CatchesReject(cs: seq<Catch>, before: seq<Class>, found: set<Class>, env: Env)
    requires env.level > 0
    ensures RejectsIn(AnalyzeCatches(cs, before, found, env), IdsOfCatches(cs))
    decreases cs, 0
  {
    hide Analyze;
    if cs != [] {
      var c := cs[0];
      assert c.body < c && c.body.id in Ids(c.body);
      RejectsInside(c.body, true, env);
      CatchesReject(cs[1..], before + [c.cls], found, env);
      hide Ids;
    }
  }

  // ---- Runs keep clear of them

  /** Everything executed in q is a node among ids and no rejected clause. */
  ghost predicate Clear(q: Run, f: Fx, ids: set<Id>) {
    forall x :: Within(x, q) ==> x.at.id in ids && !Rejected(f, x.at.id)
  }

  ghost predicate AllClear(kids: seq<Run>, f: Fx, ids: set<Id>) {
    forall k :: 0 <= k < |kids| ==> Clear(kids[k], f, ids)
  }

  lemma {:induction false} ClearNode(q: Run, f: Fx, ids: set<Id>)
    requires AllClear(q.kids, f, ids) && q.at.id in ids && !Rejected(f, q.at.id)
    ensures Clear(q, f, ids)
  {
    forall x | Within(x, q) ensures x.at.id in ids && !Rejected(f, x.at.id) {
      if x != q {
        var k :| 0 <= k < |q.kids| && Within(x, q.kids[k]);
        assert Clear(q.kids[k], f, ids);
      }
    }
  }

  /** Of the nodes in ids, g rejects only what f rejects. */
  ghost predicate Inherits(g: Fx, f: Fx, ids: set<Id>) {
    forall i :: i in ids && Rejected(g, i) ==> Rejected(f, i)
  }

  lemma {:induction false} ClearWider(q: Run, f: Fx, ids: set<Id>, g: Fx, wider: set<Id>)
    requires Clear(q, f, ids) && ids <= wider && Inherits(g, f, ids)
    ensures Clear(q, g, wider)
  {
  }

  /** A run of a reachable statement that stands where the analysis has it. */
  ghost predicate Stands(q: Run, owner: Option<string>, env: Env) {
    && Shape(q.at) && Unique(q.at) && Valid(env.h, q, owner) && Placed(q.at, env, owner)
    && NamesResolve(Analyze(q.at, true, env).errs)
  }

  lemma {:induction false} ClearRun(q: Run, owner: Option<string>, env: Env)
    requires Stands(q, owner, env)
    ensures Clear(q, Analyze(q.at, true, env), Ids(q.at))
    decreases q, 3
  {
    match q.at
    case Block(_, _, _) => ClearBlock(q, owner, env);
    case If(_, _, _, _) => ClearIf(q, owner, env);
    case While(_, c, b) =>
      WhileKids(env.h, q.kids, b, c, [], owner, q.out);
      ClearLoop(q, owner, env, c, []);
    case For(_, init, end, update, b) =>
      InitKids(env.h, q.kids, init, end, update, b, owner, q.out);
      ClearFor(q, owner, env);
    case Foreach(_, _, _, e, b) =>
      WhileKids(env.h, q.kids, b, Expr(e.throws, None), [], owner, q.out);
      ClearLoop(q, owner, env, Expr(e.throws, None), []);
    case Do(_, b, c) =>
      DoKids(env.h, q.kids, b, c, owner, q.out);
      ClearLoop(q, owner, env, Expr([], None), []);
    case Switch(_, _, _, _, _) => ClearSwitch(q, owner, env);
    case Try(_, _, _, _) => ClearTry(q, owner, env);
    case Sync(_, _, _) => ClearSync(q, owner, env);
    case _ => ClearNode(q, Analyze(q.at, true, env), Ids(q.at));
  }

  lemma {:induction false} ClearSync(q: Run, owner: Option<string>, env: Env)
    requires Stands(q, owner, env) && q.at.Sync?
    ensures Clear(q, Analyze(q.at, true, env), Ids(q.at))
    decreases q, 2
  {
    hide Analyze;
    var f, fb := Analyze(q.at, true, env), Analyze(q.at.body, true, env);
    BodyReports(q.at, true, env);
    RejectsInside(q.at.body, true, env);
    if q.kids != [] {
      ClearRun(q.kids[0], None, env);
      ClearWider(q.kids[0], fb, Ids(q.at.body), f, Ids(q.at));
    }
    ClearNode(q, f, Ids(q.at));
  }

  lemma {:induction false} IfReports(s: Stmt, env: Env)
    requires s.If? && env.level > 0
    ensures var f, e := Analyze(s, true, env), Eval(s.id, s.cond.throws, env).errs + Analyze(s.thn, true, env).errs;
            f.errs == if s.els.Some? then e + Analyze(s.els.value, true, env).errs else e
  {
    assert Analyze(s, true, env) == AnalyzeIf(s, true, env);
    hide Analyze;
  }

  lemma {:induction false} UniqueBranches(s: Stmt)
    requires s.If? && Unique(s)
    ensures Unique(s.thn) && s.id !in Ids(s.thn) && Ids(s.thn) <= Ids(s)
    ensures s.els.Some? ==>
              Unique(s.els.value) && s.id !in Ids(s.els.value) && Ids(s.els.value) <= Ids(s) &&
              Ids(s.thn) !! Ids(s.els.value)
  {
  }

  /** Of the nodes of a branch, only that branch's own reports speak. */
  lemma {:induction false} BranchOwns(s: Stmt, b: Stmt, env: Env)
    requires s.If? && env.level > 0 && Unique(s) && (b == s.thn || (s.els.Some? && b == s.els.value))
    ensures var f, fb := Analyze(s, true, env), Analyze(b, true, env);
            fb.errs <= f.errs && Inherits(f, fb, Ids(b)) && !Rejected(f, s.id) && Unique(b) && Ids(b) <= Ids(s)
  {
    hide Analyze, Ids, Unique;
    var If(id, c, t, e) := s;
    IfReports(s, env);
    UniqueBranches(s);
    RejectsInside(t, true, env);
    if e.Some? { RejectsInside(e.value, true, env); }
  }

  lemma {:induction false} ClearIf(q: Run, owner: Option<string>, env: Env)
    requires Stands(q, owner, env) && q.at.If?
    ensures Clear(q, Analyze(q.at, true, env), Ids(q.at))
    decreases q, 2
  {
    hide Analyze, Ids, Unique;
    var f := Analyze(q.at, true, env);
    BranchOwns(q.at, q.at.thn, env);
    if q.kids != [] {
      BranchOwns(q.at, q.kids[0].at, env);
      ClearRun(q.kids[0], None, env);
      ClearWider(q.kids[0], Analyze(q.kids[0].at, true, env), Ids(q.kids[0].at), f, Ids(q.at));
    }
    assert q.at.id in Ids(q.at) by { OwnId(q.at); }
    ClearNode(q, f, Ids(q.at));
  }

  lemma {:induction false} OwnId(s: Stmt)
    ensures s.id in Ids(s)
  {
  }

  lemma {:induction false} ClearBlock(q: Run, owner: Option<string>, env: Env)
    requires Stands(q, owner, env) && q.at.Block?
    ensures Clear(q, Analyze(q.at, true, env), Ids(q.at))
    decreases q, 2
  {
    var Block(id, tag, ss) := q.at;
    var inner := EnterBlock(id, tag, ss, env);
    var f, fs := AnalyzeBlock(id, tag, ss, true, env), AnalyzeSeq(ss, true, inner);
    assert f == Analyze(q.at, true, env) && LabelErrors(id, tag, env) <= f.errs;
    BlockRejects(id, tag, ss, true, env);
    var o :| ValidSeq(env.h, q.kids, ss, tag, o) && q.out == LeaveBlock(o, tag);
    BlockPlaces(id, tag, ss, env, owner);
    ClearSeq(q.kids, ss, tag, o, inner);
    SeqRejects(ss, true, inner);
    hide Analyze;
    forall k | 0 <= k < |q.kids| ensures Clear(q.kids[k], f, Ids(q.at)) {
      ClearWider(q.kids[k], fs, IdsOf(ss), f, Ids(q.at));
    }
    ClearNode(q, f, Ids(q.at));
  }

  lemma {:induction false} ClearSeq(kids: seq<Run>, ss: seq<Stmt>, owner: Option<string>, o: Outcome, env: Env)
    requires forall i :: 0 <= i < |ss| ==> Shape(ss[i]) && Placed(ss[i], env, owner)
    requires ValidSeq(env.h, kids, ss, owner, o) && env.level > 0 && UniqueAll(ss)
    requires NamesResolve(AnalyzeSeq(ss, true, env).errs)
    ensures AllClear(kids, AnalyzeSeq(ss, true, env), IdsOf(ss))
    decreases kids, 2
  {
    hide Analyze, Valid, Shape, Ids;
    if kids != [] {
      var f, f0 := AnalyzeSeq(ss, true, env), Analyze(ss[0], true, env);
      assert f0.errs <= f.errs;
      ClearRun(kids[0], owner, env);
      RejectsInside(ss[0], true, env);
      SeqRejects(ss[1..], f0.completes, env);
      ClearWider(kids[0], f0, Ids(ss[0]), f, IdsOf(ss));
      if kids[0].out.Normal? {
        Sound(kids[0], owner, env, f0.reach, f0.done, Headers(ss[0]));
        ClearSeq(kids[1..], ss[1..], owner, o, env);
        ClearRest(kids, ss, env);
      }
    }
  }

  lemma {:induction false} ClearRest(kids: seq<Run>, ss: seq<Stmt>, env: Env)
    requires kids != [] && ss != [] && env.level > 0 && Ids(ss[0]) !! IdsOf(ss[1..])
    requires Analyze(ss[0], true, env).completes && RejectsIn(Analyze(ss[0], true, env), Ids(ss[0]))
    requires Clear(kids[0], AnalyzeSeq(ss, true, env), IdsOf(ss))
    requires AllClear(kids[1..], AnalyzeSeq(ss[1..], true, env), IdsOf(ss[1..]))
    ensures AllClear(kids, AnalyzeSeq(ss, true, env), IdsOf(ss))
  {
    hide Analyze, Ids;
    var f, rest := AnalyzeSeq(ss, true, env), AnalyzeSeq(ss[1..], true, env);
    assert f == Analyze(ss[0], true, env).Then(rest);
    forall k | 0 <= k < |kids| ensures Clear(kids[k], f, IdsOf(ss)) {
      if k > 0 {
        assert kids[k] == kids[1..][k - 1];
        ClearWider(kids[k], rest, IdsOf(ss[1..]), f, IdsOf(ss));
      }
    }
  }

  // ---- Loops

  /** Each run is one of the loop's body, which the condition allows, or of a statement in its header. */
  ghost predicate LoopKids(h: Hierarchy, kids: seq<Run>, b: Stmt, c: Expr, hs: seq<Stmt>) {
    forall k :: 0 <= k < |kids| ==>
      Valid(h, kids[k], None) && ((kids[k].at == b && CanBe(c, true)) || kids[k].at in hs)
  }

  lemma {:induction false} MoreKids(h: Hierarchy, kids: seq<Run>, b: Stmt, c: Expr, hs: seq<Stmt>)
    requires kids != [] && LoopKids(h, kids[..1], b, c, hs) && LoopKids(h, kids[1..], b, c, hs)
    ensures LoopKids(h, kids, b, c, hs)
  {
    assert kids[..1][0] == kids[0];
    assert forall k :: 0 < k < |kids| ==> kids[k] == kids[1..][k - 1];
  }

  lemma {:induction false} WhileKids(h: Hierarchy, kids: seq<Run>, b: Stmt, c: Expr, update: seq<Stmt>,
                                     owner: Option<string>, o: Outcome)
    requires ValidWhile(h, kids, b, c, update, owner, o)
    ensures LoopKids(h, kids, b, c, update)
    decreases kids, 1
  {
    hide Valid;
    if kids != [] && Repeats(kids[0].out, owner) {
      UpdateKids(h, kids[1..], b, c, update, update, owner, o);
      MoreKids(h, kids, b, c, update);
    }
  }

  lemma {:induction false} UpdateKids(h: Hierarchy, kids: seq<Run>, b: Stmt, c: Expr, update: seq<Stmt>,
                                      rest: seq<Stmt>, owner: Option<string>, o: Outcome)
    requires ValidUpdate(h, kids, b, c, update, rest, owner, o) && forall u :: u in rest ==> u in update
    ensures LoopKids(h, kids, b, c, update)
    decreases kids, 2 + |rest|
  {
    hide Valid;
    if rest == [] {
      WhileKids(h, kids, b, c, update, owner, o);
    } else if kids != [] && kids[0].out.Normal? {
      UpdateKids(h, kids[1..], b, c, update, rest[1..], owner, o);
      MoreKids(h, kids, b, c, update);
    }
  }

  lemma {:induction false} InitKids(h: Hierarchy, kids: seq<Run>, init: seq<Stmt>, end: Option<Expr>, update: seq<Stmt>,
                                    b: Stmt, owner: Option<string>, o: Outcome)
    requires ValidFor(h, kids, init, end, update, b, owner, o)
    ensures LoopKids(h, kids, b, ForCondition(end), init + update)
    decreases |init|
  {
    hide Valid, ValidWhile;
    if init == [] {
      WhileKids(h, kids, b, ForCondition(end), update, owner, o);
    } else if kids != [] && kids[0].out.Normal? {
      InitKids(h, kids[1..], init[1..], end, update, b, owner, o);
      assert forall s :: s in init[1..] + update ==> s in init + update;
      MoreKids(h, kids, b, ForCondition(end), init + update);
    }
  }

  lemma {:induction false} DoKids(h: Hierarchy, kids: seq<Run>, b: Stmt, c: Expr, owner: Option<string>, o: Outcome)
    requires ValidDo(h, kids, b, c, owner, o)
    ensures LoopKids(h, kids, b, Expr([], None), [])
    decreases kids
  {
    hide Valid;
    if |kids| > 1 {
      DoKids(h, kids[1..], b, c, owner, o);
      MoreKids(h, kids, b, Expr([], None), []);
    }
  }

  /** The reports of a loop are those of its body, which is entered if the condition c allows it. */
  ghost predicate OnlyBody(s: Stmt, c: Expr, env: Env)
    requires IsLoop(s) && env.level > 0
  {
    var f, fb := Analyze(s, true, env), Analyze(s.body, true, EnterLoop(s.body.id, env));
    RejectsIn(f, Ids(s.body)) && (CanBe(c, true) ==> fb.errs <= f.errs && Inherits(f, fb, Ids(s.body)))
  }

  lemma {:induction false} BodyOnly(s: Stmt, c: Expr, env: Env)
    requires s.While? || s.Foreach? || s.Do?
    requires env.level > 0 && (s.While? ==> c == s.cond)
    ensures OnlyBody(s, c, env)
  {
    hide Analyze;
    var r := s.While? ==> CanBe(s.cond, true);
    BodyReports(s, true, env);
    RejectsInside(s.body, r, EnterLoop(s.body.id, env));
  }

  lemma {:induction false} ForAnalyzed(s: Stmt, env: Env)
    requires s.For? && env.level > 0
    ensures Analyze(s, true, env) == AnalyzeFor(s, true, env)
  {
    hide AnalyzeFor, AnalyzeHeaders, AnalyzeLoop, Eval;
  }

  lemma {:induction false} ForReports(s: Stmt, env: Env)
    requires s.For? && env.level > 0
    ensures var c := ForCondition(s.end);
            Analyze(s, true, env).errs ==
            AnalyzeHeaders(s.update, env).errs + AnalyzeHeaders(s.init, env).errs + Eval(s.id, c.throws, env).errs
            + Analyze(s.body, CanBe(c, true), EnterLoop(s.body.id, env)).errs
            + If1(!CanBe(c, true), UnreachableStatement(s.body.id))
  {
    hide Analyze, AnalyzeHeaders, AnalyzeLoop, Eval;
    ForAnalyzed(s, env);
    var c := ForCondition(s.end);
    var head := AnalyzeHeaders(s.init, env).Then(Eval(s.id, c.throws, env));
    LoopReports(s.id, head, s.body, true, CanBe(c, true), true && CanBe(c, false), env);
  }

  lemma {:induction false} ForBodyOnly(s: Stmt, env: Env)
    requires s.For? && Shape(s) && env.level > 0
    ensures OnlyBody(s, ForCondition(s.end), env)
  {
    hide Analyze, AnalyzeHeaders, Eval, NoClause;
    var c, inner := ForCondition(s.end), EnterLoop(s.body.id, env);
    HeadersClean(s.init, env);
    HeadersClean(s.update, env);
    EvalClean(s.id, c.throws, env);
    BodyUnreachable(s.body.id);
    ForReports(s, env);
    var before :=
      AnalyzeHeaders(s.update, env).errs + AnalyzeHeaders(s.init, env).errs + Eval(s.id, c.throws, env).errs;
    NoneOfThree(AnalyzeHeaders(s.update, env).errs, AnalyzeHeaders(s.init, env).errs, Eval(s.id, c.throws, env).errs);
    RejectsInside(s.body, CanBe(c, true), inner);
    OnlyFrom(Analyze(s, true, env), before, Analyze(s.body, CanBe(c, true), inner),
             If1(!CanBe(c, true), UnreachableStatement(s.body.id)));
  }

  lemma {:induction false} NoneOfThree(a: set<Error>, b: set<Error>, c: set<Error>)
    requires NoClause(a) && NoClause(b) && NoClause(c)
    ensures NoClause(a + b + c)
  {
  }

  lemma {:induction false} HeadersClean(ss: seq<Stmt>, env: Env)
    requires env.level > 0 && forall i :: 0 <= i < |ss| ==> IsHeader(ss[i])
    ensures NoClause(AnalyzeHeaders(ss, env).errs)
  {
    if ss != [] { HeadersClean(ss[1..], env); }
  }

  lemma {:induction false} ClearFor(q: Run, owner: Option<string>, env: Env)
    requires Stands(q, owner, env) && q.at.For?
    requires LoopKids(env.h, q.kids, q.at.body, ForCondition(q.at.end), q.at.init + q.at.update)
    ensures Clear(q, Analyze(q.at, true, env), Ids(q.at))
    decreases q, 2
  {
    var hs := q.at.init + q.at.update;
    forall u | u in hs ensures IsHeader(u) && u.id in Ids(q.at) && u.id !in Ids(q.at.body) {
      if u in q.at.init { InIdsOf(q.at.init, u); } else { InIdsOf(q.at.update, u); }
    }
    ForBodyOnly(q.at, env);
    ClearRounds(q, owner, env, ForCondition(q.at.end), hs);
  }

  lemma {:induction false} InIdsOf(ss: seq<Stmt>, u: Stmt)
    requires u in ss
    ensures u.id in IdsOf(ss)
  {
    if u != ss[0] { InIdsOf(ss[1..], u); }
  }

  lemma {:induction false} ClearLoop(q: Run, owner: Option<string>, env: Env, c: Expr, hs: seq<Stmt>)
    requires Stands(q, owner, env) && hs == [] && (q.at.While? || q.at.Foreach? || q.at.Do?)
    requires LoopKids(env.h, q.kids, q.at.body, c, hs) && (q.at.While? ==> c == q.at.cond)
    ensures Clear(q, Analyze(q.at, true, env), Ids(q.at))
    decreases q, 2
  {
    BodyOnly(q.at, c, env);
    ClearRounds(q, owner, env, c, hs);
  }

  lemma {:induction false} ClearRounds(q: Run, owner: Option<string>, env: Env, c: Expr, hs: seq<Stmt>)
    requires Stands(q, owner, env) && IsLoop(q.at) && OnlyBody(q.at, c, env)
    requires LoopKids(env.h, q.kids, q.at.body, c, hs)
    requires forall u :: u in hs ==> IsHeader(u) && u.id in Ids(q.at) && u.id !in Ids(q.at.body)
    ensures Clear(q, Analyze(q.at, true, env), Ids(q.at))
    decreases q, 1
  {
    var b, inner, f := q.at.body, EnterLoop(q.at.body.id, env), Analyze(q.at, true, env);
    assert Unique(b) && Shape(b) && b.Block? && q.at.id !in Ids(b) && Ids(b) <= Ids(q.at);
    hide Analyze;
    hide Ids;
    hide Shape;
    hide Unique;
    forall k | 0 <= k < |q.kids| ensures Clear(q.kids[k], f, Ids(q.at)) {
      if q.kids[k].at == b && CanBe(c, true) {
        ClearRun(q.kids[k], None, inner);
        ClearWider(q.kids[k], Analyze(b, true, inner), Ids(b), f, Ids(q.at));
      } else {
        ClearNode(q.kids[k], f, Ids(q.at));
      }
    }
    ClearNode(q, f, Ids(q.at));
  }

  // ---- Switch

  lemma {:induction false} KidsInOrder(h: Hierarchy, kids: seq<Run>, ss: seq<Stmt>, owner: Option<string>, o: Outcome)
    requires ValidSeq(h, kids, ss, owner, o)
    ensures |kids| <= |ss| && forall k :: 0 <= k < |kids| ==> kids[k].at == ss[k] && Valid(h, kids[k], owner)
    decreases kids
  {
    hide Valid;
    if kids != [] && kids[0].out.Normal? {
      KidsInOrder(h, kids[1..], ss[1..], owner, o);
      assert forall k :: 0 < k < |kids| ==> kids[k] == kids[1..][k - 1] && ss[k] == ss[1..][k - 1];
    }
  }

  lemma {:induction false} FirstGroupOwns(gs: seq<Stmt>, last: bool, env: Env)
    requires gs != [] && gs[0].Block? && env.level > 0 && UniqueAll(gs)
    ensures var f, f0 := AnalyzeGroups(gs, true, last, env),
            AnalyzeSeq(gs[0].stmts, true, env.(level := env.level + 1));
            var rest := AnalyzeGroups(gs[1..], true, f0.completes, env);
            && f0.errs <= f.errs && Inherits(f, f0, Ids(gs[0]))
            && rest.errs <= f.errs && Inherits(f, rest, IdsOf(gs[1..]))
  {
    hide Analyze;
    hide AnalyzeSeq;
    var g, inner := gs[0], env.(level := env.level + 1);
    var f, f0 := AnalyzeGroups(gs, true, last, env), AnalyzeSeq(g.stmts, true, inner);
    var rest := AnalyzeGroups(gs[1..], true, f0.completes, env);
    SeqRejects(g.stmts, true, inner);
    GroupsReject(gs[1..], true, f0.completes, env);
    assert f.errs == f0.errs + GapErrors(g.stmts, true, true, inner) + rest.errs;
    assert IdsOf(g.stmts) <= Ids(g) && Ids(g) !! IdsOf(gs[1..]);
    hide AnalyzeGroups;
    hide Ids;
    hide Unique;
    hide FirstUnreachable;
  }

  /** Of the nodes of group j, only that group's own reports speak. */
  lemma {:induction false} GroupOwns(gs: seq<Stmt>, j: nat, last: bool, env: Env)
    requires j < |gs| && env.level > 0 && UniqueAll(gs) && forall i :: 0 <= i < |gs| ==> gs[i].Block?
    ensures var f, fj := AnalyzeGroups(gs, true, last, env),
            AnalyzeSeq(gs[j].stmts, true, env.(level := env.level + 1));
            && fj.errs <= f.errs && Inherits(f, fj, Ids(gs[j]))
            && Unique(gs[j]) && Ids(gs[j]) <= IdsOf(gs)
    decreases j
  {
    hide AnalyzeGroups, AnalyzeSeq, Ids, Unique;
    FirstGroupOwns(gs, last, env);
    if j > 0 {
      GroupOwns(gs[1..], j - 1, AnalyzeSeq(gs[0].stmts, true, env.(level := env.level + 1)).completes, env);
      assert gs[1..][j - 1] == gs[j];
    }
  }

  lemma {:induction false} ClearGroup(q: Run, env: Env)
    requires IsPlain(q.at) && Shape(q.at) && Unique(q.at) && Valid(env.h, q, None) && env.abrupt <= env.level
    requires NamesResolve(AnalyzeSeq(q.at.stmts, true, env.(level := env.level + 1)).errs)
    ensures Clear(q, AnalyzeSeq(q.at.stmts, true, env.(level := env.level + 1)), Ids(q.at))
    decreases q, 1
  {
    hide Analyze;
    var inner := env.(level := env.level + 1);
    var o :| ValidSeq(env.h, q.kids, q.at.stmts, None, o) && q.out == LeaveBlock(o, None);
    ClearSeq(q.kids, q.at.stmts, None, o, inner);
    SeqRejects(q.at.stmts, true, inner);
    ClearNode(q, AnalyzeSeq(q.at.stmts, true, inner), Ids(q.at));
  }

  lemma {:induction false} SwitchParts(s: Stmt, env: Env)
    requires s.Switch? && env.level > 0 && Unique(s)
    ensures SameRejects(Analyze(s, true, env), AnalyzeGroups(s.groups, true, false, EnterSwitch(s.blockId, env)))
    ensures UniqueAll(s.groups) && s.id !in IdsOf(s.groups) && IdsOf(s.groups) <= Ids(s) && s.id in Ids(s)
  {
  }

  lemma {:induction false} ClearSwitch(q: Run, owner: Option<string>, env: Env)
    requires Stands(q, owner, env) && q.at.Switch?
    ensures Clear(q, Analyze(q.at, true, env), Ids(q.at))
    decreases q, 2
  {
    hide Analyze, AnalyzeGroups, AnalyzeSeq, Unique, Ids;
    var Switch(id, bid, e, gs, hasDefault) := q.at;
    var inner, f := EnterSwitch(bid, env), Analyze(q.at, true, env);
    SwitchParts(q.at, env);
    GroupsReject(gs, true, false, inner);
    if q.kids != [] {
      var o :| ValidSeq(env.h, q.kids, gs[q.pick..], None, o) && q.out == LeaveLoop(o);
      KidsInOrder(env.h, q.kids, gs[q.pick..], None, o);
      forall k | 0 <= k < |q.kids| ensures Clear(q.kids[k], f, Ids(q.at)) {
        var g := gs[q.pick + k];
        assert q.kids[k].at == g && Shape(g);
        GroupOwns(gs, q.pick + k, false, inner);
        ClearGroup(q.kids[k], inner);
        ClearWider(q.kids[k], AnalyzeSeq(g.stmts, true, inner.(level := inner.level + 1)), Ids(g), f, Ids(q.at));
      }
    }
    ClearNode(q, f, Ids(q.at));
  }

  // ---- Try

  /** Of the nodes of a clause that was processed, only its own reports speak. */
  lemma {:induction false} ClauseOwns(cs: seq<Catch>, before: seq<Class>, found: set<Class>, env: Env, k: nat)
    requires env.level > 0 && UniqueCatches(cs) && k < |cs| && CatchReachable(env.h, found, cs[k].cls)
    requires !Covers(env.h, before + CatchTypes(cs)[..k], cs[k].cls)
    ensures var f, fk := AnalyzeCatches(cs, before, found, env), Analyze(cs[k].body, true, env);
            && fk.errs <= f.errs && Inherits(f, fk, Ids(cs[k].body))
            && Unique(cs[k].body) && Ids(cs[k].body) <= IdsOfCatches(cs)
    decreases k
  {
    hide Analyze, Ids, Unique;
    var c, rest := cs[0], before + [cs[0].cls];
    assert c.body < c;
    OwnId(c.body);
    RejectsInside(c.body, true, env);
    CatchesReject(cs[1..], rest, found, env);
    if k == 0 {
      assert before + CatchTypes(cs)[..0] == before;
    } else {
      assert rest + CatchTypes(cs[1..])[..k - 1] == before + CatchTypes(cs)[..k];
      ClauseOwns(cs[1..], rest, found, env, k - 1);
    }
  }

  /** The reports of a try statement are those of its parts, each about its own nodes. */
  ghost predicate TryOwns(s: Stmt, env: Env)
    requires s.Try? && env.level > 0
  {
    var f, fb := Analyze(s, true, env), Analyze(s.body, true, BodyEnv(s, env));
    var fc := AnalyzeCatches(s.catches, [], Found(s, env), ClauseEnv(s, env));
    && !Rejected(f, s.id)
    && fb.errs <= f.errs && Inherits(f, fb, Ids(s.body))
    && fc.errs <= f.errs && Inherits(f, fc, IdsOfCatches(s.catches))
    && (s.fin.Some? ==>
          Analyze(s.fin.value, true, env).errs <= f.errs &&
          Inherits(f, Analyze(s.fin.value, true, env), Ids(s.fin.value)))
  }

  lemma {:induction false} TryReports(s: Stmt, env: Env)
    requires s.Try? && env.level > 0
    ensures Analyze(s, true, env).errs ==
            (if s.fin.Some? then Analyze(s.fin.value, true, env).errs else {})
            + Analyze(s.body, true, BodyEnv(s, env)).errs
            + AnalyzeCatches(s.catches, [], Found(s, env), ClauseEnv(s, env)).errs
  {
    assert Analyze(s, true, env) == AnalyzeTry(s, true, env);
    hide Analyze;
    hide AnalyzeCatches;
    assert !Abrupt(s.fin, env) <==> (if s.fin.Some? then Analyze(s.fin.value, true, env).completes else true);
  }

  lemma {:induction false} TryPartsOwn(s: Stmt, env: Env)
    requires s.Try? && env.level > 0 && Unique(s)
    ensures TryOwns(s, env)
  {
    hide Analyze;
    hide AnalyzeCatches;
    TryReports(s, env);
    RejectsInside(s.body, true, BodyEnv(s, env));
    CatchesReject(s.catches, [], Found(s, env), ClauseEnv(s, env));
    if s.fin.Some? { RejectsInside(s.fin.value, true, env); }
    UniqueParts(s);
    hide Ids;
    hide Unique;
    hide Found;
    hide BodyEnv;
    hide ClauseEnv;
  }

  lemma {:induction false} ClearTry(q: Run, owner: Option<string>, env: Env)
    requires Stands(q, owner, env) && q.at.Try?
    ensures Clear(q, Analyze(q.at, true, env), Ids(q.at))
    decreases q, 2
  {
    hide Analyze, AnalyzeCatches, Unique, Ids, Clear, Rejected;
    var f := Analyze(q.at, true, env);
    TryPartsOwn(q.at, env);
    UniqueParts(q.at);
    if q.kids != [] {
      ClearTryBody(q, owner, env);
      if NoneCatches(env.h, q.at.catches, q.kids[0].out) {
        ClearFinally(q, 1, q.kids[0].out, owner, env);
        RestClear(q.kids, 1, f, Ids(q.at));
      } else if |q.kids| > 1 {
        ClearClause(q, owner, env);
        ClearFinally(q, 2, q.kids[1].out, owner, env);
        RestClear(q.kids, 2, f, Ids(q.at));
      }
    }
    ClearNode(q, f, Ids(q.at));
  }

  lemma {:induction false} RestClear(kids: seq<Run>, n: nat, f: Fx, ids: set<Id>)
    requires n <= |kids| && AllClear(kids[n..], f, ids)
    ensures forall k :: n <= k < |kids| ==> Clear(kids[k], f, ids)
  {
    hide Clear;
    assert forall k :: n <= k < |kids| ==> kids[k] == kids[n..][k - n];
  }

  lemma {:induction false} ClearTryBody(q: Run, owner: Option<string>, env: Env)
    requires Stands(q, owner, env) && q.at.Try? && TryOwns(q.at, env) && q.kids != []
    ensures Clear(q.kids[0], Analyze(q.at, true, env), Ids(q.at))
    decreases q, 1
  {
    hide Analyze, AnalyzeCatches, Unique, Ids, Shape;
    UniqueParts(q.at);
    ShapeParts(q.at);
    ClearRun(q.kids[0], None, BodyEnv(q.at, env));
    ClearWider(q.kids[0], Analyze(q.at.body, true, BodyEnv(q.at, env)), Ids(q.at.body), Analyze(q.at, true, env),
               Ids(q.at));
  }

  lemma {:induction false} ClearClause(q: Run, owner: Option<string>, env: Env)
    requires Stands(q, owner, env) && q.at.Try? && TryOwns(q.at, env) && |q.kids| > 1
    requires TakenBy(env.h, q.at.catches, q.kids[0].out, q.pick)
    requires q.kids[1].at == q.at.catches[q.pick].body && Valid(env.h, q.kids[1], None)
    ensures Clear(q.kids[1], Analyze(q.at, true, env), Ids(q.at))
    decreases q, 1
  {
    hide Analyze, AnalyzeCatches, Unique, Ids, Valid, Shape;
    UniqueParts(q.at);
    ShapeParts(q.at);
    var cs, found, inner, k := q.at.catches, Found(q.at, env), ClauseEnv(q.at, env), q.pick;
    ReportedClauseNeverEntered(q, owner, env);
    assert [] + CatchTypes(cs)[..k] == CatchTypes(cs)[..k];
    ClauseOwns(cs, [], found, inner, k);
    ClearRun(q.kids[1], None, inner);
    ClearWider(q.kids[1], Analyze(cs[k].body, true, inner), Ids(cs[k].body), Analyze(q.at, true, env), Ids(q.at));
  }

  lemma {:induction false} ClearFinally(q: Run, n: nat, before: Outcome, owner: Option<string>, env: Env)
    requires Stands(q, owner, env) && q.at.Try? && TryOwns(q.at, env) && n <= |q.kids|
    requires ValidFinally(env.h, q.kids[n..], q.at.fin, before, q.out)
    ensures AllClear(q.kids[n..], Analyze(q.at, true, env), Ids(q.at))
    decreases q, 1
  {
    hide Analyze, AnalyzeCatches, Unique, Ids, Valid, Shape;
    UniqueParts(q.at);
    ShapeParts(q.at);
    if n < |q.kids| {
      ClearRun(q.kids[n], None, env);
      ClearWider(q.kids[n], Analyze(q.at.fin.value, true, env), Ids(q.at.fin.value), Analyze(q.at, true, env),
                 Ids(q.at));
    }
  }

  // ---- Method bodies

  /** No run of a method body executes a statement that is the block of a reported catch clause. */
  lemma {:induction false} ReportedClausesNeverEntered(body: Stmt, isVoid: bool, h: Hierarchy, ctx: Context, r: Run)
    requires IsPlain(body) && Shape(body) && Unique(body) && r.at == body && Valid(h, r, None)
    requires NamesResolve(AnalyzeBody(body, isVoid, h, ctx).errs)
    ensures forall q :: Within(q, r) ==>
              && UnreachableCatch(q.at.id) !in AnalyzeBody(body, isVoid, h, ctx).errs
              && BlockedCatch(q.at.id) !in AnalyzeBody(body, isVoid, h, ctx).errs
  {
    hide Analyze, AnalyzeBlock;
    var Block(id, tag, ss) := body;
    var f, inner := AnalyzeBody(body, isVoid, h, ctx), EnterBlock(id, tag, ss, MethodEnv(h, ctx));
    var fs := AnalyzeSeq(ss, true, inner);
    BlockRejects(id, tag, ss, true, MethodEnv(h, ctx));
    var o :| ValidSeq(h, r.kids, ss, tag, o) && r.out == LeaveBlock(o, tag);
    ClearSeq(r.kids, ss, tag, o, inner);
    SeqRejects(ss, true, inner);
    forall k | 0 <= k < |r.kids| ensures Clear(r.kids[k], f, Ids(body)) {
      ClearWider(r.kids[k], fs, IdsOf(ss), f, Ids(body));
    }
    ClearNode(r, f, Ids(body));
  }
}
