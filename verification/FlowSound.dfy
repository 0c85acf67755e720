/** The analysis is sound for every run: reachability, exceptions and catch clauses together,
    because each of the three needs the other two. */
module FlowSound {
  import opened Classes
  import opened JavaAst
  import opened Options
  import opened Runs
  import opened Flow

  /** No error about labels and jump targets. */
  ghost predicate NamesResolve(errs: set<Error>) {
    forall e :: e in errs ==> !e.IsNaming()
  }

  ghost predicate NoneUncaught(errs: set<Error>) {
    forall e :: e in errs ==> !e.UncaughtException?
  }

  /** Where s stands: below an abrupt finally clause every open block has a higher level, and the
      label of the block around a loop, if any, is known to lead to that loop. */
  ghost predicate Placed(s: Stmt, env: Env, owner: Option<string>) {
    && 0 < env.level
    && (env.abrupt < env.level || (IsPlain(s) && env.abrupt == env.level))
    && (IsLoop(s) ==>
          && env.abrupt + 1 < env.level
          && (owner.Some? ==>
                && owner.value in env.labels
                && env.labels[owner.value] == LabelInfo(Target(env.top, env.level - 1), Some(s.body.id))))
  }

  /** A jump out of a statement was recorded at its target. */
  ghost predicate Lands(t: Option<Target>, env: Env, done: set<Id>) {
    t.Some? && env.abrupt < t.value.level ==> t.value.id in done
  }

  ghost predicate Collected(h: Hierarchy, x: Class, exc: set<Class>) {
    !Checked(h, x) || exists c :: c in exc && IsSubclass(h, x, c)
  }

  /** What the effects of a statement say about how one of its runs ends. */
  ghost predicate Predicts(f: Fx, o: Outcome, env: Env) {
    match o
    case Normal => f.completes
    case BreakOut(tag) => Lands(BreakTarget(tag, env), env, f.done)
    case ContinueOut(tag) => Lands(ContinueTarget(tag, env), env, f.done)
    case ThrowOut(x) => Collected(env.h, x, f.exc) && (NoneUncaught(f.errs) ==> !Uncaught(env, x))
    case ReturnOut => true
    case Suspended => true
  }

  /** Everything executed in q is marked reachable, with the block of a switch, and completable if it
      completed; for headers, which stay unmarked, aside. */
  ghost predicate Marked(q: Run, reach: set<Id>, done: set<Id>, headers: set<Id>)
    decreases q
  {
    && (q.at.id in headers || (q.at.id in reach && (q.out.Normal? ==> q.at.id in done)))
    && (q.at.Switch? ==> q.at.blockId in reach)
    && forall i :: 0 <= i < |q.kids| ==> Marked(q.kids[i], reach, done, headers)
  }

  ghost predicate AllMarked(kids: seq<Run>, reach: set<Id>, done: set<Id>, headers: set<Id>) {
    forall i :: 0 <= i < |kids| ==> Marked(kids[i], reach, done, headers)
  }

  /** The part of the final marks a statement with effects f accounts for. */
  ghost predicate Part(f: Fx, reach: set<Id>, done: set<Id>) {
    f.reach <= reach && f.done <= done && NamesResolve(f.errs)
  }

  ghost predicate Below(f: Fx, g: Fx) {
    f.reach <= g.reach && f.done <= g.done && f.exc <= g.exc && f.errs <= g.errs
  }

  lemma {:induction false} PredictsGrows(f: Fx, g: Fx, o: Outcome, env: Env)
    requires Predicts(f, o, env) && Below(f, g) && (o.Normal? ==> g.completes)
    ensures Predicts(g, o, env)
  {
    if o.ThrowOut? && Checked(env.h, o.cls) {
      var c :| c in f.exc && IsSubclass(env.h, o.cls, c);
      assert c in g.exc;
    }
  }

  // ---- Exceptions

  lemma {:induction false} CoversDown(h: Hierarchy, cs: seq<Class>, x: Class, c: Class)
    requires IsSubclass(h, x, c) && Covers(h, cs, c)
    ensures Covers(h, cs, x)
  {
    var k :| 0 <= k < |cs| && IsSubclass(h, c, cs[k]);
    SubclassTransitive(h, x, c, cs[k]);
  }

  lemma {:induction false} CaughtDown(h: Hierarchy, tries: seq<Frame>, x: Class, c: Class)
    requires IsSubclass(h, x, c) && CaughtByTries(h, tries, c)
    ensures CaughtByTries(h, tries, x)
    decreases |tries|
  {
    var f := tries[|tries| - 1];
    if Covers(h, f.catching, c) {
      CoversDown(h, f.catching, x, c);
    } else if !f.abrupt {
      CaughtDown(h, tries[..|tries| - 1], x, c);
    }
  }

  /** A subclass of an exception that is not uncaught is not uncaught. */
  lemma {:induction false} UncaughtUp(env: Env, x: Class, c: Class)
    requires IsSubclass(env.h, x, c) && !Uncaught(env, c)
    ensures !Uncaught(env, x)
  {
    if Checked(env.h, x) {
      CheckedUpward(env.h, x, c);
      if CaughtByTries(env.h, env.tries, c) {
        CaughtDown(env.h, env.tries, x, c);
      } else {
        match env.ctx
        case InMethod(throws) => CoversDown(env.h, throws, x, c);
        case InInitializer(ctors) =>
          forall k | 0 <= k < |ctors| ensures Covers(env.h, ctors[k], x) {
            CoversDown(env.h, ctors[k], x, c);
          }
      }
    }
  }

  /** An expression that throws does as its declared exceptions predict. */
  lemma {:induction false} EvalPredicts(id: Id, throws: seq<Class>, o: Outcome, f: Fx, env: Env)
    requires o.Suspended? || (o.ThrowOut? && MayThrow(env.h, throws, o.cls))
    requires Below(Eval(id, throws, env), f)
    ensures Predicts(f, o, env)
  {
    if o.ThrowOut? && Checked(env.h, o.cls) {
      var c :| c in throws && IsSubclass(env.h, o.cls, c);
      assert c in Eval(id, throws, env).exc;
      if NoneUncaught(f.errs) {
        assert UncaughtException(id, c) !in f.errs;
        UncaughtUp(env, o.cls, c);
      }
    }
  }

  // ---- Statements

  ghost predicate Setup(q: Run, owner: Option<string>, env: Env, reach: set<Id>, done: set<Id>, headers: set<Id>) {
    && Shape(q.at) && Valid(env.h, q, owner) && Placed(q.at, env, owner)
    && Part(Analyze(q.at, true, env), reach, done) && Headers(q.at) <= headers
  }

  ghost predicate Holds(q: Run, env: Env, reach: set<Id>, done: set<Id>, headers: set<Id>)
    requires env.level > 0
  {
    Predicts(Analyze(q.at, true, env), q.out, env) && Marked(q, reach, done, headers)
  }

  lemma {:induction false} Sound(q: Run, owner: Option<string>, env: Env, reach: set<Id>, done: set<Id>,
                                 headers: set<Id>)
    requires Setup(q, owner, env, reach, done, headers)
    ensures Holds(q, env, reach, done, headers)
    decreases q, 3
  {
    match q.at
    case Simple(_, _) => SoundLeaf(q, owner, env, reach, done, headers);
    case Local(_, _, _) => SoundLeaf(q, owner, env, reach, done, headers);
    case Return(_, _) => SoundLeaf(q, owner, env, reach, done, headers);
    case Throw(_, _, _) => SoundLeaf(q, owner, env, reach, done, headers);
    case Break(_, _) => SoundLeaf(q, owner, env, reach, done, headers);
    case Continue(_, _) => SoundLeaf(q, owner, env, reach, done, headers);
    case Block(_, _, _) => SoundBlock(q, owner, env, reach, done, headers);
    case If(_, _, _, _) => SoundIf(q, owner, env, reach, done, headers);
    case While(_, _, _) => SoundWhile(q, owner, env, reach, done, headers);
    case For(_, _, _, _, _) => SoundFor(q, owner, env, reach, done, headers);
    case Foreach(_, _, _, _, _) => SoundForeach(q, owner, env, reach, done, headers);
    case Do(_, _, _) => SoundDo(q, owner, env, reach, done, headers);
    case Switch(_, _, _, _, _) => SoundSwitch(q, owner, env, reach, done, headers);
    case Try(_, _, _, _) => SoundTry(q, owner, env, reach, done, headers);
    case Sync(_, _, _) => SoundSync(q, owner, env, reach, done, headers);
  }

  lemma {:induction false} SoundLeaf(q: Run, owner: Option<string>, env: Env, reach: set<Id>, done: set<Id>,
                                     headers: set<Id>)
    requires Setup(q, owner, env, reach, done, headers) && IsLeaf(q.at)
    ensures Holds(q, env, reach, done, headers)
  {
    var f := Analyze(q.at, true, env);
    match q.at
    case Simple(id, e) => if !q.out.Normal? { EvalPredicts(id, e.throws, q.out, f, env); }
    case Local(id, _, e) => if !q.out.Normal? { EvalPredicts(id, e.throws, q.out, f, env); }
    case Return(id, e) => if !q.out.ReturnOut? { EvalPredicts(id, e.throws, q.out, f, env); }
    case Throw(id, e, cls) =>
      assert forall t :: t in e.throws || t in [cls] ==> t in e.throws + [cls];
      EvalPredicts(id, e.throws + [cls], q.out, f, env);
    case Break(_, _) =>
    case Continue(_, _) =>
  }

  lemma {:induction false} SoundSync(q: Run, owner: Option<string>, env: Env, reach: set<Id>, done: set<Id>,
                                     headers: set<Id>)
    requires Setup(q, owner, env, reach, done, headers) && q.at.Sync?
    ensures Holds(q, env, reach, done, headers)
    decreases q, 2
  {
    var f, fb := Analyze(q.at, true, env), Analyze(q.at.body, true, env);
    if q.kids == [] {
      EvalPredicts(q.at.id, q.at.e.throws, q.out, f, env);
    } else {
      Sound(q.kids[0], None, env, reach, done, headers);
      PredictsGrows(fb, f, q.out, env);
    }
  }

  lemma {:induction false} IfIncludes(s: Stmt, env: Env)
    requires s.If? && env.level > 0
    ensures var f, ft := Analyze(s, true, env), Analyze(s.thn, true, env);
            && Below(Eval(s.id, s.cond.throws, env), f) && Below(ft, f) && (ft.completes || s.els.None? ==> f.completes)
            && s.id in f.reach && (f.completes ==> s.id in f.done)
    ensures s.els.Some? ==>
              var f, fe := Analyze(s, true, env), Analyze(s.els.value, true, env);
              Below(fe, f) && (fe.completes ==> f.completes)
  {
    assert Analyze(s, true, env) == AnalyzeIf(s, true, env);
    hide Analyze;
  }

  lemma {:induction false} SoundIf(q: Run, owner: Option<string>, env: Env, reach: set<Id>, done: set<Id>,
                                   headers: set<Id>)
    requires Setup(q, owner, env, reach, done, headers) && q.at.If?
    ensures Holds(q, env, reach, done, headers)
    decreases q, 2
  {
    hide Analyze, AnalyzeIf, Eval;
    var If(id, c, t, e) := q.at;
    var f := Analyze(q.at, true, env);
    IfIncludes(q.at, env);
    if q.kids == [] {
      if !q.out.Normal? { EvalPredicts(id, c.throws, q.out, f, env); }
    } else {
      Sound(q.kids[0], None, env, reach, done, headers);
      PredictsGrows(Analyze(q.kids[0].at, true, env), f, q.out, env);
    }
  }

  lemma {:induction false} SeqParts(ss: seq<Stmt>, env: Env)
    requires ss != [] && env.level > 0
    ensures var f, f0 := AnalyzeSeq(ss, true, env), Analyze(ss[0], true, env);
            && Below(f0, f) && Below(AnalyzeSeq(ss[1..], f0.completes, env), f)
            && AnalyzeSeq(ss[1..], f0.completes, env).completes == f.completes
  {
  }

  lemma {:induction false} MarkedCons(kids: seq<Run>, reach: set<Id>, done: set<Id>, headers: set<Id>)
    requires kids != [] && Marked(kids[0], reach, done, headers) && AllMarked(kids[1..], reach, done, headers)
    ensures AllMarked(kids, reach, done, headers)
  {
    forall i | 0 < i < |kids| ensures Marked(kids[i], reach, done, headers) {
      assert kids[i] == kids[1..][i - 1];
    }
  }

  /** Statements in sequence. */
  lemma {:induction false} SoundSeq(kids: seq<Run>, ss: seq<Stmt>, owner: Option<string>, o: Outcome, env: Env,
                                    reach: set<Id>, done: set<Id>, headers: set<Id>)
    requires forall i :: 0 <= i < |ss| ==> Shape(ss[i]) && Placed(ss[i], env, owner)
    requires ValidSeq(env.h, kids, ss, owner, o) && env.level > 0
    requires Part(AnalyzeSeq(ss, true, env), reach, done) && HeadersOf(ss) <= headers
    ensures Predicts(AnalyzeSeq(ss, true, env), o, env) && AllMarked(kids, reach, done, headers)
    decreases kids, 2
  {
    hide Analyze, Valid;
    if kids != [] {
      var f := AnalyzeSeq(ss, true, env);
      SeqParts(ss, env);
      Sound(kids[0], owner, env, reach, done, headers);
      if kids[0].out.Normal? {
        SoundSeq(kids[1..], ss[1..], owner, o, env, reach, done, headers);
        PredictsGrows(AnalyzeSeq(ss[1..], true, env), f, o, env);
        MarkedCons(kids, reach, done, headers);
      } else {
        PredictsGrows(Analyze(ss[0], true, env), f, o, env);
      }
    }
  }

  lemma {:induction false} SoundBlock(q: Run, owner: Option<string>, env: Env, reach: set<Id>, done: set<Id>,
                                      headers: set<Id>)
    requires Setup(q, owner, env, reach, done, headers) && q.at.Block?
    ensures Holds(q, env, reach, done, headers)
    decreases q, 2
  {
    var Block(id, tag, ss) := q.at;
    var inner := EnterBlock(id, tag, ss, env);
    var f, fs := AnalyzeBlock(id, tag, ss, true, env), AnalyzeSeq(ss, true, inner);
    assert f == Analyze(q.at, true, env) && Below(fs, f);
    var o :| ValidSeq(env.h, q.kids, ss, tag, o) && q.out == LeaveBlock(o, tag);
    BlockPlaces(id, tag, ss, env, owner);
    SoundSeq(q.kids, ss, tag, o, inner, reach, done, headers);
    PredictsGrows(fs, f, o, inner);
    BlockCatches(id, tag, ss, o, f, env, owner);
  }

  /** The statements of a block stand as they should inside it. */
  lemma {:induction false} BlockPlaces(id: Id, tag: Option<string>, ss: seq<Stmt>, env: Env, owner: Option<string>)
    requires Shape(Block(id, tag, ss)) && Placed(Block(id, tag, ss), env, owner)
    requires NamesResolve(LabelErrors(id, tag, env))
    ensures forall i :: 0 <= i < |ss| ==> Placed(ss[i], EnterBlock(id, tag, ss, env), tag)
  {
    assert tag.Some? && tag.value in env.labels ==> DuplicateLabel(id) in LabelErrors(id, tag, env);
  }

  /** How the statements of a block end predicts how the block ends. */
  lemma {:induction false} BlockCatches(id: Id, tag: Option<string>, ss: seq<Stmt>, o: Outcome, f: Fx, env: Env,
                                        owner: Option<string>)
    requires Placed(Block(id, tag, ss), env, owner) && NamesResolve(LabelErrors(id, tag, env))
    requires Predicts(f, o, EnterBlock(id, tag, ss, env)) && (id in f.done ==> f.completes)
    ensures Predicts(f, LeaveBlock(o, tag), env)
  {
    assert tag.Some? && tag.value in env.labels ==> DuplicateLabel(id) in LabelErrors(id, tag, env);
  }

  // ---- Loops

  /** A for initialiser or update. */
  lemma {:induction false} SoundHeader(q: Run, owner: Option<string>, f: Fx, env: Env, reach: set<Id>, done: set<Id>,
                                       headers: set<Id>)
    requires IsHeader(q.at) && Valid(env.h, q, owner) && q.at.id in headers && env.level > 0
    requires Below(Analyze(q.at, false, env), f)
    ensures q.out.Normal? || Predicts(f, q.out, env)
    ensures Marked(q, reach, done, headers)
  {
    if !q.out.Normal? { EvalPredicts(q.at.id, q.at.e.throws, q.out, f, env); }
  }

  /** How the body of a loop ends predicts how the loop ends, unless it goes round again. */
  lemma {:induction false} LoopCatches(body: Id, o: Outcome, owner: Option<string>, fb: Fx, f: Fx, env: Env)
    requires env.level > 0 && env.abrupt + 1 < env.level
    requires Predicts(fb, o, EnterLoop(body, env)) && !Repeats(o, owner) && Below(fb, f)
    requires env.top in fb.done ==> f.completes
    ensures Predicts(f, LeaveLoop(o), env)
  {
    PredictsGrows(fb, f.(completes := true), o, EnterLoop(body, env));
  }

  /** The effects f of a loop cover those of its condition and body, and tell that it completes if
      the condition may fail or the block around it was marked. */
  ghost predicate LoopFx(f: Fx, id: Id, b: Stmt, c: Expr, env: Env)
    requires env.level > 0
  {
    && Below(Eval(id, c.throws, env), f)
    && (CanBe(c, false) ==> f.completes)
    && (CanBe(c, true) ==>
          && Below(Analyze(b, true, EnterLoop(b.id, env)), f)
          && (env.top in Analyze(b, true, EnterLoop(b.id, env)).done ==> f.completes))
  }

  ghost predicate HeadersIn(ss: seq<Stmt>, f: Fx, env: Env, headers: set<Id>)
    requires env.level > 0
  {
    forall i :: 0 <= i < |ss| ==>
      IsHeader(ss[i]) && ss[i].id in headers && Below(Analyze(ss[i], false, env), f)
  }

  lemma {:induction false} SoundRounds(kids: seq<Run>, b: Stmt, c: Expr, update: seq<Stmt>, owner: Option<string>,
                                       o: Outcome, id: Id, f: Fx, env: Env, reach: set<Id>, done: set<Id>,
                                       headers: set<Id>)
    requires b.Block? && Shape(b) && env.level > 0 && env.abrupt + 1 < env.level
    requires ValidWhile(env.h, kids, b, c, update, owner, o)
    requires LoopFx(f, id, b, c, env) && Part(f, reach, done) && Headers(b) <= headers
    requires HeadersIn(update, f, env, headers)
    ensures Predicts(f, o, env) && AllMarked(kids, reach, done, headers)
    decreases kids, 2
  {
    hide Analyze, Shape, Headers;
    if kids == [] {
      if !o.Normal? { EvalPredicts(id, c.throws, o, f, env); }
    } else {
      var inner := EnterLoop(b.id, env);
      Sound(kids[0], None, inner, reach, done, headers);
      if Repeats(kids[0].out, owner) {
        SoundUpdate(kids[1..], b, c, update, update, owner, o, id, f, env, reach, done, headers);
      } else {
        LoopCatches(b.id, kids[0].out, owner, Analyze(b, true, inner), f, env);
      }
    }
  }

  lemma {:induction false} SoundUpdate(kids: seq<Run>, b: Stmt, c: Expr, update: seq<Stmt>, rest: seq<Stmt>,
                                       owner: Option<string>, o: Outcome, id: Id, f: Fx, env: Env, reach: set<Id>,
                                       done: set<Id>, headers: set<Id>)
    requires b.Block? && Shape(b) && env.level > 0 && env.abrupt + 1 < env.level
    requires ValidUpdate(env.h, kids, b, c, update, rest, owner, o)
    requires LoopFx(f, id, b, c, env) && Part(f, reach, done) && Headers(b) <= headers
    requires HeadersIn(update, f, env, headers) && HeadersIn(rest, f, env, headers)
    ensures Predicts(f, o, env) && AllMarked(kids, reach, done, headers)
    decreases kids, 3 + |rest|
  {
    hide Analyze, Shape, Headers;
    if rest == [] {
      SoundRounds(kids, b, c, update, owner, o, id, f, env, reach, done, headers);
    } else if kids != [] {
      SoundHeader(kids[0], None, f, env, reach, done, headers);
      if kids[0].out.Normal? {
        SoundUpdate(kids[1..], b, c, update, rest[1..], owner, o, id, f, env, reach, done, headers);
      }
    }
  }

  lemma {:induction false} LoopParts(id: Id, head: Fx, b: Stmt, c: Expr, env: Env)
    requires env.level > 0 && Below(Eval(id, c.throws, env), head)
    ensures var f := AnalyzeLoop(id, head, b, true, CanBe(c, true), CanBe(c, false), env);
            && LoopFx(f, id, b, c, env) && Below(head, f)
            && id in f.reach && (f.completes ==> id in f.done)
  {
    hide Analyze;
  }

  lemma {:induction false} ForParts(s: Stmt, env: Env)
    requires s.For? && env.level > 0
    ensures var f := AnalyzeFor(s, true, env);
            && LoopFx(f, s.id, s.body, ForCondition(s.end), env)
            && Below(AnalyzeHeaders(s.init, env), f) && Below(AnalyzeHeaders(s.update, env), f)
            && s.id in f.reach && (f.completes ==> s.id in f.done)
  {
    hide Analyze, AnalyzeHeaders, AnalyzeLoop;
    var For(id, init, end, update, b) := s;
    var c := ForCondition(end);
    var fi, fu := AnalyzeHeaders(init, env), AnalyzeHeaders(update, env);
    var fe := fi.Then(Eval(id, c.throws, env));
    LoopParts(id, fe, b, c, env);
    assert AnalyzeFor(s, true, env) == fu.Then(AnalyzeLoop(id, fe, b, true, CanBe(c, true), CanBe(c, false), env));
    assert Below(fi, fe);
  }

  lemma {:induction false} SoundWhile(q: Run, owner: Option<string>, env: Env, reach: set<Id>, done: set<Id>,
                                      headers: set<Id>)
    requires Setup(q, owner, env, reach, done, headers) && q.at.While?
    ensures Holds(q, env, reach, done, headers)
    decreases q, 2
  {
    var While(id, c, b) := q.at;
    var f := Analyze(q.at, true, env);
    assert f == AnalyzeLoop(id, Eval(id, c.throws, env), b, true, CanBe(c, true), CanBe(c, false), env);
    hide Analyze;
    LoopParts(id, Eval(id, c.throws, env), b, c, env);
    SoundRounds(q.kids, b, c, [], owner, q.out, id, f, env, reach, done, headers);
  }

  lemma {:induction false} SoundForeach(q: Run, owner: Option<string>, env: Env, reach: set<Id>, done: set<Id>,
                                        headers: set<Id>)
    requires Setup(q, owner, env, reach, done, headers) && q.at.Foreach?
    ensures Holds(q, env, reach, done, headers)
    decreases q, 2
  {
    var Foreach(id, _, _, e, b) := q.at;
    var f := Analyze(q.at, true, env);
    SoundRounds(q.kids, b, Expr(e.throws, None), [], owner, q.out, id, f, env, reach, done, headers);
  }

  lemma {:induction false} HeadersBelow(ss: seq<Stmt>, env: Env)
    requires env.level > 0
    ensures forall i :: 0 <= i < |ss| ==> Below(Analyze(ss[i], false, env), AnalyzeHeaders(ss, env))
  {
    hide Analyze;
    if ss != [] {
      HeadersBelow(ss[1..], env);
      forall i | 0 < i < |ss| ensures Below(Analyze(ss[i], false, env), AnalyzeHeaders(ss, env)) {
        assert ss[i] == ss[1..][i - 1];
      }
    }
  }

  lemma {:induction false} ForHeaders(s: Stmt, f: Fx, env: Env)
    requires s.For? && Shape(s) && env.level > 0
    requires Below(AnalyzeHeaders(s.init, env), f) && Below(AnalyzeHeaders(s.update, env), f)
    ensures HeadersIn(s.init, f, env, Headers(s)) && HeadersIn(s.update, f, env, Headers(s))
  {
    hide Analyze, AnalyzeHeaders;
    HeadersBelow(s.init, env);
    HeadersBelow(s.update, env);
  }

  lemma {:induction false} SoundFor(q: Run, owner: Option<string>, env: Env, reach: set<Id>, done: set<Id>,
                                    headers: set<Id>)
    requires Setup(q, owner, env, reach, done, headers) && q.at.For?
    ensures Holds(q, env, reach, done, headers)
    decreases q, 2
  {
    var For(id, init, end, update, b) := q.at;
    var f := Analyze(q.at, true, env);
    ForParts(q.at, env);
    ForHeaders(q.at, f, env);
    hide Analyze;
    SoundInit(q.kids, init, end, update, b, owner, q.out, id, f, env, reach, done, headers);
  }

  lemma {:induction false} SoundInit(kids: seq<Run>, init: seq<Stmt>, end: Option<Expr>, update: seq<Stmt>, b: Stmt,
                                     owner: Option<string>, o: Outcome, id: Id, f: Fx, env: Env, reach: set<Id>,
                                     done: set<Id>, headers: set<Id>)
    requires b.Block? && Shape(b) && env.level > 0 && env.abrupt + 1 < env.level
    requires ValidFor(env.h, kids, init, end, update, b, owner, o)
    requires LoopFx(f, id, b, ForCondition(end), env)
    requires Part(f, reach, done) && Headers(b) <= headers
    requires HeadersIn(init, f, env, headers) && HeadersIn(update, f, env, headers)
    ensures Predicts(f, o, env) && AllMarked(kids, reach, done, headers)
    decreases kids, 3 + |init|
  {
    hide Analyze, Shape, Headers;
    if init == [] {
      SoundRounds(kids, b, ForCondition(end), update, owner, o, id, f, env,
                  reach, done, headers);
    } else if kids != [] {
      SoundHeader(kids[0], None, f, env, reach, done, headers);
      if kids[0].out.Normal? {
        SoundInit(kids[1..], init[1..], end, update, b, owner, o, id, f, env, reach, done, headers);
      }
    }
  }

  ghost predicate DoFx(f: Fx, id: Id, b: Stmt, c: Expr, env: Env)
    requires env.level > 0
  {
    var fb := Analyze(b, true, EnterLoop(b.id, env));
    && Below(Eval(id, c.throws, env), f) && Below(fb, f)
    && (fb.completes && CanBe(c, false) ==> f.completes)
    && (env.top in fb.done ==> f.completes)
  }

  lemma {:induction false} SoundDo(q: Run, owner: Option<string>, env: Env, reach: set<Id>, done: set<Id>,
                                   headers: set<Id>)
    requires Setup(q, owner, env, reach, done, headers) && q.at.Do?
    ensures Holds(q, env, reach, done, headers)
    decreases q, 2
  {
    var Do(id, b, c) := q.at;
    SoundDoRounds(q.kids, b, c, owner, q.out, id, Analyze(q.at, true, env), env, reach, done, headers);
  }

  lemma {:induction false} SoundDoRounds(kids: seq<Run>, b: Stmt, c: Expr, owner: Option<string>, o: Outcome, id: Id,
                                         f: Fx, env: Env, reach: set<Id>, done: set<Id>, headers: set<Id>)
    requires b.Block? && Shape(b) && env.level > 0 && env.abrupt + 1 < env.level
    requires owner.Some? ==>
               && owner.value in env.labels
               && env.labels[owner.value] == LabelInfo(Target(env.top, env.level - 1), Some(b.id))
    requires ValidDo(env.h, kids, b, c, owner, o)
    requires DoFx(f, id, b, c, env) && Part(f, reach, done) && Headers(b) <= headers
    ensures Predicts(f, o, env) && AllMarked(kids, reach, done, headers)
    decreases kids, 2
  {
    hide Analyze, Shape, Headers;
    if kids != [] {
      var inner := EnterLoop(b.id, env);
      Sound(kids[0], None, inner, reach, done, headers);
      if !Repeats(kids[0].out, owner) {
        LoopCatches(b.id, kids[0].out, owner, Analyze(b, true, inner), f, env);
      } else if |kids| == 1 && (Cut(env.h, c, o) || (CanBe(c, false) && o.Normal?)) {
        if o.Normal? {
          RepeatCompletes(b, kids[0].out, owner, env);
        } else {
          EvalPredicts(id, c.throws, o, f, env);
        }
      } else {
        SoundDoRounds(kids[1..], b, c, owner, o, id, f, env, reach, done, headers);
      }
    }
  }

  /** A body from which the loop goes on is marked able to complete normally. */
  lemma {:induction false} RepeatCompletes(b: Stmt, o: Outcome, owner: Option<string>, env: Env)
    requires b.Block? && env.level > 0 && env.abrupt + 1 < env.level
    requires owner.Some? ==>
               && owner.value in env.labels
               && env.labels[owner.value] == LabelInfo(Target(env.top, env.level - 1), Some(b.id))
    requires Predicts(Analyze(b, true, EnterLoop(b.id, env)), o, EnterLoop(b.id, env)) && Repeats(o, owner)
    ensures Analyze(b, true, EnterLoop(b.id, env)).completes
  {
  }

  // ---- Switch

  /** Entering at group k: the effects of the groups from there on are part of the effects of all. */
  lemma {:induction false} GroupsSuffix(gs: seq<Stmt>, k: nat, last: bool, env: Env) returns (before: bool)
    requires k < |gs| && forall i :: 0 <= i < |gs| ==> gs[i].Block?
    ensures Below(AnalyzeGroups(gs[k..], true, before, env), AnalyzeGroups(gs, true, last, env))
    ensures AnalyzeGroups(gs[k..], true, before, env).completes == AnalyzeGroups(gs, true, last, env).completes
    ensures HeadersOf(gs[k..]) <= HeadersOf(gs)
    decreases k
  {
    if k == 0 {
      assert gs[0..] == gs;
      before := last;
    } else {
      var first := AnalyzeSeq(gs[0].stmts, true, env.(level := env.level + 1));
      before := GroupsSuffix(gs[1..], k - 1, first.completes, env);
      assert gs[1..][k - 1..] == gs[k..];
    }
  }

  lemma {:induction false} GroupParts(gs: seq<Stmt>, last: bool, env: Env)
    requires gs != [] && gs[0].Block?
    ensures var f, g, inner := AnalyzeGroups(gs, true, last, env), gs[0], env.(level := env.level + 1);
            var fs := AnalyzeSeq(g.stmts, true, inner);
            var rest := AnalyzeGroups(gs[1..], true, fs.completes, env);
            && Below(fs, f) && g.id in f.reach && (fs.completes ==> g.id in f.done)
            && Below(rest, f) && rest.completes == f.completes
  {
  }

  /** A switch group, run from its first statement. */
  lemma {:induction false} SoundGroup(q: Run, f: Fx, env: Env, reach: set<Id>, done: set<Id>, headers: set<Id>)
    requires IsPlain(q.at) && Shape(q.at) && Valid(env.h, q, None) && env.abrupt <= env.level
    requires Part(f, reach, done) && Headers(q.at) <= headers
    requires q.at.id in reach && Below(AnalyzeSeq(q.at.stmts, true, env.(level := env.level + 1)), f)
    requires AnalyzeSeq(q.at.stmts, true, env.(level := env.level + 1)).completes ==> q.at.id in done
    ensures q.out.Normal? ==> AnalyzeSeq(q.at.stmts, true, env.(level := env.level + 1)).completes
    ensures q.out.Normal? || Predicts(f, q.out, env)
    ensures Marked(q, reach, done, headers)
    decreases q, 2
  {
    hide Analyze;
    var inner := env.(level := env.level + 1);
    var o :| ValidSeq(env.h, q.kids, q.at.stmts, None, o) && q.out == LeaveBlock(o, None);
    SoundSeq(q.kids, q.at.stmts, None, o, inner, reach, done, headers);
    PredictsGrows(AnalyzeSeq(q.at.stmts, true, inner), f.(completes := true), o, inner);
  }

  lemma {:induction false} SoundGroups(kids: seq<Run>, gs: seq<Stmt>, o: Outcome, last: bool, env: Env, reach: set<Id>,
                                       done: set<Id>, headers: set<Id>)
    requires env.abrupt <= env.level && (kids == [] ==> last)
    requires forall i :: 0 <= i < |gs| ==> IsPlain(gs[i]) && Shape(gs[i])
    requires ValidSeq(env.h, kids, gs, None, o)
    requires Part(AnalyzeGroups(gs, true, last, env), reach, done) && HeadersOf(gs) <= headers
    ensures Predicts(AnalyzeGroups(gs, true, last, env), o, env) && AllMarked(kids, reach, done, headers)
    decreases kids, 2
  {
    hide Valid, Shape;
    if kids != [] {
      GroupParts(gs, last, env);
      hide AnalyzeGroups;
      SoundGroup(kids[0], AnalyzeGroups(gs, true, last, env), env, reach, done, headers);
      if kids[0].out.Normal? {
        SoundGroups(kids[1..], gs[1..], o, true, env, reach, done, headers);
        PredictsGrows(AnalyzeGroups(gs[1..], true, true, env), AnalyzeGroups(gs, true, last, env), o, env);
        MarkedCons(kids, reach, done, headers);
      }
    }
  }

  /** How the groups of a switch end predicts how the switch ends. */
  lemma {:induction false} SwitchCatches(s: Stmt, o: Outcome, fr: Fx, env: Env)
    requires s.Switch? && env.level > 0 && env.abrupt < env.level
    requires var inner := EnterSwitch(s.blockId, env);
             var fg := AnalyzeGroups(s.groups, true, false, inner);
             Below(fr, fg) && fr.completes == fg.completes && Predicts(fr, o, inner)
    ensures Predicts(Analyze(s, true, env), LeaveLoop(o), env)
  {
    var f, fg := Analyze(s, true, env), AnalyzeGroups(s.groups, true, false, EnterSwitch(s.blockId, env));
    assert Below(fg, f);
    PredictsGrows(fr, f.(completes := true), o, EnterSwitch(s.blockId, env));
  }

  lemma {:induction false} SwitchIncludes(s: Stmt, env: Env)
    requires s.Switch? && env.level > 0
    ensures var f, fg := Analyze(s, true, env), AnalyzeGroups(s.groups, true, false, EnterSwitch(s.blockId, env));
            && Below(Eval(s.id, s.e.throws, env), f) && Below(fg, f) && (!s.hasDefault ==> f.completes)
            && s.id in f.reach && s.blockId in f.reach && (f.completes ==> s.id in f.done)
  {
  }

  lemma {:induction false} SoundSwitch(q: Run, owner: Option<string>, env: Env, reach: set<Id>, done: set<Id>,
                                       headers: set<Id>)
    requires Setup(q, owner, env, reach, done, headers) && q.at.Switch?
    ensures Holds(q, env, reach, done, headers)
    decreases q, 2
  {
    hide Analyze, AnalyzeGroups, Eval;
    var Switch(id, bid, e, gs, hasDefault) := q.at;
    var f := Analyze(q.at, true, env);
    SwitchIncludes(q.at, env);
    if q.kids == [] {
      if !q.out.Normal? { EvalPredicts(id, e.throws, q.out, f, env); }
    } else {
      var inner, rest := EnterSwitch(bid, env), gs[q.pick..];
      var o :| ValidSeq(env.h, q.kids, rest, None, o) && q.out == LeaveLoop(o);
      var before := GroupsSuffix(gs, q.pick, false, inner);
      SoundGroups(q.kids, rest, o, before, inner, reach, done, headers);
      SwitchCatches(q.at, o, AnalyzeGroups(rest, true, before, inner), env);
    }
  }

  // ---- Try

  /** The finally clause of a reachable try statement cannot complete normally. */
  predicate Abrupt(fin: Option<Stmt>, env: Env)
    requires env.level > 0
  {
    fin.Some? && !Analyze(fin.value, true, env).completes
  }

  /** The clause that catches an exception the try block was found to throw is not reported:
      comparable types, by the tree shape, and no earlier clause for a superclass. */
  lemma {:induction false} TakenClauseIsProcessed(h: Hierarchy, cs: seq<Catch>, found: set<Class>, o: Outcome, k: nat)
    requires TakenBy(h, cs, o, k)
    requires exists c :: c in found && IsSubclass(h, o.cls, c)
    ensures CatchReachable(h, found, cs[k].cls)
    ensures !Covers(h, CatchTypes(cs)[..k], cs[k].cls)
  {
    var c :| c in found && IsSubclass(h, o.cls, c);
    SuperclassesComparable(h, o.cls, c, cs[k].cls);
    var before := CatchTypes(cs)[..k];
    assert forall j :: 0 <= j < k ==> IsSubclass(h, o.cls, before[j]) ==> Catches(h, cs[j], o);
    if Covers(h, before, cs[k].cls) {
      CoversDown(h, before, o.cls, cs[k].cls);
    }
  }

  lemma {:induction false} CatchesInclude(cs: seq<Catch>, before: seq<Class>, found: set<Class>, env: Env, k: nat)
    requires env.level > 0 && k < |cs| && CatchReachable(env.h, found, cs[k].cls)
    requires !Covers(env.h, before + CatchTypes(cs)[..k], cs[k].cls)
    ensures Below(Analyze(cs[k].body, true, env), AnalyzeCatches(cs, before, found, env))
    ensures Analyze(cs[k].body, true, env).completes ==> AnalyzeCatches(cs, before, found, env).completes
    ensures Headers(cs[k].body) <= HeadersOfCatches(cs)
    decreases k
  {
    if k == 0 {
      assert before + CatchTypes(cs)[..0] == before;
    } else {
      assert before + [cs[0].cls] + CatchTypes(cs[1..])[..k - 1] == before + CatchTypes(cs)[..k];
      CatchesInclude(cs[1..], before + [cs[0].cls], found, env, k - 1);
    }
  }

  lemma {:induction false} LeaveTry(env: Env, catching: seq<Class>, o: Outcome, f: Fx)
    requires Predicts(f, o, EnterTry(env, false, catching))
    requires o.ThrowOut? ==> !Covers(env.h, catching, o.cls)
    ensures Predicts(f, o, env)
  {
    assert EnterTry(env, false, catching).tries[..|env.tries|] == env.tries;
  }

  /** What the try block throws past the clauses is left for the enclosing try statement. */
  lemma {:induction false} Leftover(h: Hierarchy, cs: seq<Catch>, exc: set<Class>, found: set<Class>, o: Outcome)
    requires o.ThrowOut? && NoneCatches(h, cs, o) && Collected(h, o.cls, exc) && exc <= found
    ensures Collected(h, o.cls, NotCaught(h, found, CatchTypes(cs)))
    ensures !Covers(h, CatchTypes(cs), o.cls)
  {
    assert forall j :: 0 <= j < |cs| ==> IsSubclass(h, o.cls, CatchTypes(cs)[j]) ==> Catches(h, cs[j], o);
    if Checked(h, o.cls) {
      var c :| c in exc && IsSubclass(h, o.cls, c);
      if Covers(h, CatchTypes(cs), c) { CoversDown(h, CatchTypes(cs), o.cls, c); }
      assert c in NotCaught(h, found, CatchTypes(cs));
    }
  }

  function BodyEnv(s: Stmt, env: Env): Env
    requires s.Try? && env.level > 0
  {
    EnterTry(env, Abrupt(s.fin, env), CatchTypes(s.catches))
  }

  function ClauseEnv(s: Stmt, env: Env): Env
    requires s.Try? && env.level > 0
  {
    EnterTry(env, Abrupt(s.fin, env), [])
  }

  /** The exceptions the clauses of a reachable try statement are checked against. */
  function Found(s: Stmt, env: Env): set<Class>
    requires s.Try? && env.level > 0
  {
    Analyze(s.body, true, BodyEnv(s, env)).exc + {ERROR, RUNTIME_EXCEPTION}
  }

  /** The marks and errors of g are among those of f. */
  ghost predicate MarksBelow(g: Fx, f: Fx) {
    g.reach <= f.reach && g.done <= f.done && g.errs <= f.errs
  }

  /** What the effects f of a try statement include. */
  ghost predicate TryFx(f: Fx, s: Stmt, env: Env)
    requires s.Try? && env.level > 0
  {
    var fb := Analyze(s.body, true, BodyEnv(s, env));
    var fc := AnalyzeCatches(s.catches, [], Found(s, env), ClauseEnv(s, env));
    && MarksBelow(fb, f) && MarksBelow(fc, f)
    && (s.fin.Some? ==> Below(Analyze(s.fin.value, true, env), f))
    && (!Abrupt(s.fin, env) ==>
          && (fb.completes || fc.completes ==> f.completes)
          && NotCaught(env.h, Found(s, env), CatchTypes(s.catches)) <= f.exc
          && fc.exc <= f.exc)
  }

  lemma {:induction false} TryParts(s: Stmt, env: Env)
    requires s.Try? && env.level > 0
    ensures TryFx(Analyze(s, true, env), s, env)
  {
    assert Analyze(s, true, env) == AnalyzeTry(s, true, env);
    hide Analyze;
    hide AnalyzeCatches;
    var abrupt := Abrupt(s.fin, env);
    assert !abrupt <==> (if s.fin.Some? then Analyze(s.fin.value, true, env).completes else true);
  }

  lemma {:induction false} SoundTry(q: Run, owner: Option<string>, env: Env, reach: set<Id>, done: set<Id>,
                                    headers: set<Id>)
    requires Setup(q, owner, env, reach, done, headers) && q.at.Try?
    ensures Holds(q, env, reach, done, headers)
    decreases q, 2
  {
    var f := Analyze(q.at, true, env);
    assert f == AnalyzeTry(q.at, true, env);
    assert q.at.id in f.reach && (f.completes ==> q.at.id in f.done);
    if q.kids != [] {
      TryParts(q.at, env);
      hide Analyze;
      SoundTryKids(q, f, env, reach, done, headers);
    }
  }

  lemma {:induction false} SoundTryKids(q: Run, f: Fx, env: Env, reach: set<Id>, done: set<Id>, headers: set<Id>)
    requires q.at.Try? && Shape(q.at) && Valid(env.h, q, None) && Placed(q.at, env, None) && q.kids != []
    requires TryFx(f, q.at, env) && Part(f, reach, done) && Headers(q.at) <= headers
    ensures Predicts(f, q.out, env) && AllMarked(q.kids, reach, done, headers)
    decreases q, 1
  {
    hide Analyze;
    var Try(id, b, cs, fin) := q.at;
    Sound(q.kids[0], None, BodyEnv(q.at, env), reach, done, headers);
    var o := q.kids[0].out;
    if NoneCatches(env.h, cs, o) {
      if !Abrupt(fin, env) {
        BodyLeaves(q.at, o, f, env);
      }
      SoundFinally(q.kids[1..], fin, o, q.out, f, env, reach, done, headers);
      MarkedCons(q.kids, reach, done, headers);
    } else if |q.kids| > 1 {
      SoundClause(q, f, env, reach, done, headers);
      SoundFinally(q.kids[2..], fin, q.kids[1].out, q.out, f, env, reach, done, headers);
      assert q.kids[1..][1..] == q.kids[2..];
      MarkedCons(q.kids[1..], reach, done, headers);
      MarkedCons(q.kids, reach, done, headers);
    }
  }

  /** An outcome of the try block that no clause takes. */
  lemma {:induction false} BodyLeaves(s: Stmt, o: Outcome, f: Fx, env: Env)
    requires s.Try? && env.level > 0 && NoneCatches(env.h, s.catches, o)
    requires !Abrupt(s.fin, env) && TryFx(f, s, env)
    requires Predicts(Analyze(s.body, true, BodyEnv(s, env)), o, BodyEnv(s, env))
    ensures Predicts(f, o, env)
  {
    hide Analyze;
    var types, fb := CatchTypes(s.catches), Analyze(s.body, true, BodyEnv(s, env));
    if o.ThrowOut? {
      Leftover(env.h, s.catches, fb.exc, Found(s, env), o);
    }
    LeaveTry(env, types, o, fb);
    PredictsGrows(fb.(exc := if o.ThrowOut? then NotCaught(env.h, Found(s, env), types) else {}), f, o, env);
  }

  /** The clause that was entered. */
  lemma {:induction false} SoundClause(q: Run, f: Fx, env: Env, reach: set<Id>, done: set<Id>, headers: set<Id>)
    requires q.at.Try? && Shape(q.at) && Placed(q.at, env, None) && |q.kids| > 1
    requires TryFx(f, q.at, env) && Part(f, reach, done) && Headers(q.at) <= headers
    requires TakenBy(env.h, q.at.catches, q.kids[0].out, q.pick)
    requires q.kids[1].at == q.at.catches[q.pick].body && Valid(env.h, q.kids[1], None)
    requires Predicts(Analyze(q.at.body, true, BodyEnv(q.at, env)), q.kids[0].out, BodyEnv(q.at, env))
    ensures Marked(q.kids[1], reach, done, headers)
    ensures Abrupt(q.at.fin, env) || Predicts(f, q.kids[1].out, env)
    decreases q, 0
  {
    hide Analyze, AnalyzeCatches;
    var cs, found, env' := q.at.catches, Found(q.at, env), ClauseEnv(q.at, env);
    var fb, o, k := Analyze(q.at.body, true, BodyEnv(q.at, env)), q.kids[0].out, q.pick;
    if Checked(env.h, o.cls) {
      var c :| c in fb.exc && IsSubclass(env.h, o.cls, c);
      assert c in found;
    }
    TakenClauseIsProcessed(env.h, cs, found, o, k);
    assert [] + CatchTypes(cs)[..k] == CatchTypes(cs)[..k];
    CatchesInclude(cs, [], found, env', k);
    Sound(q.kids[1], None, env', reach, done, headers);
    if !Abrupt(q.at.fin, env) {
      var fk := Analyze(cs[k].body, true, env');
      LeaveTry(env, [], q.kids[1].out, fk);
      PredictsGrows(fk, f, q.kids[1].out, env);
    }
  }

  lemma {:induction false} SoundFinally(kids: seq<Run>, fin: Option<Stmt>, before: Outcome, o: Outcome, f: Fx, env: Env,
                                        reach: set<Id>, done: set<Id>, headers: set<Id>)
    requires env.level > 0 && env.abrupt <= env.level && ValidFinally(env.h, kids, fin, before, o)
    requires fin.Some? ==>
               && IsPlain(fin.value) && Shape(fin.value) && Headers(fin.value) <= headers
               && Below(Analyze(fin.value, true, env), f)
    requires Part(f, reach, done) && (Abrupt(fin, env) || Predicts(f, before, env))
    ensures Predicts(f, o, env) && AllMarked(kids, reach, done, headers)
    decreases kids, 2
  {
    hide Shape, Headers;
    if kids != [] {
      Sound(kids[0], None, env, reach, done, headers);
      if !kids[0].out.Normal? {
        PredictsGrows(Analyze(fin.value, true, env), f, o, env);
      }
    }
  }
}
