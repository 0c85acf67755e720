/** Every node that the analysis marks reachable is executed in some run, and every node it marks as able to
    complete normally does so in some run. */
module NodeRuns {
  import opened Classes
  import opened JavaAst
  import opened Options
  import opened Runs
  import opened Flow
  import opened FlowBounds
  import opened FlowSound
  import opened MethodBodies
  import opened Reporting
  import opened Embeddings
  import opened Completion
  import opened SemanticState

  // ---- What a run shows of a node

  /** The block of a switch is no statement of its own. */
  predicate Shows(q: Run, id: Id) {
    q.at.id == id || (q.at.Switch? && q.at.blockId == id)
  }

  /** How a part of q counts as completed although it jumped: a loop body that goes on to its next round, and
      a loop whose own block completes. */
  predicate KidCounts(q: Run, kid: Run, owner: Option<string>, counts: bool) {
    || (IsLoop(q.at) && kid.at == q.at.body && Repeats(kid.out, owner))
    || (IsWrapper(q.at) && (q.out.Normal? || counts))
  }

  function TagOf(s: Stmt): Option<string> {
    if s.Block? then s.tag else None
  }

  /** Node id completed during q, a run inside a block labelled `owner`; q itself did if it ended normally or
      if `counts`. */
  ghost predicate Ended(id: Id, q: Run, owner: Option<string>, counts: bool)
    decreases q
  {
    || (Shows(q, id) && (q.out.Normal? || counts))
    || exists i :: 0 <= i < |q.kids| && Ended(id, q.kids[i], TagOf(q.at), KidCounts(q, q.kids[i], owner, counts))
  }

  ghost predicate Executes(h: Hierarchy, s: Stmt, owner: Option<string>, id: Id) {
    exists q: Run, w: Run :: IsRun(h, s, owner, q) && Within(w, q) && Shows(w, id)
  }

  ghost predicate Ending(s: Stmt, env: Env, owner: Option<string>, id: Id, q: Run) {
    IsRun(env.h, s, owner, q) && Ended(id, q, owner, Counts(s, q.out, env))
  }

  ghost predicate Completes(s: Stmt, env: Env, owner: Option<string>, id: Id) {
    exists q: Run :: Ending(s, env, owner, id, q)
  }

  ghost predicate AllShown(s: Stmt, env: Env, owner: Option<string>)
    requires env.level > 0
  {
    var f := Analyze(s, true, env);
    && (forall id :: id in f.reach ==> Executes(env.h, s, owner, id))
    && forall id :: id in f.done && id in Ids(s) ==> Completes(s, env, owner, id)
  }

  // ---- From parts to the whole

  lemma {:induction false} WithinKid(w: Run, p: Run, q: Run)
    requires p in q.kids && Within(w, p)
    ensures Within(w, q)
  {
    var i :| 0 <= i < |q.kids| && q.kids[i] == p;
  }

  lemma {:induction false} EndedMore(id: Id, q: Run, owner: Option<string>, a: bool, b: bool)
    requires Ended(id, q, owner, a) && (a ==> b || q.out.Normal?)
    ensures Ended(id, q, owner, b)
    decreases q
  {
    if !(Shows(q, id) && (q.out.Normal? || a)) {
      var i :| 0 <= i < |q.kids| && Ended(id, q.kids[i], TagOf(q.at), KidCounts(q, q.kids[i], owner, a));
      EndedMore(id, q.kids[i], TagOf(q.at), KidCounts(q, q.kids[i], owner, a), KidCounts(q, q.kids[i], owner, b));
    }
  }

  lemma {:induction false} EndedKid(id: Id, p: Run, q: Run, owner: Option<string>, a: bool, b: bool)
    requires p in q.kids && Ended(id, p, TagOf(q.at), a)
    requires a ==> p.out.Normal? || KidCounts(q, p, owner, b)
    ensures Ended(id, q, owner, b)
  {
    hide KidCounts;
    var i :| 0 <= i < |q.kids| && q.kids[i] == p;
    EndedMore(id, p, TagOf(q.at), a, KidCounts(q, p, owner, b));
  }

  /** What a run p of part c shows, a run of s shows. */
  ghost predicate Lifts(s: Stmt, env: Env, owner: Option<string>, c: Stmt, cenv: Env, co: Option<string>, p: Run) {
    exists q: Run ::
      && IsRun(env.h, s, owner, q) && Within(p, q)
      && forall id :: Ended(id, p, co, Counts(c, p.out, cenv)) ==> Ended(id, q, owner, Counts(s, q.out, env))
  }

  ghost predicate LiftsAll(s: Stmt, env: Env, owner: Option<string>, c: Stmt, cenv: Env, co: Option<string>) {
    cenv.h == env.h && forall p: Run :: IsRun(env.h, c, co, p) ==> Lifts(s, env, owner, c, cenv, co, p)
  }

  lemma {:induction false} WithinBoth(w: Run, p: Run, q: Run)
    requires Within(w, p) && Within(p, q)
    ensures Within(w, q)
    decreases q
  {
    if p != q {
      var i :| 0 <= i < |q.kids| && Within(p, q.kids[i]);
      WithinBoth(w, p, q.kids[i]);
    }
  }

  lemma {:induction false} PartShown(s: Stmt, env: Env, owner: Option<string>, c: Stmt, cenv: Env, co: Option<string>,
                                     id: Id)
    requires cenv.level > 0 && LiftsAll(s, env, owner, c, cenv, co) && AllShown(c, cenv, co)
    ensures id in Analyze(c, true, cenv).reach ==> Executes(env.h, s, owner, id)
    ensures id in Analyze(c, true, cenv).done && id in Ids(c) ==> Completes(s, env, owner, id)
  {
    hide Analyze, Valid, Counts, Ended, Lifts, Shows, Within, IsRun;
    if id in Analyze(c, true, cenv).reach {
      var p: Run, w: Run :| IsRun(env.h, c, co, p) && Within(w, p) && Shows(w, id);
      LiftExecutes(s, env, owner, c, cenv, co, p, w, id);
    }
    if id in Analyze(c, true, cenv).done && id in Ids(c) {
      var p: Run :| Ending(c, cenv, co, id, p);
      LiftCompletes(s, env, owner, c, cenv, co, p, id);
    }
  }

  lemma {:induction false} LiftExecutes(s: Stmt, env: Env, owner: Option<string>, c: Stmt, cenv: Env,
                                        co: Option<string>, p: Run, w: Run, id: Id)
    requires Lifts(s, env, owner, c, cenv, co, p) && Within(w, p) && Shows(w, id)
    ensures Executes(env.h, s, owner, id)
  {
    hide Valid, Counts, Ended, Shows;
    var q: Run :| IsRun(env.h, s, owner, q) && Within(p, q);
    WithinBoth(w, p, q);
  }

  lemma {:induction false} LiftCompletes(s: Stmt, env: Env, owner: Option<string>, c: Stmt, cenv: Env,
                                         co: Option<string>, p: Run, id: Id)
    requires Lifts(s, env, owner, c, cenv, co, p) && Ended(id, p, co, Counts(c, p.out, cenv))
    ensures Completes(s, env, owner, id)
  {
    hide Valid, Counts, Shows;
    var q: Run :| && IsRun(env.h, s, owner, q) && Within(p, q)
                  && forall i :: Ended(i, p, co, Counts(c, p.out, cenv)) ==> Ended(i, q, owner, Counts(s, q.out, env));
    assert Ending(s, env, owner, id, q);
  }

  /** A run that contains p as a part shows what p does. */
  lemma {:induction false} LiftsTo(s: Stmt, env: Env, owner: Option<string>, c: Stmt, cenv: Env, co: Option<string>,
                                   p: Run, q: Run)
    requires IsRun(env.h, s, owner, q) && p in q.kids && co == TagOf(s)
    requires Counts(c, p.out, cenv) ==> p.out.Normal? || KidCounts(q, p, owner, Counts(s, q.out, env))
    ensures Lifts(s, env, owner, c, cenv, co, p)
  {
    hide Valid, Counts, Shows, KidCounts;
    assert Within(p, p);
    WithinKid(p, p, q);
    forall id | Ended(id, p, co, Counts(c, p.out, cenv)) ensures Ended(id, q, owner, Counts(s, q.out, env)) {
      EndedKid(id, p, q, owner, Counts(c, p.out, cenv), Counts(s, q.out, env));
    }
  }

  // ---- The node itself

  /** What s itself shows. */
  lemma {:induction false} OwnShown(s: Stmt, env: Env, owner: Option<string>)
    requires Stands(s, env, owner) && Faithful(s, env, owner)
    ensures Executes(env.h, s, owner, s.id)
    ensures s.Switch? ==> Executes(env.h, s, owner, s.blockId)
    ensures s.id in Analyze(s, true, env).done ==> Completes(s, env, owner, s.id)
  {
    hide Analyze, Valid, Counts;
    Begins(env.h, s, owner);
    var q := Run(s, [], 0, Suspended);
    assert IsRun(env.h, s, owner, q) && Within(q, q) && Shows(q, s.id);
    if s.id in Analyze(s, true, env).done {
      OwnFlag(s, env, owner);
      var o :| Ends(env.h, s, owner, o) && Counts(s, o, env);
      var p: Run :| IsRun(env.h, s, owner, p) && p.out == o;
      assert Ending(s, env, owner, s.id, p);
    }
  }

  lemma {:induction false} OwnFlag(s: Stmt, env: Env, owner: Option<string>)
    requires Stands(s, env, owner)
    ensures s.id in Analyze(s, true, env).done <==> Analyze(s, true, env).completes
  {
    hide Analyze;
    OuterOff(s, env, owner);
    FlagTells(s, true, env);
  }

  lemma {:induction false} OuterOff(s: Stmt, env: Env, owner: Option<string>)
    requires Stands(s, env, owner)
    ensures Outer(env) * Ids(s) <= Own(s) && Shape(s) && Unique(s)
  {
  }

  lemma {:induction false} Shown(s: Stmt, env: Env, owner: Option<string>)
    requires Stands(s, env, owner) && Quiet(Analyze(s, true, env).errs) && Live(env.h, s)
    ensures AllShown(s, env, owner)
    decreases s, 2
  {
    hide Analyze, Stands, Quiet, Live, Faithful, AllShown;
    Complete(s, env, owner);
    OwnShown(s, env, owner);
    match s
    case Block(_, _, _) => ShownBlock(s, env, owner);
    case If(_, _, _, _) => ShownBranches(s, env, owner);
    case Sync(_, _, _) => ShownBranches(s, env, owner);
    case While(_, _, _) => ShownLoop(s, env, owner);
    case For(_, _, _, _, _) => ShownLoop(s, env, owner);
    case Foreach(_, _, _, _, _) => ShownLoop(s, env, owner);
    case Do(_, _, _) => ShownLoop(s, env, owner);
    case Switch(_, _, _, _, _) => ShownSwitch(s, env, owner);
    case Try(_, _, _, _) => ShownTry(s, env, owner);
    case _ => ShownLeaf(s, env, owner);
  }

  ghost predicate OwnIsShown(s: Stmt, env: Env, owner: Option<string>)
    requires env.level > 0
  {
    && Executes(env.h, s, owner, s.id) && (s.Switch? ==> Executes(env.h, s, owner, s.blockId))
    && (s.id in Analyze(s, true, env).done ==> Completes(s, env, owner, s.id))
  }

  lemma {:induction false} ShownLeaf(s: Stmt, env: Env, owner: Option<string>)
    requires Stands(s, env, owner) && IsLeaf(s) && OwnIsShown(s, env, owner)
    ensures AllShown(s, env, owner)
  {
    hide Executes, Completes;
    assert Ids(s) == {s.id} && Analyze(s, true, env).reach == {s.id};
  }

  // ---- Branches

  lemma {:induction false} BranchLifts(s: Stmt, b: Stmt, env: Env, owner: Option<string>)
    requires IsBranch(s, b) && b.Block? && Off({b.id}, {}, env)
    ensures LiftsAll(s, env, owner, b, env, None)
  {
    hide Lifts, Valid;
    forall p: Run | IsRun(env.h, b, None, p) ensures Lifts(s, env, owner, b, env, None, p) {
      var q := PartEmbed(env.h, s, owner, p);
      if Counts(b, p.out, env) { CountsNormally(b, p.out, env); }
      LiftsTo(s, env, owner, b, env, None, p, q);
    }
  }

  /** No jump counts as completion of a statement that is no loop nor loop body. */
  lemma {:induction false} CountsNormally(c: Stmt, o: Outcome, env: Env)
    requires !IsLoop(c) && Off({c.id}, {}, env) && Counts(c, o, env)
    ensures o.Normal?
  {
  }

  lemma {:induction false} BranchMarks(s: Stmt, env: Env)
    requires (s.If? || s.Sync?) && env.level > 0
    ensures var f, fb := Analyze(s, true, env), Analyze(if s.If? then s.thn else s.body, true, env);
            var fe := if s.If? && s.els.Some? then Analyze(s.els.value, true, env) else Fx({}, {}, {}, {}, false);
            && f.reach <= fb.reach + fe.reach + {s.id} && f.done <= fb.done + fe.done + {s.id}
            && fb.errs + fe.errs <= f.errs
  {
    if s.If? { assert Analyze(s, true, env) == AnalyzeIf(s, true, env); }
  }

  /** What part c, processed in cenv, contributes to s. */
  ghost predicate PartIsShown(s: Stmt, env: Env, owner: Option<string>, c: Stmt, cenv: Env)
    requires cenv.level > 0
  {
    var fc := Analyze(c, true, cenv);
    && (forall id :: id in fc.reach ==> Executes(env.h, s, owner, id))
    && forall id :: id in fc.done && id !in Outer(cenv) - Own(c) ==> Completes(s, env, owner, id)
  }

  lemma {:induction false} PartAll(s: Stmt, env: Env, owner: Option<string>, c: Stmt, cenv: Env, co: Option<string>)
    requires Stands(c, cenv, co) && LiftsAll(s, env, owner, c, cenv, co) && AllShown(c, cenv, co)
    ensures PartIsShown(s, env, owner, c, cenv)
  {
    hide Analyze, Completes, Executes, LiftsAll, AllShown, Stands;
    Standing(c, cenv, co);
    var fc := Analyze(c, true, cenv);
    forall id | id in fc.reach ensures Executes(env.h, s, owner, id) {
      PartShown(s, env, owner, c, cenv, co, id);
    }
    forall id | id in fc.done && id !in Outer(cenv) - Own(c) ensures Completes(s, env, owner, id) {
      PartShown(s, env, owner, c, cenv, co, id);
      DoneIsInside(c, cenv, co, id);
    }
  }

  lemma {:induction false} DoneIsInside(c: Stmt, cenv: Env, co: Option<string>, id: Id)
    requires Stands(c, cenv, co) && id in Analyze(c, true, cenv).done && id !in Outer(cenv) - Own(c)
    ensures id in Ids(c)
  {
    hide Analyze;
    AnalyzeBounded(c, true, cenv);
    OwnIn(c);
  }

  lemma {:induction false} OwnIn(s: Stmt)
    ensures Own(s) <= Ids(s)
  {
    if IsLoop(s) { IdIn(s.body); }
  }

  lemma {:induction false} ShownBranches(s: Stmt, env: Env, owner: Option<string>)
    requires (s.If? || s.Sync?) && Stands(s, env, owner) && Quiet(Analyze(s, true, env).errs) && Live(env.h, s)
    requires OwnIsShown(s, env, owner)
    ensures AllShown(s, env, owner)
    decreases s, 1
  {
    hide Analyze, Stands, Executes, Completes, LiftsAll, Outer, Off, Live;
    Standing(s, env, owner);
    BranchMarks(s, env);
    OuterOff(s, env, owner);
    var b := if s.If? then s.thn else s.body;
    ShownBranch(s, b, env, owner);
    if s.If? && s.els.Some? {
      ShownBranch(s, s.els.value, env, owner);
    }
  }

  lemma {:induction false} ShownBranch(s: Stmt, b: Stmt, env: Env, owner: Option<string>)
    requires IsBranch(s, b) && Stands(s, env, owner) && Quiet(Analyze(b, true, env).errs) && Live(env.h, s)
    ensures PartIsShown(s, env, owner, b, env)
    decreases s, 0
  {
    hide Analyze, Executes, Completes, LiftsAll;
    Standing(s, env, owner);
    PartStands(s, b, env, owner);
    Shown(b, env, None);
    BranchLifts(s, b, env, owner);
    PartAll(s, env, owner, b, env, None);
  }

  // ---- Loops

  lemma {:induction false} LoopLifts(s: Stmt, env: Env, owner: Option<string>)
    requires IsLoop(s) && Stands(s, env, owner) && Enters(s)
    ensures LiftsAll(s, env, owner, s.body, EnterLoop(s.body.id, env), None)
  {
    hide Lifts, Valid, Jumps, Stands;
    Standing(s, env, owner);
    LoopStands(s, env, owner);
    var inner := EnterLoop(s.body.id, env);
    forall p: Run | IsRun(env.h, s.body, None, p) ensures Lifts(s, env, owner, s.body, inner, None, p) {
      var q := LoopEmbed(env.h, s, owner, p);
      if Counts(s.body, p.out, inner) && !p.out.Normal? {
        LoopJumps(s, env, owner, p.out, s.body.id);
      }
      LiftsTo(s, env, owner, s.body, inner, None, p, q);
    }
  }

  lemma {:induction false} LoopMarks(s: Stmt, env: Env)
    requires IsLoop(s) && Shape(s) && env.level > 0 && Silent(Analyze(s, true, env).errs)
    ensures var f, fb := Analyze(s, true, env), Analyze(s.body, true, EnterLoop(s.body.id, env));
            f.reach <= fb.reach + {s.id}
  {
    match s
    case While(id, c, b) =>
      RoundMarks(id, Eval(id, c.throws, env), b, CanBe(c, true), CanBe(c, false), env);
    case For(_, _, _, _, _) => ForMarks(s, env);
    case Foreach(_, _, _, _, _) =>
    case Do(_, _, _) =>
  }

  lemma {:induction false} RoundMarks(id: Id, head: Fx, b: Stmt, enters: bool, exits: bool, env: Env)
    requires env.level > 0 && Silent(AnalyzeLoop(id, head, b, true, enters, exits, env).errs) && head.reach == {}
    ensures AnalyzeLoop(id, head, b, true, enters, exits, env).reach <=
            Analyze(b, true, EnterLoop(b.id, env)).reach + {id}
  {
    hide Analyze;
    MissedBodyReported(id, head, b, enters, exits, env);
  }

  lemma {:induction false} ForMarks(s: Stmt, env: Env)
    requires s.For? && Shape(s) && env.level > 0 && Silent(AnalyzeFor(s, true, env).errs)
    ensures AnalyzeFor(s, true, env).reach <= Analyze(s.body, true, EnterLoop(s.body.id, env)).reach + {s.id}
  {
    hide Analyze, AnalyzeHeaders, AnalyzeLoop;
    var c := ForCondition(s.end);
    var head := AnalyzeHeaders(s.init, env).Then(Eval(s.id, c.throws, env));
    HeadersBounded(s.init, env);
    HeadersBounded(s.update, env);
    RoundMarks(s.id, head, s.body, CanBe(c, true), CanBe(c, false), env);
  }

  /** Targets in the body of a loop are the body itself or lie outside the loop. */
  lemma {:induction false} LoopOuter(s: Stmt, env: Env, owner: Option<string>)
    requires IsLoop(s) && Stands(s, env, owner)
    ensures (Outer(EnterLoop(s.body.id, env)) - Own(s.body)) !! Ids(s)
  {
    LoopStands(s, env, owner);
  }

  lemma {:induction false} ShownLoop(s: Stmt, env: Env, owner: Option<string>)
    requires IsLoop(s) && Stands(s, env, owner) && Quiet(Analyze(s, true, env).errs) && Live(env.h, s)
    requires OwnIsShown(s, env, owner)
    ensures AllShown(s, env, owner)
    decreases s, 1
  {
    hide Analyze, Stands, Executes, Completes, LiftsAll, Outer, Enters, Off;
    Standing(s, env, owner);
    LoopFacts(s, env);
    LoopMarks(s, env);
    LoopStands(s, env, owner);
    LoopOuter(s, env, owner);
    var inner := EnterLoop(s.body.id, env);
    Shown(s.body, inner, None);
    LoopLifts(s, env, owner);
    PartAll(s, env, owner, s.body, inner, None);
  }

  // ---- Statements of a block

  /** Statements of block b, which are processed in senv, show what they mark as parts of b. */
  ghost predicate StmtsShown(b: Stmt, env: Env, owner: Option<string>, senv: Env)
    requires b.Block? && senv.level > 0
  {
    var f := AnalyzeSeq(b.stmts, true, senv);
    && (forall id :: id in f.reach ==> Executes(env.h, b, owner, id))
    && forall id :: id in f.done && id in IdsOf(b.stmts) ==> Completes(b, env, owner, id)
  }

  lemma {:induction false} SeqAt(ss: seq<Stmt>, env: Env, owner: Option<string>, i: nat)
    requires i < |ss| && SeqStands(ss, env, owner) && LiveAll(env.h, ss) && FirstUnreachable(ss, true, env).None?
    ensures Stands(ss[i], env, owner) && Live(env.h, ss[i])
    ensures Analyze(ss[i], true, env).errs <= AnalyzeSeq(ss, true, env).errs
    ensures !IsLoop(ss[i]) ==> Off({ss[i].id}, {}, env)
    ensures i < |ss| - 1 ==> !IsLoop(ss[i]) && Analyze(ss[i], true, env).completes
    decreases i
  {
    hide Analyze, AnalyzeSeq, SeqStands, Stands, Off, Live;
    SeqStanding(ss, env, owner);
    SeqQuiet(ss, env);
    FirstStands(ss, env, owner);
    LiveAt(ss, env.h);
    if i > 0 {
      SeqAt(ss[1..], env, owner, i - 1);
      assert ss[1..][i - 1] == ss[i];
    }
  }

  lemma {:induction false} LiveAt(ss: seq<Stmt>, h: Hierarchy)
    requires ss != [] && LiveAll(h, ss)
    ensures Live(h, ss[0]) && LiveAll(h, ss[1..])
  {
  }

  /** The marks of one of the two kinds. */
  function Kind(f: Fx, done: bool): set<Id> {
    if done then f.done else f.reach
  }

  /** A mark comes from one of the statements. */
  lemma {:induction false} FromSeq(ss: seq<Stmt>, env: Env, id: Id, done: bool) returns (i: nat)
    requires env.level > 0 && FirstUnreachable(ss, true, env).None?
    requires id in Kind(AnalyzeSeq(ss, true, env), done)
    ensures i < |ss| && id in Kind(Analyze(ss[i], true, env), done)
    decreases |ss|
  {
    hide Analyze;
    if id in Kind(Analyze(ss[0], true, env), done) {
      i := 0;
    } else {
      var j := FromSeq(ss[1..], env, id, done);
      i := j + 1;
    }
  }

  /** Statements before statement i complete normally. */
  lemma {:induction false} BeforeEnds(ss: seq<Stmt>, env: Env, owner: Option<string>, i: nat)
    requires i < |ss| && SeqStands(ss, env, owner) && LiveAll(env.h, ss) && FirstUnreachable(ss, true, env).None?
    requires Quiet(AnalyzeSeq(ss, true, env).errs)
    ensures forall j :: 0 <= j < i ==> Ends(env.h, ss[j], owner, Normal)
  {
    hide Analyze, AnalyzeSeq, SeqStands, Stands, Off, Live, Ends, FirstUnreachable;
    SeqStanding(ss, env, owner);
    forall j | 0 <= j < i ensures Ends(env.h, ss[j], owner, Normal) {
      SeqAt(ss, env, owner, j);
      Complete(ss[j], env, owner);
      FinishesNormally(ss[j], env, owner);
    }
  }

  /** Statement i of a block in env, or of a switch group. */
  lemma {:induction false} StmtLifts(b: Stmt, env: Env, owner: Option<string>, senv: Env, i: nat)
    requires b.Block? && i < |b.stmts| && senv.h == env.h
    requires forall j :: 0 <= j < i ==> Ends(env.h, b.stmts[j], b.tag, Normal)
    requires !IsLoop(b.stmts[i]) ==> Off({b.stmts[i].id}, {}, senv)
    requires IsLoop(b.stmts[i]) ==>
               && |b.stmts| == 1 && senv == EnterBlock(b.id, b.tag, b.stmts, env) && Stands(b, env, owner)
               && !(b.tag.Some? && b.tag.value in env.labels) && forall o :: !Jumps(o, b.stmts[0].id, senv)
    ensures LiftsAll(b, env, owner, b.stmts[i], senv, b.tag)
  {
    hide Lifts, Valid, Ends, Jumps, Stands;
    var c := b.stmts[i];
    forall p: Run | IsRun(env.h, c, b.tag, p) ensures Lifts(b, env, owner, c, senv, b.tag, p) {
      var q := BlockEmbed(env.h, b, owner, i, p);
      if Counts(c, p.out, senv) && !p.out.Normal? {
        if IsLoop(c) {
          JumpsOut(b, env, owner, p.out, b.id);
        } else {
          CountsNormally(c, p.out, senv);
        }
      }
      LiftsTo(b, env, owner, c, senv, b.tag, p, q);
    }
  }

  lemma {:induction false} ShownSeq(b: Stmt, env: Env, owner: Option<string>, senv: Env)
    requires b.Block? && senv.h == env.h && SeqStands(b.stmts, senv, b.tag) && LiveAll(env.h, b.stmts)
    requires Quiet(AnalyzeSeq(b.stmts, true, senv).errs) && FirstUnreachable(b.stmts, true, senv).None?
    requires Lone(b.stmts) ==>
               && senv == EnterBlock(b.id, b.tag, b.stmts, env) && Stands(b, env, owner)
               && !(b.tag.Some? && b.tag.value in env.labels)
    ensures StmtsShown(b, env, owner, senv)
    decreases b, 0
  {
    hide Analyze, AnalyzeSeq, SeqStands, Stands, Live, Off, Jumps, Completes, Executes, LiftsAll, FirstUnreachable,
      Ends;
    SeqStanding(b.stmts, senv, b.tag);
    forall i | 0 <= i < |b.stmts|
      ensures PartIsShown(b, env, owner, b.stmts[i], senv) && Stands(b.stmts[i], senv, b.tag)
    {
      SeqAt(b.stmts, senv, b.tag, i);
      BeforeEnds(b.stmts, senv, b.tag, i);
      Shown(b.stmts[i], senv, b.tag);
      StmtLifts(b, env, owner, senv, i);
      PartAll(b, env, owner, b.stmts[i], senv, b.tag);
    }
    var f := AnalyzeSeq(b.stmts, true, senv);
    forall id | id in f.reach ensures Executes(env.h, b, owner, id) {
      var i := FromSeq(b.stmts, senv, id, false);
    }
    forall id | id in f.done && id in IdsOf(b.stmts) ensures Completes(b, env, owner, id) {
      var i := FromSeq(b.stmts, senv, id, true);
      OuterOfSeq(b.stmts, senv, b.tag, i);
    }
  }

  /** Jump targets lie outside the statements, but for the body of a lone loop. */
  lemma {:induction false} OuterOfSeq(ss: seq<Stmt>, env: Env, owner: Option<string>, i: nat)
    requires SeqStands(ss, env, owner) && i < |ss|
    ensures (Outer(env) - Own(ss[i])) !! IdsOf(ss)
  {
  }

  lemma {:induction false} ShownBlock(s: Stmt, env: Env, owner: Option<string>)
    requires s.Block? && Stands(s, env, owner) && Quiet(Analyze(s, true, env).errs) && Live(env.h, s)
    requires OwnIsShown(s, env, owner)
    ensures AllShown(s, env, owner)
    decreases s, 1
  {
    hide Analyze, AnalyzeSeq, GapErrors, LabelErrors, Stands, SeqStands, EnterBlock, Executes, Completes,
      FirstUnreachable;
    Standing(s, env, owner);
    var inner := EnterBlock(s.id, s.tag, s.stmts, env);
    BlockParts(s, env);
    BlockMarks(s, env);
    BlockStands(s, env, owner);
    GapReported(s.stmts, true, inner);
    ShownSeq(s, env, owner, inner);
  }

  lemma {:induction false} BlockMarks(s: Stmt, env: Env)
    requires s.Block? && env.level > 0
    ensures var f, fs := Analyze(s, true, env), AnalyzeSeq(s.stmts, true, EnterBlock(s.id, s.tag, s.stmts, env));
            f.reach <= fs.reach + {s.id}
  {
    hide AnalyzeSeq, GapErrors;
  }

  // ---- Switch statements

  lemma {:induction false} GroupLifts(s: Stmt, env: Env, owner: Option<string>, k: nat)
    requires s.Switch? && k < |s.groups| && s.groups[k].Block? && Off({s.groups[k].id}, {}, GroupEnv(s, env))
    ensures LiftsAll(s, env, owner, s.groups[k], GroupEnv(s, env), None)
  {
    hide Lifts, Valid;
    var g := s.groups[k];
    forall p: Run | IsRun(env.h, g, None, p) ensures Lifts(s, env, owner, g, GroupEnv(s, env), None, p) {
      var q := GroupEmbed(env.h, s, owner, k, p);
      if Counts(g, p.out, GroupEnv(s, env)) { CountsNormally(g, p.out, GroupEnv(s, env)); }
      LiftsTo(s, env, owner, g, GroupEnv(s, env), None, p, q);
    }
  }

  /** What a group shows, the switch shows. */
  lemma {:induction false} GroupUp(s: Stmt, env: Env, owner: Option<string>, g: Stmt, id: Id)
    requires s.Switch? && LiftsAll(s, env, owner, g, GroupEnv(s, env), None)
    ensures Executes(env.h, g, None, id) ==> Executes(env.h, s, owner, id)
    ensures Completes(g, GroupEnv(s, env), None, id) ==> Completes(s, env, owner, id)
  {
    hide Valid, Counts, Ended, Lifts, Shows, Within, IsRun;
    var genv := GroupEnv(s, env);
    if Executes(env.h, g, None, id) {
      var p: Run, w: Run :| IsRun(env.h, g, None, p) && Within(w, p) && Shows(w, id);
      LiftExecutes(s, env, owner, g, genv, None, p, w, id);
    }
    if Completes(g, genv, None, id) {
      var p: Run :| Ending(g, genv, None, id, p);
      LiftCompletes(s, env, owner, g, genv, None, p, id);
    }
  }

  /** A mark comes from a group, or is that of a group. */
  lemma {:induction false} FromGroups(gs: seq<Stmt>, last: bool, env: Env, id: Id, done: bool) returns (k: nat)
    requires forall i :: 0 <= i < |gs| ==> gs[i].Block?
    requires id in Kind(AnalyzeGroups(gs, true, last, env), done)
    ensures k < |gs|
    ensures var f := AnalyzeSeq(gs[k].stmts, true, env.(level := env.level + 1));
            id in Kind(f, done) || (id == gs[k].id && (done ==> f.completes))
    decreases |gs|
  {
    hide AnalyzeSeq, GapErrors;
    var f := AnalyzeSeq(gs[0].stmts, true, env.(level := env.level + 1));
    if id in Kind(f, done) || (id == gs[0].id && (done ==> f.completes)) {
      k := 0;
    } else {
      var j := FromGroups(gs[1..], f.completes, env, id, done);
      k := j + 1;
    }
  }

  /** The group itself. */
  lemma {:induction false} GroupItself(g: Stmt, genv: Env)
    requires IsPlain(g) && genv.level > 0
    ensures Executes(genv.h, g, None, g.id)
    ensures SeqEnds(genv.h, g.stmts, None, Normal) ==> Completes(g, genv, None, g.id)
  {
    hide Valid;
    Begins(genv.h, g, None);
    var q := Run(g, [], 0, Suspended);
    assert Within(q, q) && Shows(q, g.id);
    if SeqEnds(genv.h, g.stmts, None, Normal) {
      BlockEnds(genv.h, g, None, Normal);
      var p: Run :| IsRun(genv.h, g, None, p) && p.out == Normal;
      assert Ending(g, genv, None, g.id, p);
    }
  }

  ghost predicate GroupsShown(s: Stmt, env: Env)
    requires s.Switch?
  {
    forall k :: 0 <= k < |s.groups| ==>
      var g, genv := s.groups[k], GroupEnv(s, env);
      && IsPlain(g) && StmtsShown(g, genv, None, genv) && SeqFaithful(g.stmts, genv, None)
      && Off({g.id}, {}, genv)
  }

  lemma {:induction false} ShownSwitch(s: Stmt, env: Env, owner: Option<string>)
    requires s.Switch? && Stands(s, env, owner) && Quiet(Analyze(s, true, env).errs) && Live(env.h, s)
    requires OwnIsShown(s, env, owner)
    ensures AllShown(s, env, owner)
    decreases s, 1
  {
    hide Analyze, AnalyzeGroups, AnalyzeSeq, Stands, SeqStands, GapErrors, SeqFaithful, Live, FirstUnreachable,
      StmtsShown, Executes, Completes, Off;
    Standing(s, env, owner);
    SwitchFacts(s, env);
    var genv := GroupEnv(s, env);
    forall k | 0 <= k < |s.groups|
      ensures var g := s.groups[k];
              IsPlain(g) && StmtsShown(g, genv, None, genv) && SeqFaithful(g.stmts, genv, None) && Off({g.id}, {}, genv)
    {
      var g := s.groups[k];
      GroupFacts(s.groups, false, EnterSwitch(s.blockId, env), k);
      GroupStands(s, env, owner, k);
      GroupOff(s, env, owner, k);
      GapReported(g.stmts, true, genv);
      CompleteSeq(g.stmts, genv, None);
      ShownSeq(g, genv, None, genv);
    }
    SwitchShown(s, env, owner);
  }

  lemma {:induction false} GroupOff(s: Stmt, env: Env, owner: Option<string>, k: nat)
    requires s.Switch? && Stands(s, env, owner) && k < |s.groups|
    ensures Off({s.groups[k].id}, {}, GroupEnv(s, env)) && IsPlain(s.groups[k])
    ensures s.groups[k].id in IdsOf(s.groups)
  {
    GroupIdIn(s.groups, k);
    assert s.blockId !in IdsOf(s.groups) && s.blockId in Ids(s) && IdsOf(s.groups) <= Ids(s);
    OffPart(Ids(s), {}, {s.groups[k].id}, {}, env);
  }

  lemma {:induction false} GroupIdIn(gs: seq<Stmt>, k: nat)
    requires k < |gs|
    ensures gs[k].id in IdsOf(gs)
    decreases k
  {
    IdIn(gs[0]);
    if k > 0 { GroupIdIn(gs[1..], k - 1); }
  }

  lemma {:induction false} SwitchMarks(s: Stmt, env: Env)
    requires s.Switch? && env.level > 0
    ensures var f, fg := Analyze(s, true, env), AnalyzeGroups(s.groups, true, false, EnterSwitch(s.blockId, env));
            f.reach <= fg.reach + {s.id, s.blockId}
  {
    hide AnalyzeGroups;
  }

  lemma {:induction false} SwitchShown(s: Stmt, env: Env, owner: Option<string>)
    requires s.Switch? && Stands(s, env, owner) && GroupsShown(s, env) && OwnIsShown(s, env, owner)
    ensures AllShown(s, env, owner)
  {
    hide Analyze, AnalyzeGroups, Stands, SeqFaithful, StmtsShown, Executes, Completes, Off;
    Standing(s, env, owner);
    SwitchFacts(s, env);
    SwitchMarks(s, env);
    var f := Analyze(s, true, env);
    forall id | id in f.reach ensures Executes(env.h, s, owner, id) {
      if id != s.id && id != s.blockId { GroupMark(s, env, owner, id, false); }
    }
    forall id | id in f.done && id in Ids(s) ensures Completes(s, env, owner, id) {
      if id != s.id { GroupMark(s, env, owner, id, true); }
    }
  }

  /** A mark of the groups, that of the block of the switch included. */
  lemma {:induction false} GroupMark(s: Stmt, env: Env, owner: Option<string>, id: Id, done: bool)
    requires s.Switch? && Stands(s, env, owner) && GroupsShown(s, env)
    requires id in Kind(AnalyzeGroups(s.groups, true, false, EnterSwitch(s.blockId, env)), done)
    requires done ==> id in Ids(s)
    ensures if done then Completes(s, env, owner, id) else Executes(env.h, s, owner, id)
  {
    hide Analyze, AnalyzeGroups, AnalyzeSeq, Stands, Executes, Completes, Off, LiftsAll;
    Standing(s, env, owner);
    SwitchIds(s, env, owner);
    var genv := GroupEnv(s, env);
    if done && id == s.blockId {
      BlockIdEnds(s, env, owner);
    } else {
      var k := FromGroups(s.groups, false, EnterSwitch(s.blockId, env), id, done);
      var g := s.groups[k];
      assert IsPlain(g) && StmtsShown(g, genv, None, genv) && SeqFaithful(g.stmts, genv, None) && Off({g.id}, {}, genv);
      GroupItself(g, genv);
      if done && id in AnalyzeSeq(g.stmts, true, genv).done {
        GroupInside(s, env, owner, k, id);
      } else if done {
        var o :| SeqEnds(env.h, g.stmts, None, o) && o.Normal?;
      }
      GroupLifts(s, env, owner, k);
      GroupUp(s, env, owner, g, id);
    }
  }

  lemma {:induction false} BlockIdEnds(s: Stmt, env: Env, owner: Option<string>)
    requires s.Switch? && Stands(s, env, owner) && GroupsShown(s, env)
    requires s.blockId in AnalyzeGroups(s.groups, true, false, EnterSwitch(s.blockId, env)).done
    ensures Completes(s, env, owner, s.blockId)
  {
    hide AnalyzeGroups, Stands, Valid;
    Standing(s, env, owner);
    SwitchIds(s, env, owner);
    GroupGoes(s, env, owner, s.blockId);
    var p: Run :| IsRun(env.h, s, owner, p) && p.out == Normal;
    assert Ending(s, env, owner, s.blockId, p);
  }

  lemma {:induction false} GroupInside(s: Stmt, env: Env, owner: Option<string>, k: nat, id: Id)
    requires s.Switch? && Stands(s, env, owner) && k < |s.groups| && id in Ids(s) && id != s.blockId
    requires s.groups[k].Block? && id in AnalyzeSeq(s.groups[k].stmts, true, GroupEnv(s, env)).done
    ensures id in IdsOf(s.groups[k].stmts)
  {
    hide AnalyzeSeq;
    assert Shape(s.groups[k]);
    SeqBounded(s.groups[k].stmts, true, GroupEnv(s, env));
  }

  // ---- Try statements

  lemma {:induction false} TryPartLifts(s: Stmt, b: Stmt, env: Env, cenv: Env, owner: Option<string>)
    requires s.Try? && Shape(s) && Live(env.h, s) && IsTryPart(s, b) && b.Block?
    requires cenv.h == env.h && Off({b.id}, {}, cenv)
    ensures LiftsAll(s, env, owner, b, cenv, None)
  {
    hide Lifts, Valid;
    forall p: Run | IsRun(env.h, b, None, p) ensures Lifts(s, env, owner, b, cenv, None, p) {
      var q := TryPartEmbed(s, b, env.h, owner, p);
      if Counts(b, p.out, cenv) { CountsNormally(b, p.out, cenv); }
      LiftsTo(s, env, owner, b, cenv, None, p, q);
    }
  }

  lemma {:induction false} TryPartEmbed(s: Stmt, b: Stmt, h: Hierarchy, owner: Option<string>, p: Run) returns (q: Run)
    requires s.Try? && Shape(s) && Live(h, s) && IsTryPart(s, b) && IsRun(h, b, None, p)
    ensures IsRun(h, s, owner, q) && p in q.kids
  {
    hide Valid;
    if b == s.body {
      q := TryEmbed(h, s, owner, p);
    } else if s.fin.Some? && b == s.fin.value {
      q := EnterFinally(h, s, owner, p);
    } else {
      var k :| 0 <= k < |s.catches| && b == s.catches[k].body;
      assert ClauseTaken(h, s, k);
      var first: Run :| IsRun(h, s.body, None, first) && TakenBy(h, s.catches, first.out, k);
      q := ClauseEmbed(h, s, owner, first, k, p);
    }
  }

  lemma {:induction false} ClauseMark(cs: seq<Catch>, before: seq<Class>, found: set<Class>, env: Env, id: Id,
                                      done: bool)
    returns (k: nat)
    requires env.level > 0 && Silent(AnalyzeCatches(cs, before, found, env).errs)
    requires id in Kind(AnalyzeCatches(cs, before, found, env), done)
    ensures k < |cs| && id in Kind(Analyze(cs[k].body, true, env), done)
    decreases |cs|
  {
    hide Analyze;
    MissedClauseReported(cs, before, found, env);
    var c := cs[0];
    assert c.body < c;
    if id in Kind(Analyze(c.body, true, env), done) {
      k := 0;
    } else {
      var j := ClauseMark(cs[1..], before + [c.cls], found, env, id, done);
      k := j + 1;
    }
  }

  lemma {:induction false} TryMarks(s: Stmt, env: Env, done: bool)
    requires s.Try? && env.level > 0
    ensures var fc := AnalyzeCatches(s.catches, [], Found(s, env), ClauseEnv(s, env));
            var ff := if s.fin.Some? then Analyze(s.fin.value, true, env) else Fx({}, {}, {}, {}, true);
            Kind(Analyze(s, true, env), done) <=
            Kind(ff, done) + Kind(Analyze(s.body, true, BodyEnv(s, env)), done) + Kind(fc, done) + {s.id}
  {
    assert Analyze(s, true, env) == AnalyzeTry(s, true, env);
    hide Analyze, AnalyzeCatches;
  }

  ghost predicate TryShown(s: Stmt, env: Env, owner: Option<string>)
    requires s.Try? && env.level > 0
  {
    && PartIsShown(s, env, owner, s.body, BodyEnv(s, env))
    && (s.fin.Some? ==> PartIsShown(s, env, owner, s.fin.value, env))
    && forall k :: 0 <= k < |s.catches| ==> PartIsShown(s, env, owner, s.catches[k].body, ClauseEnv(s, env))
  }

  lemma {:induction false} ShownTry(s: Stmt, env: Env, owner: Option<string>)
    requires s.Try? && Stands(s, env, owner) && Quiet(Analyze(s, true, env).errs) && Live(env.h, s)
    requires OwnIsShown(s, env, owner)
    ensures AllShown(s, env, owner)
    decreases s, 1
  {
    hide Analyze, AnalyzeCatches, Stands, Live, Abrupt, Found, PartIsShown, AllShown, OwnIsShown, LiftsAll;
    Standing(s, env, owner);
    TryFacts(s, env);
    TryPartStands(s, s.body, env, Abrupt(s.fin, env), CatchTypes(s.catches), owner);
    Shown(s.body, BodyEnv(s, env), None);
    TryPartLifts(s, s.body, env, BodyEnv(s, env), owner);
    PartAll(s, env, owner, s.body, BodyEnv(s, env), None);
    if s.fin.Some? {
      TryPartStands(s, s.fin.value, env, false, [], owner);
      Shown(s.fin.value, env, None);
      TryPartLifts(s, s.fin.value, env, env, owner);
      PartAll(s, env, owner, s.fin.value, env, None);
    }
    forall k | 0 <= k < |s.catches| ensures PartIsShown(s, env, owner, s.catches[k].body, ClauseEnv(s, env)) {
      var c := s.catches[k];
      assert c.body < c;
      ClauseFacts(s.catches, [], Found(s, env), ClauseEnv(s, env), k);
      TryPartStands(s, c.body, env, Abrupt(s.fin, env), [], owner);
      Shown(c.body, ClauseEnv(s, env), None);
      TryPartLifts(s, c.body, env, ClauseEnv(s, env), owner);
      PartAll(s, env, owner, c.body, ClauseEnv(s, env), None);
    }
    TryIsShown(s, env, owner);
  }

  lemma {:induction false} TryIsShown(s: Stmt, env: Env, owner: Option<string>)
    requires s.Try? && Stands(s, env, owner) && Silent(Analyze(s, true, env).errs) && OwnIsShown(s, env, owner)
    requires env.level > 0 && TryShown(s, env, owner)
    ensures AllShown(s, env, owner)
  {
    hide Analyze, AnalyzeCatches, Stands, Abrupt, Found, Executes, Completes;
    var f := Analyze(s, true, env);
    forall id | id in f.reach ensures Executes(env.h, s, owner, id) {
      if id != s.id { TryMark(s, env, owner, id, false); }
    }
    forall id | id in f.done && id in Ids(s) ensures Completes(s, env, owner, id) {
      if id != s.id { TryMark(s, env, owner, id, true); }
    }
  }

  lemma {:induction false} TryMark(s: Stmt, env: Env, owner: Option<string>, id: Id, done: bool)
    requires s.Try? && Stands(s, env, owner) && Silent(Analyze(s, true, env).errs)
    requires env.level > 0 && TryShown(s, env, owner)
    requires id in Kind(Analyze(s, true, env), done) && id != s.id && (done ==> id in Ids(s))
    ensures if done then Completes(s, env, owner, id) else Executes(env.h, s, owner, id)
  {
    hide Analyze, AnalyzeCatches, Stands, Abrupt, Found, Executes, Completes, Outer;
    TryMarks(s, env, done);
    TryFacts(s, env);
    OuterOff(s, env, owner);
    TryOuter(env, Abrupt(s.fin, env), CatchTypes(s.catches));
    TryOuter(env, Abrupt(s.fin, env), []);
    if s.fin.Some? && id in Kind(Analyze(s.fin.value, true, env), done) {
      assert PartIsShown(s, env, owner, s.fin.value, env);
    } else if id in Kind(Analyze(s.body, true, BodyEnv(s, env)), done) {
      assert PartIsShown(s, env, owner, s.body, BodyEnv(s, env));
    } else {
      var k := ClauseMark(s.catches, [], Found(s, env), ClauseEnv(s, env), id, done);
      assert PartIsShown(s, env, owner, s.catches[k].body, ClauseEnv(s, env));
    }
  }

  // ---- Method bodies

  lemma {:induction false} BodyStands(body: Stmt, h: Hierarchy, ctx: Context)
    requires IsPlain(body) && Shape(body) && Unique(body)
    ensures var env := MethodEnv(h, ctx);
            var inner := EnterBlock(body.id, body.tag, body.stmts, env);
            && SeqStands(body.stmts, inner, body.tag) && !Lone(body.stmts) && inner.h == h && inner.level > 0
            && (forall o, t :: !Jumps(o, t, env)) && forall o, t :: !Jumps(o, t, inner)
  {
  }

  /** What a method body marks, some run of it shows, and if it is taken to be able to complete, some run of
      it does. */
  lemma {:induction false} BodyShown(body: Stmt, isVoid: bool, h: Hierarchy, ctx: Context)
    requires IsPlain(body) && Shape(body) && Unique(body) && Live(h, body)
    requires Quiet(AnalyzeBody(body, isVoid, h, ctx).errs)
    ensures var f := AnalyzeBody(body, isVoid, h, ctx);
            && (f.completes <==> Ends(h, body, None, Normal))
            && (forall id :: id in f.reach ==> Executes(h, body, None, id))
            && forall id :: id in f.done ==> Completed(h, body, id)
  {
    hide Analyze, AnalyzeSeq, SeqStands, Live, Jumps, Shape, Unique, FirstUnreachable, EnterBlock;
    var env := MethodEnv(h, ctx);
    var inner := EnterBlock(body.id, body.tag, body.stmts, env);
    BodyStands(body, h, ctx);
    BodyParts(body, isVoid, h, ctx);
    GapReported(body.stmts, true, inner);
    LiveBlock(body, h);
    CompleteSeq(body.stmts, inner, body.tag);
    ShownSeq(body, env, None, inner);
    GroupItself(body, inner);
    BodyIsShown(body, isVoid, h, ctx);
    if Ends(h, body, None, Normal) {
      var r: Run :| IsRun(h, body, None, r) && r.out == Normal;
      BodySound(body, isVoid, h, ctx, r);
    }
  }

  lemma {:induction false} LiveBlock(body: Stmt, h: Hierarchy)
    requires body.Block? && Live(h, body)
    ensures LiveAll(h, body.stmts)
  {
  }

  /** Node id completes in some run of the body. */
  ghost predicate Completed(h: Hierarchy, body: Stmt, id: Id) {
    exists q: Run :: IsRun(h, body, None, q) && Ended(id, q, None, false)
  }

  lemma {:induction false} BodyParts(body: Stmt, isVoid: bool, h: Hierarchy, ctx: Context)
    requires IsPlain(body) && Shape(body) && Unique(body)
    ensures var inner := EnterBlock(body.id, body.tag, body.stmts, MethodEnv(h, ctx));
            var f, fs := AnalyzeBody(body, isVoid, h, ctx), AnalyzeSeq(body.stmts, true, inner);
            && fs.errs + GapErrors(body.stmts, true, true, inner) <= f.errs
            && f.reach <= fs.reach + {body.id} && f.done <= fs.done + {body.id} && f.done <= Ids(body)
            && (body.id in f.done <==> f.completes) && (f.completes ==> fs.completes || body.id in fs.done)
            && body.id !in IdsOf(body.stmts) && Ids(body) == {body.id} + IdsOf(body.stmts)
  {
    hide Analyze, AnalyzeSeq, GapErrors;
    BlockBounded(body, true, MethodEnv(h, ctx));
  }

  lemma {:induction false} BodyIsShown(body: Stmt, isVoid: bool, h: Hierarchy, ctx: Context)
    requires IsPlain(body) && Shape(body) && Unique(body)
    requires var inner := EnterBlock(body.id, body.tag, body.stmts, MethodEnv(h, ctx));
             && StmtsShown(body, MethodEnv(h, ctx), None, inner) && SeqFaithful(body.stmts, inner, body.tag)
             && Executes(h, body, None, body.id)
    ensures var f := AnalyzeBody(body, isVoid, h, ctx);
            && (f.completes ==> Ends(h, body, None, Normal))
            && (forall id :: id in f.reach ==> Executes(h, body, None, id))
            && forall id :: id in f.done ==> Completed(h, body, id)
  {
    hide Analyze, AnalyzeSeq, AnalyzeBody, Jumps, Shape, Unique, EnterBlock, Ended, Executes;
    var env := MethodEnv(h, ctx);
    var inner := EnterBlock(body.id, body.tag, body.stmts, env);
    BodyStands(body, h, ctx);
    BodyParts(body, isVoid, h, ctx);
    var f := AnalyzeBody(body, isVoid, h, ctx);
    if f.completes {
      var o :| SeqEnds(h, body.stmts, None, o) && o.Normal?;
      BlockEnds(h, body, None, o);
    }
    forall id | id in f.done ensures Completed(h, body, id) {
      if id == body.id {
        var q: Run :| IsRun(h, body, None, q) && q.out == Normal;
        ItselfEnded(q);
      } else {
        var q: Run :| Ending(body, env, None, id, q);
        EndedMore(id, q, None, Counts(body, q.out, env), false);
      }
    }
  }

  lemma {:induction false} ItselfEnded(q: Run)
    requires q.out.Normal?
    ensures Ended(q.at.id, q, None, false)
  {
  }
}
