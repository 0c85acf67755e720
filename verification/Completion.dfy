/** The analysis marks nothing in vain: what it takes to be able to complete does so in some run. */
module Completion {
  import opened Classes
  import opened JavaAst
  import opened Options
  import opened Runs
  import opened Flow
  import opened FlowBounds
  import opened FlowSound
  import opened Reporting
  import opened Embeddings

  /** Some run of the try block throws what clause k is the first to catch. */
  ghost predicate ClauseTaken(h: Hierarchy, s: Stmt, k: nat)
    requires s.Try?
  {
    exists p: Run :: IsRun(h, s.body, None, p) && TakenBy(h, s.catches, p.out, k)
  }

  /** No catch clause in s is dead. */
  ghost predicate Live(h: Hierarchy, s: Stmt) {
    match s
    case Block(_, _, ss) => LiveAll(h, ss)
    case If(_, _, t, e) => Live(h, t) && (e.Some? ==> Live(h, e.value))
    case While(_, _, b) => Live(h, b)
    case Do(_, b, _) => Live(h, b)
    case For(_, _, _, _, b) => Live(h, b)
    case Foreach(_, _, _, _, b) => Live(h, b)
    case Switch(_, _, _, gs, _) => LiveAll(h, gs)
    case Try(_, b, cs, f) =>
      && Live(h, b) && LiveCatches(h, cs) && (f.Some? ==> Live(h, f.value))
      && forall k :: 0 <= k < |cs| ==> ClauseTaken(h, s, k)
    case Sync(_, _, b) => Live(h, b)
    case _ => true
  }

  ghost predicate LiveAll(h: Hierarchy, ss: seq<Stmt>) {
    ss != [] ==> Live(h, ss[0]) && LiveAll(h, ss[1..])
  }

  ghost predicate LiveCatches(h: Hierarchy, cs: seq<Catch>) {
    cs != [] ==>
      var c := cs[0];
      assert c.body < c;
      Live(h, c.body) && LiveCatches(h, cs[1..])
  }

  // ---- Jumps

  ghost predicate Hits(x: Option<Target>, t: Id, env: Env) {
    x.Some? && x.value.id == t && env.abrupt < x.value.level
  }

  /** Outcome o is a jump that marks t. */
  ghost predicate Jumps(o: Outcome, t: Id, env: Env) {
    match o
    case BreakOut(tag) => Hits(BreakTarget(tag, env), t, env)
    case ContinueOut(tag) => Hits(ContinueTarget(tag, env), t, env)
    case _ => false
  }

  // ---- Where a statement stands

  /** The jump targets of env are blocks further out, but for those in `own`. */
  ghost predicate Off(ids: set<Id>, own: set<Id>, env: Env) {
    && env.top !in ids
    && (env.breaks.Some? ==> env.breaks.value.id !in ids)
    && (env.continues.Some? ==> env.continues.value.id !in ids - own)
    && forall l :: l in env.labels ==>
         && env.labels[l].target.id !in ids
         && (env.labels[l].loopBody.Some? ==> env.labels[l].loopBody.value !in ids - own)
  }

  /** Targets have lower levels, and a label around a loop that is open comes with a continue target. */
  ghost predicate Nested(env: Env, own: set<Id>) {
    && (env.breaks.Some? ==> env.breaks.value.level < env.level)
    && (env.continues.Some? ==> env.continues.value.level < env.level)
    && forall l :: l in env.labels ==>
         && env.labels[l].target.level < env.level
         && (env.labels[l].loopBody.Some? ==> env.labels[l].loopBody.value in own || env.continues.Some?)
  }

  /** The label of the block around a loop, and no other, stands for its body. */
  ghost predicate Named(s: Stmt, env: Env, owner: Option<string>)
    requires IsLoop(s)
  {
    && (owner.Some? ==> owner.value in env.labels && env.labels[owner.value].loopBody == Some(s.body.id))
    && (env.continues.Some? ==> env.continues.value.id != s.body.id)
    && forall l :: l in env.labels && env.labels[l].loopBody == Some(s.body.id) ==> owner == Some(l)
  }

  function LoopIds(s: Stmt): set<Id> {
    if IsLoop(s) then {s.body.id} else {}
  }

  ghost predicate Stands(s: Stmt, env: Env, owner: Option<string>) {
    && env.level > 0 && Shape(s) && Unique(s)
    && Off(Ids(s), if s.Block? then {s.id} else LoopIds(s), env) && Nested(env, LoopIds(s))
    && (IsLoop(s) ==> Named(s, env, owner))
  }

  lemma {:induction false} Standing(s: Stmt, env: Env, owner: Option<string>)
    requires Stands(s, env, owner)
    ensures env.level > 0 && Shape(s)
  {
  }

  ghost predicate Quiet(errs: set<Error>) {
    Silent(errs) && NamesResolve(errs)
  }

  // ---- What is to be shown

  /** s ends normally, or by a jump that counts as its completion. */
  ghost predicate Counts(s: Stmt, o: Outcome, env: Env) {
    o.Normal? || Jumps(o, s.id, env) || (IsLoop(s) && Jumps(o, env.top, env))
  }

  ghost predicate Finishes(s: Stmt, env: Env, owner: Option<string>) {
    exists o :: Ends(env.h, s, owner, o) && Counts(s, o, env)
  }

  /** s jumps to t; for the block around a loop, leaving the loop will do. */
  ghost predicate Goes(s: Stmt, env: Env, owner: Option<string>, t: Id) {
    exists o :: Ends(env.h, s, owner, o) && (Jumps(o, t, env) || (IsLoop(s) && t == env.top && o.Normal?))
  }

  ghost predicate Faithful(s: Stmt, env: Env, owner: Option<string>)
    requires env.level > 0
  {
    var f := Analyze(s, true, env);
    && (f.completes ==> Finishes(s, env, owner))
    && forall t :: t in f.done && t !in Ids(s) ==> Goes(s, env, owner, t)
  }

  lemma {:induction false} Complete(s: Stmt, env: Env, owner: Option<string>)
    requires Stands(s, env, owner) && Quiet(Analyze(s, true, env).errs) && Live(env.h, s)
    ensures Faithful(s, env, owner)
    decreases s, 2
  {
    match s
    case Block(_, _, _) => CompleteBlock(s, env, owner);
    case If(_, _, _, _) => CompleteIf(s, env, owner);
    case While(_, _, _) => CompleteLoop(s, env, owner);
    case For(_, _, _, _, _) => CompleteLoop(s, env, owner);
    case Foreach(_, _, _, _, _) => CompleteLoop(s, env, owner);
    case Do(_, _, _) => CompleteLoop(s, env, owner);
    case Switch(_, _, _, _, _) => CompleteSwitch(s, env, owner);
    case Try(_, _, _, _) => CompleteTry(s, env, owner);
    case Sync(_, _, _) => CompleteSync(s, env, owner);
    case _ => CompleteLeaf(s, env, owner);
  }

  lemma {:induction false} CompleteLeaf(s: Stmt, env: Env, owner: Option<string>)
    requires env.level > 0 && IsLeaf(s)
    ensures Faithful(s, env, owner)
  {
    var o := match s
      case Break(_, target) => BreakOut(target)
      case Continue(_, target) => ContinueOut(target)
      case _ => Normal;
    var q := Run(s, [], 0, o);
    if !s.Return? && !s.Throw? {
      assert IsRun(env.h, s, owner, q);
      assert Ends(env.h, s, owner, o);
    }
  }

  // ---- Parts in the same environment

  lemma {:induction false} OffPart(ids: set<Id>, own: set<Id>, part: set<Id>, more: set<Id>, env: Env)
    requires Off(ids, own, env) && part <= ids && own * part <= more
    ensures Off(part, more, env)
  {
  }

  /** A block that is no loop body and whose statements complete ends normally. */
  lemma {:induction false} PlainFinishes(b: Stmt, env: Env, owner: Option<string>)
    requires b.Block? && Off({b.id}, {}, env) && Finishes(b, env, owner)
    ensures Ends(env.h, b, owner, Normal)
  {
  }

  lemma {:induction false} SyncParts(s: Stmt, env: Env)
    requires s.Sync? && env.level > 0
    ensures var f, fb := Analyze(s, true, env), Analyze(s.body, true, env);
            fb.errs <= f.errs && (f.completes ==> fb.completes) && f.done <= fb.done + {s.id}
  {
  }

  lemma {:induction false} CompleteSync(s: Stmt, env: Env, owner: Option<string>)
    requires s.Sync? && Stands(s, env, owner) && Quiet(Analyze(s, true, env).errs) && Live(env.h, s)
    ensures Faithful(s, env, owner)
    decreases s, 1
  {
    hide Analyze;
    SyncParts(s, env);
    PartStands(s, s.body, env, owner);
    Complete(s.body, env, None);
    PartFaithful(s, s.body, env, owner);
  }

  /** A branch of an if or the body of a synchronized statement. */
  predicate IsBranch(s: Stmt, b: Stmt) {
    (s.If? && (b == s.thn || (s.els.Some? && b == s.els.value))) || (s.Sync? && b == s.body)
  }

  lemma {:induction false} PartStands(s: Stmt, b: Stmt, env: Env, owner: Option<string>)
    requires Stands(s, env, owner) && IsBranch(s, b)
    ensures b.Block? && Stands(b, env, None) && Ids(b) <= Ids(s) && Off({b.id}, {}, env)
  {
    BranchParts(s, b);
    OffPart(Ids(s), {}, Ids(b), {b.id}, env);
    OffPart(Ids(s), {}, {b.id}, {}, env);
  }

  lemma {:induction false} BranchParts(s: Stmt, b: Stmt)
    requires Shape(s) && Unique(s) && IsBranch(s, b)
    ensures b.Block? && Shape(b) && Unique(b) && b.id in Ids(b) && Ids(b) <= Ids(s)
  {
  }

  /** Whatever a branch does, the statement does. */
  lemma {:induction false} PartFaithful(s: Stmt, b: Stmt, env: Env, owner: Option<string>)
    requires IsBranch(s, b) && b.Block? && env.level > 0 && Ids(b) <= Ids(s) && Off({b.id}, {}, env)
    requires Faithful(b, env, None)
    ensures var f := Analyze(b, true, env);
            && (f.completes ==> Ends(env.h, s, owner, Normal))
            && forall t :: t in f.done && t !in Ids(s) ==> Goes(s, env, owner, t)
  {
    hide Analyze, Jumps;
    var f := Analyze(b, true, env);
    if f.completes {
      PlainFinishes(b, env, None);
      BranchEnds(s, b, env.h, owner, Normal);
    }
    forall t | t in f.done && t !in Ids(s) ensures Goes(s, env, owner, t) {
      var o :| Ends(env.h, b, None, o) && Jumps(o, t, env);
      BranchEnds(s, b, env.h, owner, o);
    }
  }

  lemma {:induction false} BranchEnds(s: Stmt, b: Stmt, h: Hierarchy, owner: Option<string>, o: Outcome)
    requires IsBranch(s, b) && Ends(h, b, None, o)
    ensures Ends(h, s, owner, o)
  {
    hide Valid;
    var p: Run :| IsRun(h, b, None, p) && p.out == o;
    var q := PartEmbed(h, s, owner, p);
  }

  lemma {:induction false} IfParts(s: Stmt, env: Env)
    requires s.If? && env.level > 0
    ensures var f, ft := Analyze(s, true, env), Analyze(s.thn, true, env);
            && ft.errs <= f.errs
            && (s.els.Some? ==>
                  var fe := Analyze(s.els.value, true, env);
                  && fe.errs <= f.errs && f.done <= ft.done + fe.done + {s.id}
                  && (f.completes ==> ft.completes || fe.completes))
            && (s.els.None? ==> f.done <= ft.done + {s.id})
  {
    assert Analyze(s, true, env) == AnalyzeIf(s, true, env);
    hide Analyze;
  }

  lemma {:induction false} CompleteIf(s: Stmt, env: Env, owner: Option<string>)
    requires s.If? && Stands(s, env, owner) && Quiet(Analyze(s, true, env).errs) && Live(env.h, s)
    ensures Faithful(s, env, owner)
    decreases s, 1
  {
    hide Analyze, Valid;
    IfParts(s, env);
    PartStands(s, s.thn, env, owner);
    Complete(s.thn, env, None);
    PartFaithful(s, s.thn, env, owner);
    if s.els.Some? {
      PartStands(s, s.els.value, env, owner);
      Complete(s.els.value, env, None);
      PartFaithful(s, s.els.value, env, owner);
    } else {
      NoElse(s, env.h, owner);
    }
  }

  lemma {:induction false} NoElse(s: Stmt, h: Hierarchy, owner: Option<string>)
    requires s.If? && s.els.None?
    ensures Ends(h, s, owner, Normal)
  {
    assert IsRun(h, s, owner, Run(s, [], 0, Normal));
  }

  // ---- Statements in order

  ghost predicate SeqEnds(h: Hierarchy, ss: seq<Stmt>, owner: Option<string>, o: Outcome) {
    exists kids :: ValidSeq(h, kids, ss, owner, o)
  }

  lemma {:induction false} SeqNothing(h: Hierarchy, owner: Option<string>)
    ensures SeqEnds(h, [], owner, Normal)
  {
    assert ValidSeq(h, [], [], owner, Normal);
  }

  lemma {:induction false} SeqStop(h: Hierarchy, ss: seq<Stmt>, owner: Option<string>, o: Outcome)
    requires ss != [] && Ends(h, ss[0], owner, o) && (o.Normal? ==> |ss| == 1)
    ensures SeqEnds(h, ss, owner, o)
  {
    hide Valid;
    var p: Run :| IsRun(h, ss[0], owner, p) && p.out == o;
    assert [p][1..] == [];
    if o.Normal? { assert ss[1..] == []; }
    assert ValidSeq(h, [p], ss, owner, o);
  }

  lemma {:induction false} SeqCons(h: Hierarchy, ss: seq<Stmt>, owner: Option<string>, o: Outcome)
    requires ss != [] && Ends(h, ss[0], owner, Normal) && SeqEnds(h, ss[1..], owner, o)
    ensures SeqEnds(h, ss, owner, o)
  {
    hide Valid;
    var p: Run :| IsRun(h, ss[0], owner, p) && p.out == Normal;
    var kids :| ValidSeq(h, kids, ss[1..], owner, o);
    assert ([p] + kids)[1..] == kids;
    assert ValidSeq(h, [p] + kids, ss, owner, o);
  }

  predicate Lone(ss: seq<Stmt>) {
    |ss| == 1 && IsLoop(ss[0])
  }

  function SeqLoopIds(ss: seq<Stmt>): set<Id> {
    if Lone(ss) then {ss[0].body.id} else {}
  }

  ghost predicate SeqStands(ss: seq<Stmt>, env: Env, owner: Option<string>) {
    && env.level > 0 && UniqueAll(ss)
    && (forall i :: 0 <= i < |ss| ==> Shape(ss[i]) && (IsLoop(ss[i]) ==> |ss| == 1))
    && Off(IdsOf(ss), SeqLoopIds(ss), env) && Nested(env, SeqLoopIds(ss))
    && (Lone(ss) ==> Named(ss[0], env, owner))
  }

  ghost predicate SeqFinishes(ss: seq<Stmt>, env: Env, owner: Option<string>) {
    exists o :: SeqEnds(env.h, ss, owner, o) && (o.Normal? || (Lone(ss) && Jumps(o, env.top, env)))
  }

  ghost predicate SeqGoes(ss: seq<Stmt>, env: Env, owner: Option<string>, t: Id) {
    exists o :: SeqEnds(env.h, ss, owner, o) && (Jumps(o, t, env) || (Lone(ss) && t == env.top && o.Normal?))
  }

  ghost predicate SeqFaithful(ss: seq<Stmt>, env: Env, owner: Option<string>)
    requires env.level > 0
  {
    var f := AnalyzeSeq(ss, true, env);
    && (f.completes ==> SeqFinishes(ss, env, owner))
    && forall t :: t in f.done && t !in IdsOf(ss) ==> SeqGoes(ss, env, owner, t)
  }

  /** The first statement can complete, or is the last. */
  lemma {:induction false} SeqQuiet(ss: seq<Stmt>, env: Env)
    requires ss != [] && env.level > 0 && FirstUnreachable(ss, true, env).None?
    ensures var f, f0 := AnalyzeSeq(ss, true, env), Analyze(ss[0], true, env);
            && f0.errs <= f.errs && (ss[1..] != [] ==> f0.completes)
            && (ss[1..] == [] ==> f.completes == f0.completes && f.done == f0.done)
            && (f0.completes ==>
                  var rest := AnalyzeSeq(ss[1..], true, env);
                  && FirstUnreachable(ss[1..], true, env).None? && rest.errs <= f.errs
                  && f.done == f0.done + rest.done && f.completes == rest.completes)
  {
    hide Analyze;
  }

  lemma {:induction false} FirstStands(ss: seq<Stmt>, env: Env, owner: Option<string>)
    requires ss != [] && SeqStands(ss, env, owner)
    ensures Stands(ss[0], env, owner)
    ensures !IsLoop(ss[0]) ==> Off({ss[0].id}, {}, env)
    ensures ss[1..] != [] ==> !IsLoop(ss[0]) && SeqStands(ss[1..], env, owner)
  {
    hide Unique, Shape;
    IdIn(ss[0]);
    var own := if ss[0].Block? then {ss[0].id} else LoopIds(ss[0]);
    OffPart(IdsOf(ss), SeqLoopIds(ss), Ids(ss[0]), own, env);
    if !IsLoop(ss[0]) { OffPart(IdsOf(ss), {}, {ss[0].id}, {}, env); }
    if ss[1..] != [] {
      assert forall i :: 0 <= i < |ss| - 1 ==> ss[1..][i] == ss[i + 1];
      OffPart(IdsOf(ss), {}, IdsOf(ss[1..]), {}, env);
    }
  }

  lemma {:induction false} IdIn(s: Stmt)
    ensures s.id in Ids(s)
  {
  }

  /** A statement that counts as completed before others ends normally. */
  lemma {:induction false} FinishesNormally(s: Stmt, env: Env, owner: Option<string>)
    requires !IsLoop(s) && Off({s.id}, {}, env) && Finishes(s, env, owner)
    ensures Ends(env.h, s, owner, Normal)
  {
  }

  lemma {:induction false} SeqStanding(ss: seq<Stmt>, env: Env, owner: Option<string>)
    requires SeqStands(ss, env, owner)
    ensures env.level > 0 && forall i :: 0 <= i < |ss| ==> IsLoop(ss[i]) ==> |ss| == 1
    ensures forall o :: Lone(ss) ==> !Jumps(o, ss[0].id, env)
    ensures ss != [] ==> IdsOf(ss) == Ids(ss[0]) + IdsOf(ss[1..])
  {
    if Lone(ss) {
      IdIn(ss[0]);
      LoopApart(ss[0]);
      assert ss[0].id in IdsOf(ss) && ss[0].id !in SeqLoopIds(ss);
    }
  }

  lemma {:induction false} LoopApart(s: Stmt)
    requires IsLoop(s) && Unique(s)
    ensures s.id !in Ids(s.body) && s.id != s.body.id && Ids(s.body) <= Ids(s) && s.body.id in Ids(s)
  {
    IdIn(s.body);
  }

  lemma {:induction false} CompleteSeq(ss: seq<Stmt>, env: Env, owner: Option<string>)
    requires SeqStands(ss, env, owner) && Quiet(AnalyzeSeq(ss, true, env).errs) && LiveAll(env.h, ss)
    requires FirstUnreachable(ss, true, env).None?
    ensures SeqFaithful(ss, env, owner)
    decreases ss, 0
  {
    hide Analyze, AnalyzeSeq, SeqStands, Stands, Live, Jumps;
    SeqStanding(ss, env, owner);
    if ss == [] {
      SeqNothing(env.h, owner);
      NothingAnalyzed(env);
    } else {
      SeqQuiet(ss, env);
      FirstStands(ss, env, owner);
      Complete(ss[0], env, owner);
      if ss[1..] == [] {
        OneFaithful(ss, env, owner);
      } else {
        CompleteSeq(ss[1..], env, owner);
        FinishesNormally(ss[0], env, owner);
        MoreFaithful(ss, env, owner);
      }
    }
  }

  lemma {:induction false} NothingAnalyzed(env: Env)
    requires env.level > 0
    ensures AnalyzeSeq([], true, env).done == {}
  {
  }

  lemma {:induction false} OneFaithful(ss: seq<Stmt>, env: Env, owner: Option<string>)
    requires env.level > 0 && ss != [] && ss[1..] == [] && Faithful(ss[0], env, owner)
    requires var f, f0 := AnalyzeSeq(ss, true, env), Analyze(ss[0], true, env);
             f.completes == f0.completes && f.done == f0.done
    requires !IsLoop(ss[0]) ==> Off({ss[0].id}, {}, env)
    requires IsLoop(ss[0]) ==> forall o :: !Jumps(o, ss[0].id, env)
    ensures SeqFaithful(ss, env, owner)
  {
    hide Analyze, AnalyzeSeq, Jumps;
    var f := AnalyzeSeq(ss, true, env);
    assert Ids(ss[0]) == IdsOf(ss);
    if f.completes {
      if IsLoop(ss[0]) {
        var o :| Ends(env.h, ss[0], owner, o) && Counts(ss[0], o, env);
        SeqStop(env.h, ss, owner, o);
      } else {
        FinishesNormally(ss[0], env, owner);
        SeqStop(env.h, ss, owner, Normal);
      }
    }
    forall t | t in f.done && t !in IdsOf(ss) ensures SeqGoes(ss, env, owner, t) {
      var o :| Ends(env.h, ss[0], owner, o) && (Jumps(o, t, env) || (IsLoop(ss[0]) && t == env.top && o.Normal?));
      SeqStop(env.h, ss, owner, o);
    }
  }

  lemma {:induction false} MoreFaithful(ss: seq<Stmt>, env: Env, owner: Option<string>)
    requires env.level > 0 && |ss| > 1 && !IsLoop(ss[0]) && !Lone(ss[1..])
    requires Faithful(ss[0], env, owner) && Ends(env.h, ss[0], owner, Normal) && SeqFaithful(ss[1..], env, owner)
    requires var f, rest := AnalyzeSeq(ss, true, env), AnalyzeSeq(ss[1..], true, env);
             f.completes == rest.completes && f.done == Analyze(ss[0], true, env).done + rest.done
    ensures SeqFaithful(ss, env, owner)
  {
    hide Analyze, AnalyzeSeq;
    var f := AnalyzeSeq(ss, true, env);
    if f.completes { SeqCons(env.h, ss, owner, Normal); }
    forall t | t in f.done && t !in IdsOf(ss) ensures SeqGoes(ss, env, owner, t) {
      if t in Analyze(ss[0], true, env).done {
        var o :| Ends(env.h, ss[0], owner, o) && Jumps(o, t, env);
        SeqStop(env.h, ss, owner, o);
      } else {
        var o :| SeqEnds(env.h, ss[1..], owner, o) && Jumps(o, t, env);
        SeqCons(env.h, ss, owner, o);
      }
    }
  }

  lemma {:induction false} BlockEnds(h: Hierarchy, s: Stmt, owner: Option<string>, o: Outcome)
    requires s.Block? && SeqEnds(h, s.stmts, s.tag, o)
    ensures Ends(h, s, owner, LeaveBlock(o, s.tag))
  {
    hide ValidSeq;
    var kids :| ValidSeq(h, kids, s.stmts, s.tag, o);
    assert IsRun(h, s, owner, Run(s, kids, 0, LeaveBlock(o, s.tag)));
  }

  lemma {:induction false} BlockParts(s: Stmt, env: Env)
    requires s.Block? && env.level > 0
    ensures var f, inner := Analyze(s, true, env), EnterBlock(s.id, s.tag, s.stmts, env);
            var fs := AnalyzeSeq(s.stmts, true, inner);
            && fs.errs + LabelErrors(s.id, s.tag, env) + GapErrors(s.stmts, true, true, inner) <= f.errs
            && (f.completes ==> fs.completes || s.id in fs.done) && f.done <= fs.done + {s.id}
  {
    hide AnalyzeSeq, GapErrors;
  }

  lemma {:induction false} BlockStands(s: Stmt, env: Env, owner: Option<string>)
    requires s.Block? && Stands(s, env, owner) && NamesResolve(LabelErrors(s.id, s.tag, env))
    ensures SeqStands(s.stmts, EnterBlock(s.id, s.tag, s.stmts, env), s.tag)
    ensures s.id !in IdsOf(s.stmts) && Ids(s) == {s.id} + IdsOf(s.stmts)
    ensures EnterBlock(s.id, s.tag, s.stmts, env).h == env.h
    ensures !(s.tag.Some? && s.tag.value in env.labels)
  {
    NotDuplicate(s.id, s.tag, env);
    if Lone(s.stmts) { LoneBody(s.stmts); }
  }

  lemma {:induction false} NotDuplicate(id: Id, tag: Option<string>, env: Env)
    requires NamesResolve(LabelErrors(id, tag, env))
    ensures !(tag.Some? && tag.value in env.labels)
  {
    assert tag.Some? && tag.value in env.labels ==> DuplicateLabel(id) in LabelErrors(id, tag, env);
  }

  lemma {:induction false} LoneBody(ss: seq<Stmt>)
    requires Lone(ss)
    ensures ss[0].body.id in IdsOf(ss)
  {
    assert ss[0].body.id in Ids(ss[0].body);
  }

  /** A jump from inside a block to further out leaves the block. */
  lemma {:induction false} JumpsOut(s: Stmt, env: Env, owner: Option<string>, o: Outcome, t: Id)
    requires s.Block? && Stands(s, env, owner) && !(s.tag.Some? && s.tag.value in env.labels)
    requires Jumps(o, t, EnterBlock(s.id, s.tag, s.stmts, env))
    ensures t !in Ids(s) ==> LeaveBlock(o, s.tag) == o && Jumps(o, t, env)
    ensures t == s.id ==> LeaveBlock(o, s.tag).Normal? || (LeaveBlock(o, s.tag) == o && Jumps(o, t, env))
  {
    assert s.id !in IdsOf(s.stmts) && s.id in Ids(s) && IdsOf(s.stmts) <= Ids(s);
    if s.stmts != [] && IsLoop(s.stmts[0]) { LoneBody(s.stmts); }
  }

  lemma {:induction false} CompleteBlock(s: Stmt, env: Env, owner: Option<string>)
    requires s.Block? && Stands(s, env, owner) && Quiet(Analyze(s, true, env).errs) && Live(env.h, s)
    ensures Faithful(s, env, owner)
    decreases s, 1
  {
    hide Analyze, AnalyzeSeq, GapErrors, LabelErrors, Stands, SeqStands, Jumps, EnterBlock, Ends, Off;
    Standing(s, env, owner);
    var inner := EnterBlock(s.id, s.tag, s.stmts, env);
    BlockParts(s, env);
    BlockStands(s, env, owner);
    GapReported(s.stmts, true, inner);
    CompleteSeq(s.stmts, inner, s.tag);
    BlockFaithful(s, env, owner);
  }

  lemma {:induction false} BlockFaithful(s: Stmt, env: Env, owner: Option<string>)
    requires s.Block? && Stands(s, env, owner) && !(s.tag.Some? && s.tag.value in env.labels)
    requires s.id !in IdsOf(s.stmts) && Ids(s) == {s.id} + IdsOf(s.stmts)
    requires SeqFaithful(s.stmts, EnterBlock(s.id, s.tag, s.stmts, env), s.tag)
    ensures Faithful(s, env, owner)
  {
    hide Analyze, AnalyzeSeq, Stands, Jumps, SeqEnds;
    Standing(s, env, owner);
    var inner := EnterBlock(s.id, s.tag, s.stmts, env);
    var f, fs := Analyze(s, true, env), AnalyzeSeq(s.stmts, true, inner);
    BlockParts(s, env);
    if f.completes {
      var o :| SeqEnds(env.h, s.stmts, s.tag, o) && (o.Normal? || Jumps(o, s.id, inner));
      BlockEnds(env.h, s, owner, o);
      if !o.Normal? { JumpsOut(s, env, owner, o, s.id); }
    }
    forall t | t in f.done && t !in Ids(s) ensures Goes(s, env, owner, t) {
      assert SeqGoes(s.stmts, inner, s.tag, t);
      var o :| SeqEnds(env.h, s.stmts, s.tag, o) && Jumps(o, t, inner);
      BlockEnds(env.h, s, owner, o);
      JumpsOut(s, env, owner, o, t);
    }
  }

  // ---- Loops

  ghost predicate Enters(s: Stmt) {
    (s.While? ==> CanBe(s.cond, true)) && (s.For? ==> CanBe(ForCondition(s.end), true))
  }

  ghost predicate CanExit(s: Stmt, f: Fx) {
    match s
    case While(_, c, _) => CanBe(c, false)
    case For(_, _, end, _, _) => CanBe(ForCondition(end), false)
    case Do(_, _, c) => f.completes && CanBe(c, false)
    case _ => true
  }

  lemma {:induction false} LoopFacts(s: Stmt, env: Env)
    requires IsLoop(s) && Shape(s) && env.level > 0 && Silent(Analyze(s, true, env).errs)
    ensures var f, fb := Analyze(s, true, env), Analyze(s.body, true, EnterLoop(s.body.id, env));
            && Enters(s) && fb.errs <= f.errs && f.done <= fb.done + {s.id}
            && (f.completes ==> CanExit(s, fb) || env.top in fb.done)
  {
    match s
    case While(id, c, b) =>
      RoundFacts(id, Eval(id, c.throws, env), b, CanBe(c, true), CanBe(c, false), env);
    case For(_, _, _, _, _) => ForFacts(s, env);
    case Foreach(_, _, _, _, _) =>
    case Do(_, _, _) =>
  }

  lemma {:induction false} RoundFacts(id: Id, head: Fx, b: Stmt, enters: bool, exits: bool, env: Env)
    requires env.level > 0 && Silent(AnalyzeLoop(id, head, b, true, enters, exits, env).errs) && head.done == {}
    ensures var f := AnalyzeLoop(id, head, b, true, enters, exits, env);
            var fb := Analyze(b, true, EnterLoop(b.id, env));
            && enters && fb.errs <= f.errs && f.done <= fb.done + {id} && (f.completes ==> exits || env.top in fb.done)
  {
    hide Analyze;
    MissedBodyReported(id, head, b, enters, exits, env);
  }

  lemma {:induction false} ForFacts(s: Stmt, env: Env)
    requires s.For? && Shape(s) && env.level > 0 && Silent(AnalyzeFor(s, true, env).errs)
    ensures var f, fb := AnalyzeFor(s, true, env), Analyze(s.body, true, EnterLoop(s.body.id, env));
            && Enters(s) && fb.errs <= f.errs && f.done <= fb.done + {s.id}
            && (f.completes ==> CanExit(s, fb) || env.top in fb.done)
  {
    hide Analyze, AnalyzeHeaders, AnalyzeLoop;
    var c := ForCondition(s.end);
    var head := AnalyzeHeaders(s.init, env).Then(Eval(s.id, c.throws, env));
    HeadersBounded(s.init, env);
    HeadersBounded(s.update, env);
    RoundFacts(s.id, head, s.body, CanBe(c, true), CanBe(c, false), env);
  }

  lemma {:induction false} LoopStands(s: Stmt, env: Env, owner: Option<string>)
    requires IsLoop(s) && Stands(s, env, owner)
    ensures Stands(s.body, EnterLoop(s.body.id, env), None) && s.body.Block?
    ensures Ids(s.body) <= Ids(s) && s.body.id in Ids(s.body) && env.top !in Ids(s)
  {
    LoopApart(s);
    LoopBody(s);
  }

  lemma {:induction false} LoopBody(s: Stmt)
    requires IsLoop(s) && Shape(s) && Unique(s)
    ensures s.body.Block? && Shape(s.body) && Unique(s.body) && s.body.id in Ids(s.body)
  {
    IdIn(s.body);
  }

  /** A jump from the body of a loop leaves the loop, or starts its next round. */
  lemma {:induction false} LoopJumps(s: Stmt, env: Env, owner: Option<string>, o: Outcome, t: Id)
    requires IsLoop(s) && Stands(s, env, owner) && Jumps(o, t, EnterLoop(s.body.id, env))
    ensures t !in Ids(s) ==>
              (t == env.top && LoopEnd(o, owner).Normal?) || (LoopEnd(o, owner) == o && Jumps(o, t, env))
    ensures t == s.body.id ==> Repeats(o, owner)
  {
    LoopApart(s);
  }

  lemma {:induction false} LoopLeft(s: Stmt, h: Hierarchy, owner: Option<string>, o: Outcome)
    requires IsLoop(s) && Shape(s) && Enters(s) && Ends(h, s.body, None, o)
    ensures Ends(h, s, owner, LoopEnd(o, owner))
  {
    hide Valid;
    var p: Run :| IsRun(h, s.body, None, p) && p.out == o;
    var q := LoopEmbed(h, s, owner, p);
  }

  /** The loop can end at its condition. */
  lemma {:induction false} LoopExits(s: Stmt, env: Env, owner: Option<string>)
    requires IsLoop(s) && Stands(s, env, owner) && Faithful(s.body, EnterLoop(s.body.id, env), None)
    requires CanExit(s, Analyze(s.body, true, EnterLoop(s.body.id, env)))
    ensures Ends(env.h, s, owner, Normal)
  {
    hide Analyze, Valid;
    var inner := EnterLoop(s.body.id, env);
    if s.Do? {
      LoopStands(s, env, owner);
      var o :| Ends(env.h, s.body, None, o) && Counts(s.body, o, inner);
      if !o.Normal? { LoopJumps(s, env, owner, o, s.body.id); }
      var p: Run :| IsRun(env.h, s.body, None, p) && p.out == o;
      DoEnds(env.h, s, owner, p);
    } else {
      LoopEnds(env.h, s, owner);
    }
  }

  lemma {:induction false} CompleteLoop(s: Stmt, env: Env, owner: Option<string>)
    requires IsLoop(s) && Stands(s, env, owner) && Quiet(Analyze(s, true, env).errs) && Live(env.h, s)
    ensures Faithful(s, env, owner)
    decreases s, 1
  {
    hide Analyze, Stands, Jumps, Ends, Off, Enters;
    Standing(s, env, owner);
    LoopFacts(s, env);
    LoopStands(s, env, owner);
    Complete(s.body, EnterLoop(s.body.id, env), None);
    LoopFaithful(s, env, owner);
  }

  lemma {:induction false} LoopFaithful(s: Stmt, env: Env, owner: Option<string>)
    requires IsLoop(s) && Stands(s, env, owner) && Faithful(s.body, EnterLoop(s.body.id, env), None)
    requires var f, fb := Analyze(s, true, env), Analyze(s.body, true, EnterLoop(s.body.id, env));
             Enters(s) && f.done <= fb.done + {s.id} && (f.completes ==> CanExit(s, fb) || env.top in fb.done)
    ensures Faithful(s, env, owner)
  {
    hide Analyze, Stands, Jumps, Ends, Off, Enters, LoopEnd;
    Standing(s, env, owner);
    LoopStands(s, env, owner);
    var inner := EnterLoop(s.body.id, env);
    var f, fb := Analyze(s, true, env), Analyze(s.body, true, inner);
    if f.completes {
      if CanExit(s, fb) {
        LoopExits(s, env, owner);
      } else {
        BodyGoes(s, env, owner, env.top);
      }
    }
    forall t | t in f.done && t !in Ids(s) ensures Goes(s, env, owner, t) {
      BodyGoes(s, env, owner, t);
    }
  }

  lemma {:induction false} BodyGoes(s: Stmt, env: Env, owner: Option<string>, t: Id)
    requires IsLoop(s) && Stands(s, env, owner) && t !in Ids(s) && Enters(s)
    requires Goes(s.body, EnterLoop(s.body.id, env), None, t)
    ensures Goes(s, env, owner, t)
  {
    hide Jumps, Ends, Off, Enters, LoopEnd;
    LoopStands(s, env, owner);
    var o :| Ends(env.h, s.body, None, o) && Jumps(o, t, EnterLoop(s.body.id, env));
    LoopJumps(s, env, owner, o, t);
    LoopLeft(s, env.h, owner, o);
  }

  // ---- Switch statements

  /** The statements of a group are processed here. */
  function GroupEnv(s: Stmt, env: Env): Env
    requires s.Switch?
  {
    EnterSwitch(s.blockId, env).(level := env.level + 2)
  }

  lemma {:induction false} GroupFacts(gs: seq<Stmt>, last: bool, env: Env, k: nat)
    requires k < |gs| && forall i :: 0 <= i < |gs| ==> gs[i].Block?
    ensures var inner := env.(level := env.level + 1);
            var fk, fg := AnalyzeSeq(gs[k].stmts, true, inner), AnalyzeGroups(gs, true, last, env);
            && fk.errs + GapErrors(gs[k].stmts, true, true, inner) <= fg.errs
            && (k == |gs| - 1 ==> fg.completes == fk.completes)
    decreases k
  {
    hide AnalyzeSeq, GapErrors;
    if k == 0 {
      if |gs| == 1 { assert gs[1..] == []; }
    } else {
      var done := AnalyzeSeq(gs[0].stmts, true, env.(level := env.level + 1)).completes;
      GroupFacts(gs[1..], done, env, k - 1);
      assert gs[1..][k - 1] == gs[k];
    }
  }

  /** A jump out of the groups comes from one of them. */
  lemma {:induction false} FromGroup(gs: seq<Stmt>, last: bool, env: Env, t: Id) returns (k: nat)
    requires forall i :: 0 <= i < |gs| ==> gs[i].Block?
    requires t in AnalyzeGroups(gs, true, last, env).done && t !in IdsOf(gs)
    ensures k < |gs| && t in AnalyzeSeq(gs[k].stmts, true, env.(level := env.level + 1)).done
    decreases |gs|
  {
    hide AnalyzeSeq, GapErrors;
    var f := AnalyzeSeq(gs[0].stmts, true, env.(level := env.level + 1));
    if t in f.done {
      k := 0;
    } else {
      IdIn(gs[0]);
      var j := FromGroup(gs[1..], f.completes, env, t);
      k := j + 1;
    }
  }

  lemma {:induction false} GroupIn(gs: seq<Stmt>, k: nat, h: Hierarchy)
    requires k < |gs| && UniqueAll(gs) && LiveAll(h, gs)
    ensures Unique(gs[k]) && Ids(gs[k]) <= IdsOf(gs) && Live(h, gs[k])
    decreases k
  {
    if k > 0 {
      GroupIn(gs[1..], k - 1, h);
    }
  }

  lemma {:induction false} GroupStands(s: Stmt, env: Env, owner: Option<string>, k: nat)
    requires s.Switch? && Stands(s, env, owner) && Live(env.h, s) && k < |s.groups|
    ensures SeqStands(s.groups[k].stmts, GroupEnv(s, env), None) && LiveAll(env.h, s.groups[k].stmts)
    ensures IdsOf(s.groups[k].stmts) <= IdsOf(s.groups) <= Ids(s)
  {
    GroupIn(s.groups, k, env.h);
    GroupShape(s, k);
    var g := s.groups[k];
    assert s.blockId in Ids(s) && s.blockId !in IdsOf(s.groups);
    OffPart(Ids(s), {}, IdsOf(g.stmts), {}, env);
  }

  lemma {:induction false} GroupShape(s: Stmt, k: nat)
    requires s.Switch? && Shape(s) && k < |s.groups| && Unique(s.groups[k])
    ensures var g := s.groups[k];
            && g.Block? && g.tag.None? && UniqueAll(g.stmts) && Ids(g) == {g.id} + IdsOf(g.stmts)
            && forall i :: 0 <= i < |g.stmts| ==> Shape(g.stmts[i]) && !IsLoop(g.stmts[i])
  {
    assert IsPlain(s.groups[k]) && Shape(s.groups[k]);
  }

  lemma {:induction false} SwitchJumps(s: Stmt, env: Env, owner: Option<string>, o: Outcome, t: Id)
    requires s.Switch? && Stands(s, env, owner) && Jumps(o, t, GroupEnv(s, env))
    ensures t !in Ids(s) ==> LeaveLoop(o) == o && Jumps(o, t, env)
    ensures t == s.blockId ==> LeaveLoop(o).Normal?
  {
    assert s.blockId in Ids(s);
  }

  lemma {:induction false} SwitchEnds(s: Stmt, h: Hierarchy, owner: Option<string>, k: nat, o: Outcome)
    requires s.Switch? && k < |s.groups| && s.groups[k].Block? && s.groups[k].tag.None?
    requires SeqEnds(h, s.groups[k].stmts, None, o) && (o.Normal? ==> k == |s.groups| - 1)
    ensures Ends(h, s, owner, LeaveLoop(o))
  {
    hide Valid;
    BlockEnds(h, s.groups[k], None, o);
    var p: Run :| IsRun(h, s.groups[k], None, p) && p.out == o;
    var q := GroupEmbed(h, s, owner, k, p);
  }

  lemma {:induction false} SwitchFacts(s: Stmt, env: Env)
    requires s.Switch? && env.level > 0
    ensures var f, fg := Analyze(s, true, env), AnalyzeGroups(s.groups, true, false, EnterSwitch(s.blockId, env));
            && fg.errs <= f.errs && f.done <= fg.done + {s.id}
            && (f.completes ==> s.blockId in fg.done || !s.hasDefault || fg.completes)
  {
    hide AnalyzeGroups;
  }

  ghost predicate GroupsFaithful(s: Stmt, env: Env)
    requires s.Switch? && forall i :: 0 <= i < |s.groups| ==> s.groups[i].Block?
  {
    forall k :: 0 <= k < |s.groups| ==> SeqFaithful(s.groups[k].stmts, GroupEnv(s, env), None)
  }

  lemma {:induction false} CompleteSwitch(s: Stmt, env: Env, owner: Option<string>)
    requires s.Switch? && Stands(s, env, owner) && Quiet(Analyze(s, true, env).errs) && Live(env.h, s)
    ensures Faithful(s, env, owner)
    decreases s, 1
  {
    hide Analyze, AnalyzeGroups, AnalyzeSeq, Stands, SeqStands, GapErrors, SeqFaithful, Live, FirstUnreachable;
    Standing(s, env, owner);
    SwitchFacts(s, env);
    forall k | 0 <= k < |s.groups| ensures SeqFaithful(s.groups[k].stmts, GroupEnv(s, env), None) {
      GroupFacts(s.groups, false, EnterSwitch(s.blockId, env), k);
      GroupStands(s, env, owner, k);
      GapReported(s.groups[k].stmts, true, GroupEnv(s, env));
      CompleteSeq(s.groups[k].stmts, GroupEnv(s, env), None);
    }
    SwitchFaithful(s, env, owner);
  }

  lemma {:induction false} SwitchFaithful(s: Stmt, env: Env, owner: Option<string>)
    requires s.Switch? && Stands(s, env, owner) && Shape(s) && GroupsFaithful(s, env)
    ensures Faithful(s, env, owner)
  {
    hide Analyze, AnalyzeGroups, Stands, Jumps, SeqFaithful, SeqEnds, GapErrors, Ends;
    Standing(s, env, owner);
    SwitchFacts(s, env);
    SwitchIds(s, env, owner);
    var f, fg := Analyze(s, true, env), AnalyzeGroups(s.groups, true, false, EnterSwitch(s.blockId, env));
    if f.completes {
      if s.blockId in fg.done {
        GroupGoes(s, env, owner, s.blockId);
      } else if !s.hasDefault {
        NoGroup(s, env.h, owner);
      } else {
        LastGroup(s, env, owner);
      }
      assert Ends(env.h, s, owner, Normal) && Counts(s, Normal, env);
    }
    forall t | t in f.done && t !in Ids(s) ensures Goes(s, env, owner, t) {
      GroupGoes(s, env, owner, t);
    }
  }

  lemma {:induction false} NoGroup(s: Stmt, h: Hierarchy, owner: Option<string>)
    requires s.Switch? && !s.hasDefault
    ensures Ends(h, s, owner, Normal)
  {
    assert IsRun(h, s, owner, Run(s, [], 0, Normal));
  }

  lemma {:induction false} SwitchIds(s: Stmt, env: Env, owner: Option<string>)
    requires s.Switch? && Stands(s, env, owner)
    ensures s.blockId !in IdsOf(s.groups) && IdsOf(s.groups) <= Ids(s) && s.id in Ids(s)
    ensures s.hasDefault ==> s.groups != []
    ensures forall i :: 0 <= i < |s.groups| ==> s.groups[i].Block? && s.groups[i].tag.None? && !Lone(s.groups[i].stmts)
  {
  }

  lemma {:induction false} LastGroup(s: Stmt, env: Env, owner: Option<string>)
    requires s.Switch? && Stands(s, env, owner) && Shape(s) && GroupsFaithful(s, env) && s.groups != []
    requires AnalyzeGroups(s.groups, true, false, EnterSwitch(s.blockId, env)).completes
    ensures Ends(env.h, s, owner, Normal)
  {
    hide Stands, Jumps, AnalyzeSeq, AnalyzeGroups, GapErrors;
    SwitchIds(s, env, owner);
    var k := |s.groups| - 1;
    GroupFacts(s.groups, false, EnterSwitch(s.blockId, env), k);
    assert SeqFaithful(s.groups[k].stmts, GroupEnv(s, env), None);
    SwitchEnds(s, env.h, owner, k, Normal);
  }

  lemma {:induction false} GroupGoes(s: Stmt, env: Env, owner: Option<string>, t: Id)
    requires s.Switch? && Stands(s, env, owner) && Shape(s) && GroupsFaithful(s, env) && t !in IdsOf(s.groups)
    requires t in AnalyzeGroups(s.groups, true, false, EnterSwitch(s.blockId, env)).done
    ensures t == s.blockId ==> Ends(env.h, s, owner, Normal)
    ensures t !in Ids(s) ==> Goes(s, env, owner, t)
  {
    hide Stands, Jumps, AnalyzeSeq, AnalyzeGroups, GapErrors, SeqEnds, Ends;
    SwitchIds(s, env, owner);
    var k := FromGroup(s.groups, false, EnterSwitch(s.blockId, env), t);
    var ss := s.groups[k].stmts;
    GroupContains(s.groups, k);
    assert SeqFaithful(ss, GroupEnv(s, env), None);
    var o :| SeqEnds(env.h, ss, None, o) && Jumps(o, t, GroupEnv(s, env));
    JumpsAbruptly(o, t, GroupEnv(s, env));
    SwitchJumps(s, env, owner, o, t);
    SwitchEnds(s, env.h, owner, k, o);
  }

  lemma {:induction false} JumpsAbruptly(o: Outcome, t: Id, env: Env)
    requires Jumps(o, t, env)
    ensures !o.Normal? && !o.ThrowOut? && !o.Suspended?
  {
  }

  lemma {:induction false} GroupContains(gs: seq<Stmt>, k: nat)
    requires k < |gs| && gs[k].Block?
    ensures IdsOf(gs[k].stmts) <= IdsOf(gs)
    decreases k
  {
    if k > 0 { GroupContains(gs[1..], k - 1); }
  }

  // ---- Try statements

  lemma {:induction false} TryFacts(s: Stmt, env: Env)
    requires s.Try? && env.level > 0
    ensures var f, fb := Analyze(s, true, env), Analyze(s.body, true, BodyEnv(s, env));
            var fc := AnalyzeCatches(s.catches, [], Found(s, env), ClauseEnv(s, env));
            var ff := if s.fin.Some? then Analyze(s.fin.value, true, env) else Fx({}, {}, {}, {}, true);
            && ff.errs + fb.errs + fc.errs <= f.errs && f.done <= ff.done + fb.done + fc.done + {s.id}
            && (Abrupt(s.fin, env) <==> !ff.completes)
            && (f.completes ==> (fb.completes || fc.completes) && ff.completes)
  {
    assert Analyze(s, true, env) == AnalyzeTry(s, true, env);
    hide Analyze, AnalyzeCatches;
  }

  /** Without a report, every clause is processed. */
  lemma {:induction false} ClauseFacts(cs: seq<Catch>, before: seq<Class>, found: set<Class>, env: Env, k: nat)
    requires env.level > 0 && k < |cs| && Silent(AnalyzeCatches(cs, before, found, env).errs)
    ensures Analyze(cs[k].body, true, env).errs <= AnalyzeCatches(cs, before, found, env).errs
    decreases k
  {
    hide Analyze;
    MissedClauseReported(cs, before, found, env);
    var c := cs[0];
    assert c.body < c;
    if k > 0 {
      ClauseFacts(cs[1..], before + [c.cls], found, env, k - 1);
    }
  }

  lemma {:induction false} FromClause(cs: seq<Catch>, before: seq<Class>, found: set<Class>, env: Env, t: Id)
    returns (k: nat)
    requires env.level > 0 && Silent(AnalyzeCatches(cs, before, found, env).errs)
    requires t in AnalyzeCatches(cs, before, found, env).done
    ensures k < |cs| && t in Analyze(cs[k].body, true, env).done
    decreases |cs|
  {
    hide Analyze;
    MissedClauseReported(cs, before, found, env);
    var c := cs[0];
    assert c.body < c;
    if t in Analyze(c.body, true, env).done {
      k := 0;
    } else {
      var j := FromClause(cs[1..], before + [c.cls], found, env, t);
      k := j + 1;
    }
  }

  lemma {:induction false} CompletingClause(cs: seq<Catch>, before: seq<Class>, found: set<Class>, env: Env)
    returns (k: nat)
    requires env.level > 0 && Silent(AnalyzeCatches(cs, before, found, env).errs)
    requires AnalyzeCatches(cs, before, found, env).completes
    ensures k < |cs| && Analyze(cs[k].body, true, env).completes
    decreases |cs|
  {
    hide Analyze;
    MissedClauseReported(cs, before, found, env);
    var c := cs[0];
    assert c.body < c;
    if Analyze(c.body, true, env).completes {
      k := 0;
    } else {
      var j := CompletingClause(cs[1..], before + [c.cls], found, env);
      k := j + 1;
    }
  }

  lemma {:induction false} ClauseIn(cs: seq<Catch>, k: nat, h: Hierarchy)
    requires k < |cs| && UniqueCatches(cs) && LiveCatches(h, cs)
    ensures Unique(cs[k].body) && Ids(cs[k].body) <= IdsOfCatches(cs) && Live(h, cs[k].body)
    decreases k
  {
    var c := cs[0];
    assert c.body < c;
    if k > 0 { ClauseIn(cs[1..], k - 1, h); }
  }

  /** A block of a try statement: the try block, a clause or the finally clause. */
  ghost predicate IsTryPart(s: Stmt, b: Stmt) {
    && s.Try?
    && (b == s.body || (s.fin.Some? && b == s.fin.value) || exists k :: 0 <= k < |s.catches| && b == s.catches[k].body)
  }

  lemma {:induction false} TryPartIn(s: Stmt, b: Stmt, h: Hierarchy)
    requires Shape(s) && Unique(s) && Live(h, s) && IsTryPart(s, b)
    ensures b.Block? && Shape(b) && Unique(b) && Live(h, b) && b.id in Ids(b) && Ids(b) <= Ids(s)
  {
    UniqueParts(s);
    ShapeParts(s);
    IdIn(b);
    if b != s.body && !(s.fin.Some? && b == s.fin.value) {
      var k :| 0 <= k < |s.catches| && b == s.catches[k].body;
      ClauseIn(s.catches, k, h);
    }
  }

  lemma {:induction false} TryPartStands(s: Stmt, b: Stmt, env: Env, abrupt: bool, types: seq<Class>,
                                         owner: Option<string>)
    requires s.Try? && Stands(s, env, owner) && Live(env.h, s) && IsTryPart(s, b)
    ensures b.Block? && Live(env.h, b) && Ids(b) <= Ids(s)
    ensures Stands(b, env, None) && Off({b.id}, {}, env)
    ensures Stands(b, EnterTry(env, abrupt, types), None) && Off({b.id}, {}, EnterTry(env, abrupt, types))
  {
    TryPartIn(s, b, env.h);
    OffPart(Ids(s), {}, Ids(b), {b.id}, env);
    OffPart(Ids(s), {}, {b.id}, {}, env);
  }

  /** Jumps out of a try statement are marked only if its finally clause can complete. */
  lemma {:induction false} TryJumps(s: Stmt, env: Env, owner: Option<string>, abrupt: bool, types: seq<Class>,
                                    o: Outcome, t: Id)
    requires s.Try? && Stands(s, env, owner) && Jumps(o, t, EnterTry(env, abrupt, types))
    ensures !abrupt && Jumps(o, t, env)
  {
  }

  ghost predicate TryFaithfully(s: Stmt, env: Env)
    requires s.Try? && env.level > 0
  {
    && Faithful(s.body, BodyEnv(s, env), None) && (s.fin.Some? ==> Faithful(s.fin.value, env, None))
    && forall k :: 0 <= k < |s.catches| ==> Faithful(s.catches[k].body, ClauseEnv(s, env), None)
  }

  lemma {:induction false} CompleteTry(s: Stmt, env: Env, owner: Option<string>)
    requires s.Try? && Stands(s, env, owner) && Quiet(Analyze(s, true, env).errs) && Live(env.h, s)
    ensures Faithful(s, env, owner)
    decreases s, 1
  {
    hide Analyze, AnalyzeCatches, Stands, Faithful, Live, Abrupt, Found;
    Standing(s, env, owner);
    TryFacts(s, env);
    TryPartStands(s, s.body, env, Abrupt(s.fin, env), CatchTypes(s.catches), owner);
    Complete(s.body, BodyEnv(s, env), None);
    if s.fin.Some? {
      TryPartStands(s, s.fin.value, env, false, [], owner);
      Complete(s.fin.value, env, None);
    }
    forall k | 0 <= k < |s.catches| ensures Faithful(s.catches[k].body, ClauseEnv(s, env), None) {
      var c := s.catches[k];
      assert c.body < c;
      ClauseFacts(s.catches, [], Found(s, env), ClauseEnv(s, env), k);
      TryPartStands(s, c.body, env, Abrupt(s.fin, env), [], owner);
      Complete(c.body, ClauseEnv(s, env), None);
    }
    TryFaithful(s, env, owner);
  }

  lemma {:induction false} FinallyPasses(s: Stmt, env: Env, owner: Option<string>)
    requires s.Try? && Stands(s, env, owner) && Live(env.h, s) && !Abrupt(s.fin, env)
    requires s.fin.Some? ==> Faithful(s.fin.value, env, None)
    ensures Passes(env.h, s.fin)
  {
    hide Analyze, Stands, Live;
    if s.fin.Some? {
      TryPartStands(s, s.fin.value, env, false, [], owner);
      TryFacts(s, env);
      PlainFinishes(s.fin.value, env, None);
    }
  }

  lemma {:induction false} BodyEnds(s: Stmt, h: Hierarchy, owner: Option<string>, o: Outcome)
    requires s.Try? && Ends(h, s.body, None, o) && !o.ThrowOut? && Passes(h, s.fin)
    ensures Ends(h, s, owner, o)
  {
    hide Valid, Passes;
    var p: Run :| IsRun(h, s.body, None, p) && p.out == o;
    var q := TryEmbed(h, s, owner, p);
  }

  lemma {:induction false} ClauseEnds(s: Stmt, h: Hierarchy, owner: Option<string>, k: nat, o: Outcome)
    requires s.Try? && Live(h, s) && k < |s.catches| && Ends(h, s.catches[k].body, None, o) && Passes(h, s.fin)
    ensures Ends(h, s, owner, o)
  {
    hide Valid, Passes;
    assert ClauseTaken(h, s, k);
    var b: Run :| IsRun(h, s.body, None, b) && TakenBy(h, s.catches, b.out, k);
    var p: Run :| IsRun(h, s.catches[k].body, None, p) && p.out == o;
    var q := ClauseEmbed(h, s, owner, b, k, p);
  }

  lemma {:induction false} FinallyEnds(s: Stmt, h: Hierarchy, owner: Option<string>, o: Outcome)
    requires s.Try? && Shape(s) && s.fin.Some? && Ends(h, s.fin.value, None, o) && !o.Normal?
    ensures Ends(h, s, owner, o)
  {
    hide Valid;
    var p: Run :| IsRun(h, s.fin.value, None, p) && p.out == o;
    var q := EnterFinally(h, s, owner, p);
  }

  lemma {:induction false} TryFaithful(s: Stmt, env: Env, owner: Option<string>)
    requires s.Try? && Stands(s, env, owner) && Live(env.h, s) && Silent(Analyze(s, true, env).errs)
    requires env.level > 0 && TryFaithfully(s, env)
    ensures Faithful(s, env, owner)
  {
    hide Analyze, AnalyzeCatches, Stands, Live, Abrupt, Found, Ends, Jumps, Faithful;
    Standing(s, env, owner);
    TryFacts(s, env);
    var f := Analyze(s, true, env);
    if f.completes {
      TryCompletes(s, env, owner);
    }
    forall t | t in f.done && t !in Ids(s) ensures Goes(s, env, owner, t) {
      TryGoes(s, env, owner, t);
    }
    FaithfulIs(s, env, owner);
  }

  lemma {:induction false} FaithfulIs(s: Stmt, env: Env, owner: Option<string>)
    requires env.level > 0 && (Analyze(s, true, env).completes ==> Ends(env.h, s, owner, Normal))
    requires forall t :: t in Analyze(s, true, env).done && t !in Ids(s) ==> Goes(s, env, owner, t)
    ensures Faithful(s, env, owner)
  {
    hide Analyze, Ends;
    if Analyze(s, true, env).completes { assert Counts(s, Normal, env); }
  }

  lemma {:induction false} TryCompletes(s: Stmt, env: Env, owner: Option<string>)
    requires s.Try? && Stands(s, env, owner) && Live(env.h, s) && Silent(Analyze(s, true, env).errs)
    requires env.level > 0 && TryFaithfully(s, env) && Analyze(s, true, env).completes
    ensures Ends(env.h, s, owner, Normal)
  {
    hide Analyze, AnalyzeCatches, Stands, Live, Abrupt, Found, Ends, Jumps;
    Standing(s, env, owner);
    TryFacts(s, env);
    FinallyPasses(s, env, owner);
    if Analyze(s.body, true, BodyEnv(s, env)).completes {
      TryPartStands(s, s.body, env, Abrupt(s.fin, env), CatchTypes(s.catches), owner);
      PlainFinishes(s.body, BodyEnv(s, env), None);
      BodyEnds(s, env.h, owner, Normal);
    } else {
      var k := CompletingClause(s.catches, [], Found(s, env), ClauseEnv(s, env));
      var c := s.catches[k];
      TryPartStands(s, c.body, env, Abrupt(s.fin, env), [], owner);
      PlainFinishes(c.body, ClauseEnv(s, env), None);
      ClauseEnds(s, env.h, owner, k, Normal);
    }
  }

  lemma {:induction false} TryGoes(s: Stmt, env: Env, owner: Option<string>, t: Id)
    requires s.Try? && Stands(s, env, owner) && Live(env.h, s) && Silent(Analyze(s, true, env).errs)
    requires env.level > 0 && TryFaithfully(s, env) && t in Analyze(s, true, env).done && t !in Ids(s)
    ensures Goes(s, env, owner, t)
  {
    hide Analyze, AnalyzeCatches, Stands, Live, Abrupt, Found, Ends, Jumps;
    Standing(s, env, owner);
    TryFacts(s, env);
    IdIn(s);
    var abrupt := Abrupt(s.fin, env);
    if s.fin.Some? && t in Analyze(s.fin.value, true, env).done {
      TryPartStands(s, s.fin.value, env, false, [], owner);
      var o :| Ends(env.h, s.fin.value, None, o) && Jumps(o, t, env);
      JumpsAbruptly(o, t, env);
      FinallyEnds(s, env.h, owner, o);
    } else if t in Analyze(s.body, true, BodyEnv(s, env)).done {
      TryPartStands(s, s.body, env, abrupt, CatchTypes(s.catches), owner);
      var o :| Ends(env.h, s.body, None, o) && Jumps(o, t, BodyEnv(s, env));
      JumpsAbruptly(o, t, BodyEnv(s, env));
      TryJumps(s, env, owner, abrupt, CatchTypes(s.catches), o, t);
      FinallyPasses(s, env, owner);
      BodyEnds(s, env.h, owner, o);
    } else {
      var k := FromClause(s.catches, [], Found(s, env), ClauseEnv(s, env), t);
      TryPartStands(s, s.catches[k].body, env, abrupt, [], owner);
      var o :| Ends(env.h, s.catches[k].body, None, o) && Jumps(o, t, ClauseEnv(s, env));
      TryJumps(s, env, owner, abrupt, [], o, t);
      FinallyPasses(s, env, owner);
      ClauseEnds(s, env.h, owner, k, o);
    }
  }
}
