/** Exactly which exceptions are reported as uncaught, and which a try block is taken to throw. */
module Causes {
  import opened Classes
  import opened JavaAst
  import opened Flow
  import opened FlowBounds
  import opened ClauseReports
  import opened MethodBodies
  import opened SemanticState

  /** Node i in s declares exception c or throws it, and c leaves s: no try statement in between has a catch
      clause for c or a superclass, nor a finally clause that cannot complete. `done` are the nodes that can
      complete, `out` the clauses that were reported and so not looked at. */
  predicate Escapes(h: Hierarchy, s: Stmt, done: set<Id>, out: set<Id>, i: Id, c: Class)
    decreases s, 1
  {
    (i == s.id && c in OwnThrows(s)) ||
    match s
    case Block(_, _, ss) => EscapesAmong(h, ss, done, out, i, c)
    case If(_, _, t, e) => Escapes(h, t, done, out, i, c) || (e.Some? && Escapes(h, e.value, done, out, i, c))
    case While(_, _, b) => Escapes(h, b, done, out, i, c)
    case Do(_, b, _) => Escapes(h, b, done, out, i, c)
    case For(_, init, _, update, b) =>
      || EscapesAmong(h, init, done, out, i, c) || EscapesAmong(h, update, done, out, i, c)
      || Escapes(h, b, done, out, i, c)
    case Foreach(_, _, _, _, b) => Escapes(h, b, done, out, i, c)
    case Switch(_, _, _, gs, _) => EscapesAmong(h, gs, done, out, i, c)
    case Try(_, b, cs, f) =>
      || (f.Some? && Escapes(h, f.value, done, out, i, c))
      || ((f.Some? ==> f.value.id in done)
          && (|| (Escapes(h, b, done, out, i, c) && forall k :: 0 <= k < |cs| ==> !IsSubclass(h, c, cs[k].cls))
              || EscapesClauses(h, cs, done, out, i, c)))
    case Sync(_, _, b) => Escapes(h, b, done, out, i, c)
    case _ => false
  }

  predicate EscapesAmong(h: Hierarchy, ss: seq<Stmt>, done: set<Id>, out: set<Id>, i: Id, c: Class)
    decreases ss, 0
  {
    ss != [] && (Escapes(h, ss[0], done, out, i, c) || EscapesAmong(h, ss[1..], done, out, i, c))
  }

  predicate EscapesClauses(h: Hierarchy, cs: seq<Catch>, done: set<Id>, out: set<Id>, i: Id, c: Class)
    decreases cs, 0
  {
    cs != [] &&
    var k := cs[0];
    assert k.body < k;
    (k.body.id !in out && Escapes(h, k.body, done, out, i, c)) || EscapesClauses(h, cs[1..], done, out, i, c)
  }

  /** What the expressions of s itself declare, and what a throw statement throws. */
  function OwnThrows(s: Stmt): seq<Class> {
    match s
    case Simple(_, e) => e.throws
    case Local(_, _, e) => e.throws
    case If(_, c, _, _) => c.throws
    case While(_, c, _) => c.throws
    case Do(_, _, c) => c.throws
    case For(_, _, end, _, _) => ForCondition(end).throws
    case Foreach(_, _, _, e, _) => e.throws
    case Switch(_, _, e, _, _) => e.throws
    case Return(_, e) => e.throws
    case Throw(_, e, cls) => e.throws + [cls]
    case Sync(_, e, _) => e.throws
    case _ => []
  }

  ghost predicate Leaks(h: Hierarchy, s: Stmt, done: set<Id>, out: set<Id>, c: Class) {
    exists i :: Escapes(h, s, done, out, i, c)
  }

  // ---- Caught by try statements

  /** A try statement around is one that has a clause for c or a superclass, or whose finally clause cannot
      complete. */
  ghost predicate Handled(h: Hierarchy, tries: seq<Frame>, c: Class) {
    exists k :: 0 <= k < |tries| &&
      (tries[k].abrupt || exists j :: 0 <= j < |tries[k].catching| && IsSubclass(h, c, tries[k].catching[j]))
  }

  lemma {:induction false} CaughtExact(h: Hierarchy, tries: seq<Frame>, c: Class)
    ensures CaughtByTries(h, tries, c) <==> Handled(h, tries, c)
    decreases |tries|
  {
    if tries != [] {
      var n := |tries| - 1;
      CaughtExact(h, tries[..n], c);
      if Handled(h, tries[..n], c) {
        var k :| 0 <= k < n &&
          (tries[..n][k].abrupt ||
           exists j :: 0 <= j < |tries[..n][k].catching| && IsSubclass(h, c, tries[..n][k].catching[j]));
        assert tries[k] == tries[..n][k];
      }
      if Handled(h, tries, c) {
        var k :| 0 <= k < |tries| &&
          (tries[k].abrupt || exists j :: 0 <= j < |tries[k].catching| && IsSubclass(h, c, tries[k].catching[j]));
        if k < n { assert tries[k] == tries[..n][k]; }
      }
    }
  }

  /** Inside a try statement. */
  lemma {:induction false} UncaughtInTry(env: Env, abrupt: bool, types: seq<Class>, c: Class)
    ensures Uncaught(EnterTry(env, abrupt, types), c) <==> Uncaught(env, c) && !abrupt && !Covers(env.h, types, c)
  {
    var inner := EnterTry(env, abrupt, types);
    assert inner.tries[..|inner.tries| - 1] == env.tries;
  }

  // ---- The effects of a statement and of its parts agree

  /** On nodes `ids` the flags and reports of f are `done` and `out`. */
  ghost predicate Agree(ids: set<Id>, f: Fx, done: set<Id>, out: set<Id>) {
    forall id :: id in ids ==> (id in done <==> id in f.done) && (id in out <==> Rejected(f, id))
  }

  /** f says nothing about nodes `ids`. */
  ghost predicate Foreign(f: Fx, ids: set<Id>) {
    f.done !! ids && forall id :: id in ids ==> !Rejected(f, id)
  }

  ghost predicate SumOf(f: Fx, g: Fx, h: Fx, own: set<Id>) {
    && f.done <= g.done + h.done + own && g.done <= f.done && h.done <= f.done
    && forall id :: Rejected(f, id) <==> Rejected(g, id) || Rejected(h, id)
  }

  lemma {:induction false} PartAgrees(ids: set<Id>, part: set<Id>, f: Fx, g: Fx, h: Fx, own: set<Id>, done: set<Id>,
                                      out: set<Id>)
    requires Agree(ids, f, done, out) && part <= ids && own !! part && Foreign(h, part)
    requires SumOf(f, g, h, own) || SumOf(f, h, g, own)
    ensures Agree(part, g, done, out)
  {
    hide Rejected;
  }

  const EMPTY := Fx({}, {}, {}, {}, false)

  lemma {:induction false} EmptyForeign(ids: set<Id>)
    ensures Foreign(EMPTY, ids)
  {
  }

  /** A sibling part says nothing about the nodes of this one. */
  lemma {:induction false} SiblingForeign(c: Stmt, r: bool, env: Env, ids: set<Id>)
    requires env.level > 0 && Shape(c) && Ids(c) !! ids && Outer(env) !! ids
    ensures Foreign(Analyze(c, r, env), ids)
  {
    hide Analyze, Rejected;
    AnalyzeBounded(c, r, env);
    RejectsInside(c, r, env);
  }

  // ---- Exactness

  /** What is reported of class c, and whether it is collected. */
  ghost predicate Exact(s: Stmt, f: Fx, env: Env, done: set<Id>, out: set<Id>, c: Class) {
    && (forall i :: UncaughtException(i, c) in f.errs <==> Uncaught(env, c) && Escapes(env.h, s, done, out, i, c))
    && (c in f.exc && c != ERROR && c != RUNTIME_EXCEPTION ==> Leaks(env.h, s, done, out, c))
    && (Leaks(env.h, s, done, out, c) ==> c in f.exc)
  }

  ghost predicate LeakAmong(h: Hierarchy, ss: seq<Stmt>, done: set<Id>, out: set<Id>, c: Class) {
    exists i :: EscapesAmong(h, ss, done, out, i, c)
  }

  ghost predicate ExactAmong(ss: seq<Stmt>, f: Fx, env: Env, done: set<Id>, out: set<Id>, c: Class) {
    && (forall i :: UncaughtException(i, c) in f.errs <==> Uncaught(env, c) && EscapesAmong(env.h, ss, done, out, i, c))
    && (c in f.exc && c != ERROR && c != RUNTIME_EXCEPTION ==> LeakAmong(env.h, ss, done, out, c))
    && (LeakAmong(env.h, ss, done, out, c) ==> c in f.exc)
  }

  /** s stands where its nodes are not those of blocks further out. */
  ghost predicate Apart(s: Stmt, env: Env) {
    env.level > 0 && Shape(s) && Unique(s) && Outer(env) * Ids(s) <= Own(s)
  }

  lemma {:induction false} ExactStmt(s: Stmt, r: bool, env: Env, done: set<Id>, out: set<Id>, c: Class)
    requires Apart(s, env) && Agree(Ids(s), Analyze(s, r, env), done, out)
    ensures Exact(s, Analyze(s, r, env), env, done, out, c)
    decreases s, 2
  {
    match s
    case Block(_, _, _) => ExactBlock(s, r, env, done, out, c);
    case If(_, _, _, _) => ExactIf(s, r, env, done, out, c);
    case While(_, _, _) => ExactBody(s, r, env, done, out, c);
    case Do(_, _, _) => ExactBody(s, r, env, done, out, c);
    case Foreach(_, _, _, _, _) => ExactBody(s, r, env, done, out, c);
    case Sync(_, _, _) => ExactBody(s, r, env, done, out, c);
    case For(_, _, _, _, _) => ExactFor(s, r, env, done, out, c);
    case Switch(_, _, _, _, _) => ExactSwitch(s, r, env, done, out, c);
    case Try(_, _, _, _) => ExactTry(s, r, env, done, out, c);
    case _ => ExactLeaf(s, r, env, done, out, c);
  }

  lemma {:induction false} ExactLeaf(s: Stmt, r: bool, env: Env, done: set<Id>, out: set<Id>, c: Class)
    requires env.level > 0 && IsLeaf(s)
    ensures Exact(s, Analyze(s, r, env), env, done, out, c)
  {
    assert c in OwnThrows(s) ==> Escapes(env.h, s, done, out, s.id, c);
  }

  /** The effects of s are those of its own expressions and of one part. */
  lemma {:induction false} OnePart(s: Stmt, f: Fx, env: Env, b: Stmt, fb: Fx, done: set<Id>, out: set<Id>, c: Class)
    requires Exact(b, fb, env, done, out, c)
    requires forall i :: Escapes(env.h, s, done, out, i, c) <==>
                         (i == s.id && c in OwnThrows(s)) || Escapes(env.h, b, done, out, i, c)
    requires forall i :: UncaughtException(i, c) in f.errs <==>
                         UncaughtException(i, c) in Eval(s.id, OwnThrows(s), env).errs + fb.errs
    requires c in f.exc <==> c in OwnThrows(s) || c in fb.exc
    ensures Exact(s, f, env, done, out, c)
  {
    hide Escapes;
    if c in OwnThrows(s) { assert Escapes(env.h, s, done, out, s.id, c); }
  }

  /** The environment of the single body of s, and whether it is taken to be reachable. */
  function BodyPlace(s: Stmt, env: Env): Env
    requires (s.While? || s.Do? || s.Foreach? || s.Sync? || s.For?) && env.level > 0
  {
    if s.Sync? then env else EnterLoop(s.body.id, env)
  }

  function BodyReached(s: Stmt, r: bool): bool {
    r && (s.While? ==> CanBe(s.cond, true)) && (s.For? ==> CanBe(ForCondition(s.end), true))
  }

  lemma {:induction false} BodyFacts(s: Stmt, r: bool, env: Env, c: Class)
    requires (s.While? || s.Do? || s.Foreach? || s.Sync?) && env.level > 0
    ensures var f, fb := Analyze(s, r, env), Analyze(s.body, BodyReached(s, r), BodyPlace(s, env));
            && SumOf(f, fb, EMPTY, {s.id})
            && (forall i :: UncaughtException(i, c) in f.errs <==>
                            UncaughtException(i, c) in Eval(s.id, OwnThrows(s), env).errs + fb.errs)
            && (c in f.exc <==> c in OwnThrows(s) || c in fb.exc)
  {
    BodyReports(s, r, env);
    var f, fb := Analyze(s, r, env), Analyze(s.body, BodyReached(s, r), BodyPlace(s, env));
    match s
    case While(id, e, b) =>
      assert f == AnalyzeLoop(id, Eval(id, e.throws, env), b, r, CanBe(e, true), r && CanBe(e, false), env);
    case _ =>
  }

  lemma {:induction false} BodyApart(s: Stmt, env: Env)
    requires (s.While? || s.Do? || s.Foreach? || s.Sync? || s.For?) && Apart(s, env)
    ensures Apart(s.body, BodyPlace(s, env)) && Ids(s.body) <= Ids(s) && s.id !in Ids(s.body)
    ensures BodyPlace(s, env).h == env.h && forall c :: Uncaught(BodyPlace(s, env), c) <==> Uncaught(env, c)
  {
    assert s.body.id in Ids(s.body);
  }

  lemma {:induction false} ExactBody(s: Stmt, r: bool, env: Env, done: set<Id>, out: set<Id>, c: Class)
    requires (s.While? || s.Do? || s.Foreach? || s.Sync?) && Apart(s, env)
    requires Agree(Ids(s), Analyze(s, r, env), done, out)
    ensures Exact(s, Analyze(s, r, env), env, done, out, c)
    decreases s, 1
  {
    hide Analyze, Apart, Uncaught, Eval;
    assert env.level > 0 by { ApartLevel(s, env); }
    var f, fb := Analyze(s, r, env), Analyze(s.body, BodyReached(s, r), BodyPlace(s, env));
    BodyFacts(s, r, env, c);
    BodyApart(s, env);
    EmptyForeign(Ids(s.body));
    PartAgrees(Ids(s), Ids(s.body), f, fb, EMPTY, {s.id}, done, out);
    ExactStmt(s.body, BodyReached(s, r), BodyPlace(s, env), done, out, c);
    OnePart(s, f, env, s.body, fb, done, out, c);
  }

  lemma {:induction false} ApartLevel(s: Stmt, env: Env)
    requires Apart(s, env)
    ensures env.level > 0 && Shape(s) && Unique(s)
  {
  }

  // ---- If statements

  lemma {:induction false} IfSums(s: Stmt, r: bool, env: Env, c: Class)
    requires s.If? && env.level > 0
    ensures var f, ft := Analyze(s, r, env), Analyze(s.thn, r, env);
            var fe := if s.els.Some? then Analyze(s.els.value, r, env) else EMPTY;
            && SumOf(f, ft, fe, {s.id})
            && (forall i :: UncaughtException(i, c) in f.errs <==>
                            UncaughtException(i, c) in Eval(s.id, OwnThrows(s), env).errs + ft.errs + fe.errs)
            && (c in f.exc <==> c in OwnThrows(s) || c in ft.exc || c in fe.exc)
  {
    assert Analyze(s, r, env) == AnalyzeIf(s, r, env);
    hide Analyze;
  }

  lemma {:induction false} BranchApart(s: Stmt, b: Stmt, env: Env)
    requires s.If? && Apart(s, env) && (b == s.thn || (s.els.Some? && b == s.els.value))
    ensures Apart(b, env) && Ids(b) <= Ids(s) && s.id !in Ids(b) && Outer(env) !! Ids(b)
    ensures s.els.Some? ==> Ids(s.thn) !! Ids(s.els.value)
  {
    assert Own(s) == {};
  }

  lemma {:induction false} ExactIf(s: Stmt, r: bool, env: Env, done: set<Id>, out: set<Id>, c: Class)
    requires s.If? && Apart(s, env) && Agree(Ids(s), Analyze(s, r, env), done, out)
    ensures Exact(s, Analyze(s, r, env), env, done, out, c)
    decreases s, 1
  {
    hide Analyze, Apart, Uncaught, Eval, Escapes, Outer, Rejected;
    ApartLevel(s, env);
    IfSums(s, r, env, c);
    BranchApart(s, s.thn, env);
    var f, ft := Analyze(s, r, env), Analyze(s.thn, r, env);
    if s.els.Some? {
      var e := s.els.value;
      var fe := Analyze(e, r, env);
      BranchApart(s, e, env);
      ApartLevel(s.thn, env);
      ApartLevel(e, env);
      SiblingForeign(e, r, env, Ids(s.thn));
      SiblingForeign(s.thn, r, env, Ids(e));
      PartAgrees(Ids(s), Ids(s.thn), f, ft, fe, {s.id}, done, out);
      PartAgrees(Ids(s), Ids(e), f, fe, ft, {s.id}, done, out);
      ExactStmt(s.thn, r, env, done, out, c);
      ExactStmt(e, r, env, done, out, c);
    } else {
      EmptyForeign(Ids(s.thn));
      PartAgrees(Ids(s), Ids(s.thn), f, ft, EMPTY, {s.id}, done, out);
      ExactStmt(s.thn, r, env, done, out, c);
    }
    IfExact(s, r, env, done, out, c);
  }

  lemma {:induction false} IfExact(s: Stmt, r: bool, env: Env, done: set<Id>, out: set<Id>, c: Class)
    requires s.If? && env.level > 0 && Exact(s.thn, Analyze(s.thn, r, env), env, done, out, c)
    requires s.els.Some? ==> Exact(s.els.value, Analyze(s.els.value, r, env), env, done, out, c)
    ensures Exact(s, Analyze(s, r, env), env, done, out, c)
  {
    hide Analyze;
    IfSums(s, r, env, c);
    if c in OwnThrows(s) { assert Escapes(env.h, s, done, out, s.id, c); }
    assert forall i :: Escapes(env.h, s, done, out, i, c) <==>
             (i == s.id && c in OwnThrows(s)) || Escapes(env.h, s.thn, done, out, i, c)
             || (s.els.Some? && Escapes(env.h, s.els.value, done, out, i, c));
  }

  // ---- Statements in order

  ghost predicate SeqApart(ss: seq<Stmt>, env: Env) {
    && env.level > 0 && UniqueAll(ss)
    && (forall i :: 0 <= i < |ss| ==> Shape(ss[i]) && (IsLoop(ss[i]) ==> |ss| == 1))
    && Outer(env) * IdsOf(ss) <= (if |ss| == 1 && IsLoop(ss[0]) then Own(ss[0]) else {})
  }

  lemma {:induction false} FirstApart(ss: seq<Stmt>, env: Env)
    requires ss != [] && SeqApart(ss, env)
    ensures Apart(ss[0], env) && SeqApart(ss[1..], env) && Ids(ss[0]) !! IdsOf(ss[1..])
    ensures IdsOf(ss) == Ids(ss[0]) + IdsOf(ss[1..])
    ensures ss[1..] != [] ==> Outer(env) !! IdsOf(ss)
  {
    hide Shape, Unique;
    assert forall i :: 0 <= i < |ss| - 1 ==> ss[1..][i] == ss[i + 1];
  }

  lemma {:induction false} SeqForeign(ss: seq<Stmt>, r: bool, env: Env, ids: set<Id>)
    requires env.level > 0 && (forall i :: 0 <= i < |ss| ==> Shape(ss[i])) && IdsOf(ss) !! ids && Outer(env) !! ids
    ensures Foreign(AnalyzeSeq(ss, r, env), ids)
  {
    hide AnalyzeSeq, Rejected;
    SeqBounded(ss, r, env);
    SeqRejects(ss, r, env);
  }

  lemma {:induction false} SeqSums(ss: seq<Stmt>, r: bool, env: Env)
    requires ss != [] && env.level > 0
    ensures var f, f0 := AnalyzeSeq(ss, r, env), Analyze(ss[0], r, env);
            var rest := AnalyzeSeq(ss[1..], f0.completes, env);
            SumOf(f, f0, rest, {}) && f.errs == f0.errs + rest.errs && f.exc == f0.exc + rest.exc
  {
    hide Analyze;
  }

  lemma {:induction false} ExactSeq(ss: seq<Stmt>, r: bool, env: Env, done: set<Id>, out: set<Id>, c: Class)
    requires SeqApart(ss, env) && Agree(IdsOf(ss), AnalyzeSeq(ss, r, env), done, out)
    ensures ExactAmong(ss, AnalyzeSeq(ss, r, env), env, done, out, c)
    decreases ss, 0
  {
    hide Analyze, Apart, Uncaught, Escapes, Outer, Rejected, Shape;
    if ss != [] {
      FirstApart(ss, env);
      SeqSums(ss, r, env);
      var f, f0 := AnalyzeSeq(ss, r, env), Analyze(ss[0], r, env);
      var rest := AnalyzeSeq(ss[1..], f0.completes, env);
      ApartLevel(ss[0], env);
      if ss[1..] == [] {
        EmptySeqForeign(f0.completes, env, Ids(ss[0]));
      } else {
        SeqForeign(ss[1..], f0.completes, env, Ids(ss[0]));
        SiblingForeign(ss[0], r, env, IdsOf(ss[1..]));
      }
      PartAgrees(IdsOf(ss), Ids(ss[0]), f, f0, rest, {}, done, out);
      ExactStmt(ss[0], r, env, done, out, c);
      if ss[1..] == [] {
        NothingExact(f0.completes, env, done, out, c);
      } else {
        PartAgrees(IdsOf(ss), IdsOf(ss[1..]), f, rest, f0, {}, done, out);
        ExactSeq(ss[1..], f0.completes, env, done, out, c);
      }
      SeqExact(ss, f, f0, rest, env, done, out, c);
    } else {
      NothingExact(r, env, done, out, c);
    }
  }

  lemma {:induction false} EmptySeqForeign(r: bool, env: Env, ids: set<Id>)
    requires env.level > 0
    ensures Foreign(AnalyzeSeq([], r, env), ids)
  {
  }

  lemma {:induction false} NothingExact(r: bool, env: Env, done: set<Id>, out: set<Id>, c: Class)
    requires env.level > 0
    ensures ExactAmong([], AnalyzeSeq([], r, env), env, done, out, c)
  {
  }

  lemma {:induction false} SeqExact(ss: seq<Stmt>, f: Fx, f0: Fx, rest: Fx, env: Env, done: set<Id>, out: set<Id>,
                                    c: Class)
    requires ss != [] && f.errs == f0.errs + rest.errs && f.exc == f0.exc + rest.exc
    requires Exact(ss[0], f0, env, done, out, c) && ExactAmong(ss[1..], rest, env, done, out, c)
    ensures ExactAmong(ss, f, env, done, out, c)
  {
    hide Escapes, Uncaught;
    assert forall i :: EscapesAmong(env.h, ss, done, out, i, c) <==>
             Escapes(env.h, ss[0], done, out, i, c) || EscapesAmong(env.h, ss[1..], done, out, i, c);
  }

  /** The effects of s are those of its own expressions and of statements in order. */
  lemma {:induction false} SeqPart(s: Stmt, f: Fx, env: Env, ss: seq<Stmt>, fs: Fx, done: set<Id>, out: set<Id>,
                                   c: Class)
    requires ExactAmong(ss, fs, env, done, out, c)
    requires forall i :: Escapes(env.h, s, done, out, i, c) <==>
                         (i == s.id && c in OwnThrows(s)) || EscapesAmong(env.h, ss, done, out, i, c)
    requires forall i :: UncaughtException(i, c) in f.errs <==>
                         UncaughtException(i, c) in Eval(s.id, OwnThrows(s), env).errs + fs.errs
    requires c in f.exc <==> c in OwnThrows(s) || c in fs.exc
    ensures Exact(s, f, env, done, out, c)
  {
    hide Escapes, EscapesAmong;
    if c in OwnThrows(s) { assert Escapes(env.h, s, done, out, s.id, c); }
  }

  lemma {:induction false} BlockApart(s: Stmt, env: Env)
    requires s.Block? && Apart(s, env)
    ensures var inner := EnterBlock(s.id, s.tag, s.stmts, env);
            && SeqApart(s.stmts, inner) && inner.h == env.h && inner.level > 0
            && (forall c :: Uncaught(inner, c) <==> Uncaught(env, c))
    ensures s.id !in IdsOf(s.stmts) && IdsOf(s.stmts) <= Ids(s)
  {
    hide CaughtByTries, Declared, Checked;
    if s.stmts != [] && IsLoop(s.stmts[0]) { assert s.stmts[0].body.id in Ids(s.stmts[0].body); }
  }

  lemma {:induction false} BlockSums(s: Stmt, r: bool, env: Env, c: Class)
    requires s.Block? && env.level > 0
    ensures var f, fs := Analyze(s, r, env), AnalyzeSeq(s.stmts, r, EnterBlock(s.id, s.tag, s.stmts, env));
            && SumOf(f, fs, EMPTY, {s.id}) && f.exc == fs.exc
            && forall i :: UncaughtException(i, c) in f.errs <==> UncaughtException(i, c) in fs.errs
  {
    hide AnalyzeSeq, FirstUnreachable;
    BlockRejects(s.id, s.tag, s.stmts, r, env);
    assert Analyze(s, r, env) == AnalyzeBlock(s.id, s.tag, s.stmts, r, env);
  }

  lemma {:induction false} ExactBlock(s: Stmt, r: bool, env: Env, done: set<Id>, out: set<Id>, c: Class)
    requires s.Block? && Apart(s, env) && Agree(Ids(s), Analyze(s, r, env), done, out)
    ensures Exact(s, Analyze(s, r, env), env, done, out, c)
    decreases s, 1
  {
    hide Analyze, AnalyzeSeq, Apart, SeqApart, Uncaught, Outer, Rejected, EnterBlock;
    ApartLevel(s, env);
    var inner := EnterBlock(s.id, s.tag, s.stmts, env);
    BlockApart(s, env);
    BlockSums(s, r, env, c);
    EmptyForeign(IdsOf(s.stmts));
    var f, fs := Analyze(s, r, env), AnalyzeSeq(s.stmts, r, inner);
    PartAgrees(Ids(s), IdsOf(s.stmts), f, fs, EMPTY, {s.id}, done, out);
    ExactSeq(s.stmts, r, inner, done, out, c);
    NoThrows(s, env);
    SeqPart(s, f, env, s.stmts, fs, done, out, c);
  }

  lemma {:induction false} NoThrows(s: Stmt, env: Env)
    requires s.Block? || s.Try?
    ensures OwnThrows(s) == [] && Eval(s.id, [], env).errs == {}
  {
  }

  // ---- For statements

  ghost predicate Markless(f: Fx) {
    f.done == {} && forall id :: !Rejected(f, id)
  }

  lemma {:induction false} HeadersSum(ss: seq<Stmt>, env: Env)
    requires ss != [] && env.level > 0
    ensures var f, f0, rest := AnalyzeHeaders(ss, env), Analyze(ss[0], false, env), AnalyzeHeaders(ss[1..], env);
            f == f0.Then(rest)
  {
    hide Analyze;
  }

  lemma {:induction false} HeaderMarkless(s: Stmt, env: Env)
    requires IsHeader(s) && env.level > 0
    ensures Markless(Analyze(s, false, env))
  {
  }

  lemma {:induction false} MarklessThen(f: Fx, g: Fx)
    requires Markless(f) && Markless(g)
    ensures Markless(f.Then(g))
  {
    assert f.Then(g).done == {};
    forall id ensures !Rejected(f.Then(g), id) {
      assert !Rejected(f, id) && !Rejected(g, id);
    }
  }

  lemma {:induction false} HeadersExact(ss: seq<Stmt>, env: Env, done: set<Id>, out: set<Id>, c: Class)
    requires env.level > 0 && forall i :: 0 <= i < |ss| ==> IsHeader(ss[i])
    ensures ExactAmong(ss, AnalyzeHeaders(ss, env), env, done, out, c) && Markless(AnalyzeHeaders(ss, env))
    decreases |ss|
  {
    hide Analyze, Escapes, Uncaught;
    if ss != [] {
      ExactLeaf(ss[0], false, env, done, out, c);
      HeaderMarkless(ss[0], env);
      HeadersExact(ss[1..], env, done, out, c);
      HeadersSum(ss, env);
      MarklessThen(Analyze(ss[0], false, env), AnalyzeHeaders(ss[1..], env));
      SeqExact(ss, AnalyzeHeaders(ss, env), Analyze(ss[0], false, env), AnalyzeHeaders(ss[1..], env), env, done, out,
               c);
    }
  }

  /** The effects of a for statement, from those of its parts. */
  lemma {:induction false} ForEffects(s: Stmt, r: bool, env: Env)
    requires s.For? && env.level > 0
    ensures var f, fb := Analyze(s, r, env), Analyze(s.body, BodyReached(s, r), BodyPlace(s, env));
            var fi, fu := AnalyzeHeaders(s.init, env), AnalyzeHeaders(s.update, env);
            var unreached := If1(r && !BodyReached(s, r), UnreachableStatement(s.body.id));
            && f.done <= fu.done + fi.done + fb.done + {s.id} && fb.done <= f.done
            && f.errs == fu.errs + (fi.errs + Eval(s.id, OwnThrows(s), env).errs + fb.errs + unreached)
            && f.exc == fu.exc + (fi.exc + ElementsOf(OwnThrows(s)) + fb.exc)
  {
    hide Analyze, AnalyzeHeaders, AnalyzeLoop, Eval;
    ForAnalyzes(s, r, env);
    var c := ForCondition(s.end);
    var head := AnalyzeHeaders(s.init, env).Then(Eval(s.id, c.throws, env));
    LoopEffects(s.id, head, s.body, r, CanBe(c, true), r && CanBe(c, false), env);
    assert Eval(s.id, c.throws, env).done == {} && Eval(s.id, c.throws, env).exc == ElementsOf(c.throws) by {
      EvalEffects(s.id, c.throws, env);
    }
  }

  lemma {:induction false} EvalEffects(id: Id, throws: seq<Class>, env: Env)
    ensures Eval(id, throws, env).done == {} && Eval(id, throws, env).exc == ElementsOf(throws)
  {
  }

  lemma {:induction false} ForAnalyzes(s: Stmt, r: bool, env: Env)
    requires s.For? && env.level > 0
    ensures Analyze(s, r, env) == AnalyzeFor(s, r, env)
  {
    hide AnalyzeFor, AnalyzeHeaders, AnalyzeLoop, Eval;
  }

  lemma {:induction false} LoopEffects(id: Id, head: Fx, b: Stmt, r: bool, enters: bool, exits: bool, env: Env)
    requires env.level > 0
    ensures var f, fb := AnalyzeLoop(id, head, b, r, enters, exits, env), Analyze(b, r && enters, EnterLoop(b.id, env));
            && f.errs == head.errs + fb.errs + If1(r && !enters, UnreachableStatement(b.id))
            && f.exc == head.exc + fb.exc
            && f.done <= head.done + fb.done + {id} && fb.done <= f.done
  {
    hide Analyze;
  }

  lemma {:induction false} ForSums(s: Stmt, r: bool, env: Env, c: Class)
    requires s.For? && Shape(s) && env.level > 0
    requires Markless(AnalyzeHeaders(s.init, env)) && Markless(AnalyzeHeaders(s.update, env))
    ensures var f, fb := Analyze(s, r, env), Analyze(s.body, BodyReached(s, r), BodyPlace(s, env));
            var fi, fu := AnalyzeHeaders(s.init, env), AnalyzeHeaders(s.update, env);
            && SumOf(f, fb, EMPTY, {s.id})
            && (forall i :: UncaughtException(i, c) in f.errs <==>
                  UncaughtException(i, c) in Eval(s.id, OwnThrows(s), env).errs + fi.errs + fu.errs + fb.errs)
            && (c in f.exc <==> c in OwnThrows(s) || c in fi.exc || c in fu.exc || c in fb.exc)
  {
    hide Analyze, AnalyzeHeaders, OwnThrows;
    ForEffects(s, r, env);
    EvalClean(s.id, OwnThrows(s), env);
    var f, fb := Analyze(s, r, env), Analyze(s.body, BodyReached(s, r), BodyPlace(s, env));
    forall id ensures Rejected(f, id) <==> Rejected(fb, id) || Rejected(EMPTY, id) {
      assert !Rejected(AnalyzeHeaders(s.init, env), id) && !Rejected(AnalyzeHeaders(s.update, env), id);
    }
  }

  lemma {:induction false} ExactFor(s: Stmt, r: bool, env: Env, done: set<Id>, out: set<Id>, c: Class)
    requires s.For? && Apart(s, env) && Agree(Ids(s), Analyze(s, r, env), done, out)
    ensures Exact(s, Analyze(s, r, env), env, done, out, c)
    decreases s, 1
  {
    hide Analyze, AnalyzeHeaders, Apart, Uncaught, Escapes, Eval;
    ApartLevel(s, env);
    HeadersExact(s.init, env, done, out, c);
    HeadersExact(s.update, env, done, out, c);
    ForSums(s, r, env, c);
    BodyApart(s, env);
    EmptyForeign(Ids(s.body));
    var f, fb := Analyze(s, r, env), Analyze(s.body, BodyReached(s, r), BodyPlace(s, env));
    PartAgrees(Ids(s), Ids(s.body), f, fb, EMPTY, {s.id}, done, out);
    ExactStmt(s.body, BodyReached(s, r), BodyPlace(s, env), done, out, c);
    ForExact(s, r, env, done, out, c);
  }

  lemma {:induction false} ForExact(s: Stmt, r: bool, env: Env, done: set<Id>, out: set<Id>, c: Class)
    requires s.For? && Shape(s) && env.level > 0
    requires Exact(s.body, Analyze(s.body, BodyReached(s, r), BodyPlace(s, env)), env, done, out, c)
    ensures Exact(s, Analyze(s, r, env), env, done, out, c)
  {
    hide Analyze, AnalyzeHeaders;
    HeadersExact(s.init, env, done, out, c);
    HeadersExact(s.update, env, done, out, c);
    ForSums(s, r, env, c);
    if c in OwnThrows(s) { assert Escapes(env.h, s, done, out, s.id, c); }
    assert forall i :: Escapes(env.h, s, done, out, i, c) <==>
             (i == s.id && c in OwnThrows(s)) || EscapesAmong(env.h, s.init, done, out, i, c)
             || EscapesAmong(env.h, s.update, done, out, i, c) || Escapes(env.h, s.body, done, out, i, c);
  }

  // ---- Switch statements

  ghost predicate GroupsApart(gs: seq<Stmt>, env: Env) {
    && env.level > 0 && UniqueAll(gs) && (forall i :: 0 <= i < |gs| ==> IsPlain(gs[i]) && Shape(gs[i]))
    && Outer(env) !! IdsOf(gs)
  }

  lemma {:induction false} GroupsSums(gs: seq<Stmt>, r: bool, last: bool, env: Env)
    requires gs != [] && gs[0].Block?
    ensures var inner := env.(level := env.level + 1);
            var f, f0 := AnalyzeGroups(gs, r, last, env), AnalyzeSeq(gs[0].stmts, r, inner);
            var rest := AnalyzeGroups(gs[1..], r, f0.completes, env);
            && SumOf(f, f0, rest, {gs[0].id}) && f.exc == f0.exc + rest.exc
            && f.errs == f0.errs + GapErrors(gs[0].stmts, r, r, inner) + rest.errs
  {
    hide AnalyzeSeq, FirstUnreachable;
  }

  lemma {:induction false} GroupsForeign(gs: seq<Stmt>, r: bool, last: bool, env: Env, ids: set<Id>)
    requires env.level > 0 && (forall i :: 0 <= i < |gs| ==> gs[i].Block? && Shape(gs[i]))
    requires IdsOf(gs) !! ids && Outer(env) !! ids
    ensures Foreign(AnalyzeGroups(gs, r, last, env), ids)
  {
    hide AnalyzeGroups, Rejected;
    GroupsBounded(gs, r, last, env);
    GroupsReject(gs, r, last, env);
  }

  lemma {:induction false} FirstGroupApart(gs: seq<Stmt>, env: Env)
    requires gs != [] && GroupsApart(gs, env)
    ensures var inner := env.(level := env.level + 1);
            && SeqApart(gs[0].stmts, inner) && Outer(inner) == Outer(env)
            && (forall c :: Uncaught(inner, c) <==> Uncaught(env, c))
    ensures gs[0].id !in IdsOf(gs[0].stmts) && gs[0].id !in IdsOf(gs[1..])
    ensures IdsOf(gs[0].stmts) !! IdsOf(gs[1..]) && IdsOf(gs[0].stmts) <= IdsOf(gs)
    ensures GroupsApart(gs[1..], env) && IdsOf(gs[1..]) <= IdsOf(gs)
  {
    LevelOuter(env);
    hide Outer;
    var g := gs[0];
    assert Unique(g) && Ids(g) == {g.id} + IdsOf(g.stmts) && IdsOf(gs) == Ids(g) + IdsOf(gs[1..]);
  }

  lemma {:induction false} ExactGroups(gs: seq<Stmt>, r: bool, last: bool, env: Env, done: set<Id>, out: set<Id>,
                                       c: Class)
    requires GroupsApart(gs, env) && Agree(IdsOf(gs), AnalyzeGroups(gs, r, last, env), done, out)
    ensures ExactAmong(gs, AnalyzeGroups(gs, r, last, env), env, done, out, c)
    decreases gs, 0
  {
    hide Analyze, AnalyzeSeq, Uncaught, Escapes, Outer, Rejected, Shape, Unique, SeqApart, GapErrors;
    if gs != [] {
      var g, inner := gs[0], env.(level := env.level + 1);
      FirstGroupApart(gs, env);
      GroupsSums(gs, r, last, env);
      var f, f0 := AnalyzeGroups(gs, r, last, env), AnalyzeSeq(g.stmts, r, inner);
      var rest := AnalyzeGroups(gs[1..], r, f0.completes, env);
      SeqShapes(g);
      GroupsForeign(gs[1..], r, f0.completes, env, IdsOf(g.stmts));
      SeqForeign(g.stmts, r, inner, IdsOf(gs[1..]));
      PartAgrees(IdsOf(gs), IdsOf(g.stmts), f, f0, rest, {g.id}, done, out);
      PartAgrees(IdsOf(gs), IdsOf(gs[1..]), f, rest, f0, {g.id}, done, out);
      ExactSeq(g.stmts, r, inner, done, out, c);
      ExactGroups(gs[1..], r, f0.completes, env, done, out, c);
      GroupExact(g, f0, env, inner, done, out, c);
      GapsAside(g.stmts, r, inner);
      var fg := f0.(errs := f0.errs + GapErrors(g.stmts, r, r, inner));
      SeqExact(gs, f, fg, rest, env, done, out, c);
    }
  }

  lemma {:induction false} SeqShapes(g: Stmt)
    requires g.Block? && Shape(g)
    ensures forall i :: 0 <= i < |g.stmts| ==> Shape(g.stmts[i])
  {
  }

  lemma {:induction false} GapsAside(ss: seq<Stmt>, r: bool, env: Env)
    requires env.level > 0
    ensures forall i, c :: UncaughtException(i, c) !in GapErrors(ss, r, r, env)
  {
  }

  lemma {:induction false} GroupExact(g: Stmt, f: Fx, env: Env, inner: Env, done: set<Id>, out: set<Id>, c: Class)
    requires g.Block? && ExactAmong(g.stmts, f, inner, done, out, c) && inner.h == env.h
    requires Uncaught(inner, c) <==> Uncaught(env, c)
    ensures Exact(g, f, env, done, out, c)
    ensures forall errs: set<Error> :: (forall i :: UncaughtException(i, c) !in errs) ==>
              Exact(g, f.(errs := f.errs + errs), env, done, out, c)
  {
    hide Uncaught;
    assert forall i :: Escapes(env.h, g, done, out, i, c) <==> EscapesAmong(env.h, g.stmts, done, out, i, c);
  }

  lemma {:induction false} SwitchSums(s: Stmt, r: bool, env: Env, c: Class)
    requires s.Switch? && env.level > 0
    ensures var f, fg := Analyze(s, r, env), AnalyzeGroups(s.groups, r, false, EnterSwitch(s.blockId, env));
            && SumOf(f, fg, EMPTY, {s.id})
            && (forall i :: UncaughtException(i, c) in f.errs <==>
                            UncaughtException(i, c) in Eval(s.id, OwnThrows(s), env).errs + fg.errs)
            && (c in f.exc <==> c in OwnThrows(s) || c in fg.exc)
  {
    hide AnalyzeGroups;
  }

  lemma {:induction false} SwitchApart(s: Stmt, env: Env)
    requires s.Switch? && Apart(s, env)
    ensures var inner := EnterSwitch(s.blockId, env);
            && GroupsApart(s.groups, inner) && inner.h == env.h
            && (forall c :: Uncaught(inner, c) <==> Uncaught(env, c))
    ensures s.id !in IdsOf(s.groups) && IdsOf(s.groups) <= Ids(s)
  {
  }

  lemma {:induction false} ExactSwitch(s: Stmt, r: bool, env: Env, done: set<Id>, out: set<Id>, c: Class)
    requires s.Switch? && Apart(s, env) && Agree(Ids(s), Analyze(s, r, env), done, out)
    ensures Exact(s, Analyze(s, r, env), env, done, out, c)
    decreases s, 1
  {
    hide Analyze, AnalyzeGroups, Apart, GroupsApart, Uncaught, Outer, Rejected, Eval;
    ApartLevel(s, env);
    SwitchApart(s, env);
    SwitchSums(s, r, env, c);
    EmptyForeign(IdsOf(s.groups));
    var f, fg := Analyze(s, r, env), AnalyzeGroups(s.groups, r, false, EnterSwitch(s.blockId, env));
    PartAgrees(Ids(s), IdsOf(s.groups), f, fg, EMPTY, {s.id}, done, out);
    ExactGroups(s.groups, r, false, EnterSwitch(s.blockId, env), done, out, c);
    SeqPart(s, f, env, s.groups, fg, done, out, c);
  }

  // ---- Try statements

  /** A clause at the front of those left: reported, or processed. */
  lemma {:induction false} ClauseSums(cs: seq<Catch>, before: seq<Class>, found: set<Class>, env: Env)
    requires cs != [] && env.level > 0
    ensures var f := AnalyzeCatches(cs, before, found, env);
            var rest := AnalyzeCatches(cs[1..], before + [cs[0].cls], found, env);
            if CatchReachable(env.h, found, cs[0].cls) && !Covers(env.h, before, cs[0].cls) then
              var f0 := Analyze(cs[0].body, true, env);
              SumOf(f, f0, rest, {}) && f.errs == f0.errs + rest.errs && f.exc == f0.exc + rest.exc
            else
              && f.done == rest.done && f.exc == rest.exc && Rejected(f, cs[0].body.id)
              && (forall id :: id != cs[0].body.id ==> (Rejected(f, id) <==> Rejected(rest, id)))
              && forall i, c :: UncaughtException(i, c) in f.errs <==> UncaughtException(i, c) in rest.errs
  {
    hide Analyze;
    var c := cs[0];
    assert c.body < c;
  }

  ghost predicate ClausesApart(cs: seq<Catch>, env: Env) {
    && env.level > 0 && UniqueCatches(cs) && Outer(env) !! IdsOfCatches(cs)
    && forall i :: 0 <= i < |cs| ==> IsPlain(cs[i].body) && Shape(cs[i].body)
  }

  lemma {:induction false} FirstClauseApart(cs: seq<Catch>, env: Env)
    requires cs != [] && ClausesApart(cs, env)
    ensures Apart(cs[0].body, env) && ClausesApart(cs[1..], env)
    ensures Ids(cs[0].body) !! IdsOfCatches(cs[1..]) && cs[0].body.id in Ids(cs[0].body)
    ensures IdsOfCatches(cs) == Ids(cs[0].body) + IdsOfCatches(cs[1..])
  {
    var c := cs[0];
    assert c.body < c;
  }

  /** A block does not report itself as a clause. */
  lemma {:induction false} NotItself(b: Stmt, r: bool, env: Env)
    requires b.Block? && Unique(b) && env.level > 0
    ensures !Rejected(Analyze(b, r, env), b.id)
  {
    hide AnalyzeSeq, Rejected;
    var inner := EnterBlock(b.id, b.tag, b.stmts, env);
    assert Analyze(b, r, env) == AnalyzeBlock(b.id, b.tag, b.stmts, r, env);
    BlockRejects(b.id, b.tag, b.stmts, r, env);
    SeqRejects(b.stmts, r, inner);
  }

  lemma {:induction false} CatchesForeign(cs: seq<Catch>, before: seq<Class>, found: set<Class>, env: Env, ids: set<Id>)
    requires env.level > 0 && (forall i :: 0 <= i < |cs| ==> Shape(cs[i].body))
    requires IdsOfCatches(cs) !! ids && Outer(env) !! ids
    ensures Foreign(AnalyzeCatches(cs, before, found, env), ids)
  {
    hide AnalyzeCatches, Rejected;
    CatchesBounded(cs, before, found, env);
    CatchesReject(cs, before, found, env);
  }

  ghost predicate ExactClauses(cs: seq<Catch>, f: Fx, env: Env, done: set<Id>, out: set<Id>, c: Class) {
    && (forall i :: UncaughtException(i, c) in f.errs <==>
                    Uncaught(env, c) && EscapesClauses(env.h, cs, done, out, i, c))
    && (c in f.exc && c != ERROR && c != RUNTIME_EXCEPTION ==>
          exists i :: EscapesClauses(env.h, cs, done, out, i, c))
    && ((exists i :: EscapesClauses(env.h, cs, done, out, i, c)) ==> c in f.exc)
  }

  lemma {:induction false} ExactCatches(cs: seq<Catch>, before: seq<Class>, found: set<Class>, env: Env,
                                        done: set<Id>, out: set<Id>, c: Class)
    requires ClausesApart(cs, env)
    requires Agree(IdsOfCatches(cs), AnalyzeCatches(cs, before, found, env), done, out)
    ensures ExactClauses(cs, AnalyzeCatches(cs, before, found, env), env, done, out, c)
    decreases cs, 0
  {
    hide Analyze, Uncaught, Escapes, Outer, Rejected, Shape, Apart;
    if cs != [] {
      var k := cs[0];
      assert k.body < k;
      var f, f0 := AnalyzeCatches(cs, before, found, env), Analyze(k.body, true, env);
      var rest := AnalyzeCatches(cs[1..], before + [k.cls], found, env);
      FirstClauseApart(cs, env);
      ClauseSums(cs, before, found, env);
      ApartLevel(k.body, env);
      CatchesForeign(cs[1..], before + [k.cls], found, env, Ids(k.body));
      if CatchReachable(env.h, found, k.cls) && !Covers(env.h, before, k.cls) {
        SiblingForeign(k.body, true, env, IdsOfCatches(cs[1..]));
        PartAgrees(IdsOfCatches(cs), Ids(k.body), f, f0, rest, {}, done, out);
        PartAgrees(IdsOfCatches(cs), IdsOfCatches(cs[1..]), f, rest, f0, {}, done, out);
        ExactStmt(k.body, true, env, done, out, c);
        NotItself(k.body, true, env);
      }
      RestAgrees(cs, before, found, env, done, out);
      ExactCatches(cs[1..], before + [k.cls], found, env, done, out, c);
      ClauseExact(cs, before, found, env, done, out, c);
    }
  }

  lemma {:induction false} RestAgrees(cs: seq<Catch>, before: seq<Class>, found: set<Class>, env: Env,
                                      done: set<Id>, out: set<Id>)
    requires cs != [] && ClausesApart(cs, env)
    requires Agree(IdsOfCatches(cs), AnalyzeCatches(cs, before, found, env), done, out)
    ensures Agree(IdsOfCatches(cs[1..]), AnalyzeCatches(cs[1..], before + [cs[0].cls], found, env), done, out)
  {
    hide Analyze, AnalyzeCatches, Outer, Rejected, Shape, Apart;
    var k := cs[0];
    assert k.body < k;
    var f, f0 := AnalyzeCatches(cs, before, found, env), Analyze(k.body, true, env);
    var rest := AnalyzeCatches(cs[1..], before + [k.cls], found, env);
    FirstClauseApart(cs, env);
    ClauseSums(cs, before, found, env);
    ApartLevel(k.body, env);
    if CatchReachable(env.h, found, k.cls) && !Covers(env.h, before, k.cls) {
      SiblingForeign(k.body, true, env, IdsOfCatches(cs[1..]));
      PartAgrees(IdsOfCatches(cs), IdsOfCatches(cs[1..]), f, rest, f0, {}, done, out);
    }
  }

  lemma {:induction false} ClauseExact(cs: seq<Catch>, before: seq<Class>, found: set<Class>, env: Env,
                                       done: set<Id>, out: set<Id>, c: Class)
    requires cs != [] && ClausesApart(cs, env)
    requires Agree(IdsOfCatches(cs), AnalyzeCatches(cs, before, found, env), done, out)
    requires var rest := AnalyzeCatches(cs[1..], before + [cs[0].cls], found, env);
             ExactClauses(cs[1..], rest, env, done, out, c) && Foreign(rest, Ids(cs[0].body))
    requires CatchReachable(env.h, found, cs[0].cls) && !Covers(env.h, before, cs[0].cls) ==>
               && Exact(cs[0].body, Analyze(cs[0].body, true, env), env, done, out, c)
               && !Rejected(Analyze(cs[0].body, true, env), cs[0].body.id)
    ensures ExactClauses(cs, AnalyzeCatches(cs, before, found, env), env, done, out, c)
  {
    hide Analyze, AnalyzeCatches, Uncaught, Escapes, Outer, Rejected, Shape, Apart, CatchReachable, Covers;
    var k := cs[0];
    assert k.body < k;
    FirstClauseApart(cs, env);
    ClauseSums(cs, before, found, env);
    var f := AnalyzeCatches(cs, before, found, env);
    assert k.body.id in out <==> Rejected(f, k.body.id);
    assert forall i :: EscapesClauses(env.h, cs, done, out, i, c) <==>
             (k.body.id !in out && Escapes(env.h, k.body, done, out, i, c))
             || EscapesClauses(env.h, cs[1..], done, out, i, c);
  }

  function FinallyFx(s: Stmt, r: bool, env: Env): Fx
    requires s.Try? && env.level > 0
  {
    if s.fin.Some? then Analyze(s.fin.value, r, env) else EMPTY.(completes := true)
  }

  function BlockEnv(s: Stmt, r: bool, env: Env): Env
    requires s.Try? && env.level > 0
  {
    EnterTry(env, !FinallyFx(s, r, env).completes, CatchTypes(s.catches))
  }

  function ClausesEnv(s: Stmt, r: bool, env: Env): Env
    requires s.Try? && env.level > 0
  {
    EnterTry(env, !FinallyFx(s, r, env).completes, [])
  }

  function BlockFx(s: Stmt, r: bool, env: Env): Fx
    requires s.Try? && env.level > 0
  {
    Analyze(s.body, r, BlockEnv(s, r, env))
  }

  function ClausesFx(s: Stmt, r: bool, env: Env): Fx
    requires s.Try? && env.level > 0
  {
    AnalyzeCatches(s.catches, [], BlockFx(s, r, env).exc + {ERROR, RUNTIME_EXCEPTION}, ClausesEnv(s, r, env))
  }

  lemma {:induction false} TryEffects(s: Stmt, r: bool, env: Env)
    requires s.Try? && env.level > 0
    ensures var f, ff, fb, fc := Analyze(s, r, env), FinallyFx(s, r, env), BlockFx(s, r, env), ClausesFx(s, r, env);
            var found := fb.exc + {ERROR, RUNTIME_EXCEPTION};
            && f.errs == ff.errs + fb.errs + fc.errs
            && f.done <= ff.done + fb.done + fc.done + {s.id} && ff.done + fb.done + fc.done <= f.done
            && f.exc == ff.exc + if !ff.completes then {} else NotCaught(env.h, found, CatchTypes(s.catches)) + fc.exc
  {
    assert Analyze(s, r, env) == AnalyzeTry(s, r, env);
    hide Analyze, AnalyzeCatches;
  }

  lemma {:induction false} ForeignThen(f: Fx, g: Fx, ids: set<Id>)
    requires Foreign(f, ids) && Foreign(g, ids)
    ensures Foreign(f.Then(g), ids)
  {
    forall id | id in ids ensures !Rejected(f.Then(g), id) {
      assert !Rejected(f, id) && !Rejected(g, id);
    }
  }

  /** One of three parts. */
  lemma {:induction false} OfThree(ids: set<Id>, part: set<Id>, f: Fx, g: Fx, h: Fx, k: Fx, own: Id, done: set<Id>,
                                   out: set<Id>)
    requires Agree(ids, f, done, out) && part <= ids && own !in part && Foreign(h, part) && Foreign(k, part)
    requires f.errs == g.errs + h.errs + k.errs
    requires f.done <= g.done + h.done + k.done + {own} && g.done + h.done + k.done <= f.done
    ensures Agree(part, g, done, out)
  {
    ForeignThen(h, k, part);
    forall id ensures Rejected(f, id) <==> Rejected(g, id) || Rejected(h.Then(k), id) {
    }
    PartAgrees(ids, part, f, g, h.Then(k), {own}, done, out);
  }

  lemma {:induction false} TryApart(s: Stmt, r: bool, env: Env)
    requires s.Try? && Apart(s, env)
    ensures Apart(s.body, BlockEnv(s, r, env)) && ClausesApart(s.catches, ClausesEnv(s, r, env))
    ensures s.fin.Some? ==> Apart(s.fin.value, env)
    ensures Outer(env) !! Ids(s) && Outer(BlockEnv(s, r, env)) == Outer(env) == Outer(ClausesEnv(s, r, env))
  {
    hide Analyze, Ids, Unique, Outer;
    UniqueParts(s);
    ShapeParts(s);
    TryOuter(env, !FinallyFx(s, r, env).completes, CatchTypes(s.catches));
    TryOuter(env, !FinallyFx(s, r, env).completes, []);
    assert Own(s) == {};
  }

  /** Flags and reports of the three parts. */
  lemma {:induction false} TryAgrees(s: Stmt, r: bool, env: Env, done: set<Id>, out: set<Id>)
    requires s.Try? && Apart(s, env) && Agree(Ids(s), Analyze(s, r, env), done, out)
    ensures s.fin.Some? ==> Agree(Ids(s.fin.value), FinallyFx(s, r, env), done, out)
    ensures Agree(Ids(s.body), BlockFx(s, r, env), done, out)
    ensures Agree(IdsOfCatches(s.catches), ClausesFx(s, r, env), done, out)
  {
    hide Analyze, AnalyzeCatches, Apart, Outer, Rejected, Ids, IdsOfCatches, Unique, UniqueCatches, Shape, Agree;
    ApartLevel(s, env);
    UniqueParts(s);
    TryApart(s, r, env);
    TryEffects(s, r, env);
    var f, ff, fb, fc := Analyze(s, r, env), FinallyFx(s, r, env), BlockFx(s, r, env), ClausesFx(s, r, env);
    TryForeign(s, r, env);
    assert f.errs == fb.errs + ff.errs + fc.errs && f.errs == fc.errs + fb.errs + ff.errs;
    if s.fin.Some? {
      OfThree(Ids(s), Ids(s.fin.value), f, ff, fb, fc, s.id, done, out);
    }
    OfThree(Ids(s), Ids(s.body), f, fb, ff, fc, s.id, done, out);
    OfThree(Ids(s), IdsOfCatches(s.catches), f, fc, fb, ff, s.id, done, out);
  }

  lemma {:induction false} TryForeign(s: Stmt, r: bool, env: Env)
    requires s.Try? && Apart(s, env)
    ensures Foreign(FinallyFx(s, r, env), Ids(s.body)) && Foreign(FinallyFx(s, r, env), IdsOfCatches(s.catches))
    ensures Foreign(ClausesFx(s, r, env), Ids(s.body)) && Foreign(BlockFx(s, r, env), IdsOfCatches(s.catches))
    ensures s.fin.Some? ==>
              Foreign(BlockFx(s, r, env), Ids(s.fin.value)) && Foreign(ClausesFx(s, r, env), Ids(s.fin.value))
  {
    hide Analyze, AnalyzeCatches, Outer, Rejected, Ids, IdsOfCatches, Unique, UniqueCatches, Foreign;
    UniqueParts(s);
    ShapeParts(s);
    TryApart(s, r, env);
    var found := BlockFx(s, r, env).exc + {ERROR, RUNTIME_EXCEPTION};
    hide Shape;
    if s.fin.Some? {
      SiblingForeign(s.fin.value, r, env, Ids(s.body));
      SiblingForeign(s.fin.value, r, env, IdsOfCatches(s.catches));
      SiblingForeign(s.body, r, BlockEnv(s, r, env), Ids(s.fin.value));
      CatchesForeign(s.catches, [], found, ClausesEnv(s, r, env), Ids(s.fin.value));
    } else {
      DoneForeign(Ids(s.body));
      DoneForeign(IdsOfCatches(s.catches));
    }
    SiblingForeign(s.body, r, BlockEnv(s, r, env), IdsOfCatches(s.catches));
    CatchesForeign(s.catches, [], found, ClausesEnv(s, r, env), Ids(s.body));
  }

  lemma {:induction false} DoneForeign(ids: set<Id>)
    ensures Foreign(EMPTY.(completes := true), ids)
  {
  }

  /** The finally clause can complete exactly if its flag says so. */
  lemma {:induction false} FinallyFlag(s: Stmt, r: bool, env: Env, done: set<Id>, out: set<Id>)
    requires s.Try? && Apart(s, env) && (s.fin.Some? ==> Agree(Ids(s.fin.value), FinallyFx(s, r, env), done, out))
    ensures FinallyFx(s, r, env).completes <==> (s.fin.Some? ==> s.fin.value.id in done)
  {
    hide Analyze;
    TryApart(s, r, env);
    if s.fin.Some? {
      FlagTells(s.fin.value, r, env);
      assert s.fin.value.id in Ids(s.fin.value);
    }
  }

  lemma {:induction false} ExactTry(s: Stmt, r: bool, env: Env, done: set<Id>, out: set<Id>, c: Class)
    requires s.Try? && Apart(s, env) && Agree(Ids(s), Analyze(s, r, env), done, out)
    ensures Exact(s, Analyze(s, r, env), env, done, out, c)
    decreases s, 1
  {
    hide Analyze, AnalyzeCatches, Apart, Outer, Rejected, Ids, Exact, ExactClauses, Agree;
    TryApart(s, r, env);
    TryAgrees(s, r, env, done, out);
    FinallyFlag(s, r, env, done, out);
    ApartLevel(s, env);
    if s.fin.Some? { ExactStmt(s.fin.value, r, env, done, out, c); }
    ExactStmt(s.body, r, BlockEnv(s, r, env), done, out, c);
    ExactCatches(s.catches, [], BlockFx(s, r, env).exc + {ERROR, RUNTIME_EXCEPTION}, ClausesEnv(s, r, env), done, out,
                 c);
    TryExact(s, r, env, done, out, c);
  }

  lemma {:induction false} NoneCovers(h: Hierarchy, cs: seq<Catch>, c: Class)
    ensures Covers(h, CatchTypes(cs), c) <==> !(forall k :: 0 <= k < |cs| ==> !IsSubclass(h, c, cs[k].cls))
  {
    var types := CatchTypes(cs);
    if k :| 0 <= k < |cs| && IsSubclass(h, c, cs[k].cls) {
      assert types[k] == cs[k].cls;
    }
  }

  lemma {:induction false} TryExact(s: Stmt, r: bool, env: Env, done: set<Id>, out: set<Id>, c: Class)
    requires s.Try? && env.level > 0
    requires s.fin.Some? ==> Exact(s.fin.value, FinallyFx(s, r, env), env, done, out, c)
    requires Exact(s.body, BlockFx(s, r, env), BlockEnv(s, r, env), done, out, c)
    requires ExactClauses(s.catches, ClausesFx(s, r, env), ClausesEnv(s, r, env), done, out, c)
    requires FinallyFx(s, r, env).completes <==> (s.fin.Some? ==> s.fin.value.id in done)
    ensures Exact(s, Analyze(s, r, env), env, done, out, c)
  {
    hide Analyze, AnalyzeCatches, Uncaught, CatchTypes, Covers;
    TryEffects(s, r, env);
    NoneCovers(env.h, s.catches, c);
    var abrupt := !FinallyFx(s, r, env).completes;
    UncaughtInTry(env, abrupt, CatchTypes(s.catches), c);
    UncaughtInTry(env, abrupt, [], c);
    assert !Covers(env.h, [], c) by { NothingCovers(env.h, c); }
    assert BlockEnv(s, r, env).h == env.h && ClausesEnv(s, r, env).h == env.h;
    assert forall i :: Escapes(env.h, s, done, out, i, c) <==>
             || (s.fin.Some? && Escapes(env.h, s.fin.value, done, out, i, c))
             || (!abrupt && (|| (Escapes(env.h, s.body, done, out, i, c) && !Covers(env.h, CatchTypes(s.catches), c))
                             || EscapesClauses(env.h, s.catches, done, out, i, c)));
  }

  lemma {:induction false} NothingCovers(h: Hierarchy, c: Class)
    ensures !Covers(h, [], c)
  {
  }

  // ---- Clauses

  /** Some exception that the try block is taken to throw is a subclass or a superclass of cls. Unchecked ones
      may always be thrown. */
  ghost predicate MayCatch(s: Stmt, h: Hierarchy, done: set<Id>, out: set<Id>, cls: Class)
    requires s.Try?
  {
    exists x :: (x == ERROR || x == RUNTIME_EXCEPTION || Leaks(h, s.body, done, out, x))
                && (IsSubclass(h, x, cls) || IsSubclass(h, cls, x))
  }

  /** The report about clause k is its own. */
  lemma {:induction false} ClauseReport(cs: seq<Catch>, before: seq<Class>, found: set<Class>, env: Env, k: nat)
    requires ClausesApart(cs, env) && k < |cs|
    ensures var f, id, cls := AnalyzeCatches(cs, before, found, env), cs[k].body.id, cs[k].cls;
            && (UnreachableCatch(id) in f.errs <==> !CatchReachable(env.h, found, cls))
            && (BlockedCatch(id) in f.errs <==>
                  CatchReachable(env.h, found, cls) && Covers(env.h, before + CatchTypes(cs)[..k], cls))
    decreases k
  {
    hide Analyze, Outer, CatchReachable, Covers, Shape, Apart;
    var c := cs[0];
    assert c.body < c;
    FirstClauseApart(cs, env);
    var rest := AnalyzeCatches(cs[1..], before + [c.cls], found, env);
    assert CatchTypes(cs)[..0] == [] && before + [] == before;
    if k > 0 {
      ClauseReport(cs[1..], before + [c.cls], found, env, k - 1);
      assert before + CatchTypes(cs)[..k] == before + [c.cls] + CatchTypes(cs[1..])[..k - 1];
      RejectsInside(c.body, true, env);
      LaterId(cs, k);
      assert !Rejected(Analyze(c.body, true, env), cs[k].body.id);
    } else {
      CatchesReject(cs[1..], before + [c.cls], found, env);
      ApartLevel(c.body, env);
      NotItself(c.body, true, env);
      assert !Rejected(rest, c.body.id);
    }
    ClauseErrors(cs, before, found, env);
  }

  lemma {:induction false} LaterId(cs: seq<Catch>, k: nat)
    requires 0 < k < |cs| && UniqueCatches(cs)
    ensures cs[k].body.id !in Ids(cs[0].body) && cs[k].body.id != cs[0].body.id
    ensures cs[k] == cs[1..][k - 1]
  {
    var c := cs[0];
    assert c.body < c && c.body.id in Ids(c.body);
    ClauseIdIn(cs[1..], k - 1);
  }

  lemma {:induction false} ClauseIdIn(cs: seq<Catch>, k: nat)
    requires k < |cs|
    ensures cs[k].body.id in IdsOfCatches(cs)
  {
    var c := cs[0];
    assert c.body < c && c.body.id in Ids(c.body);
    if k > 0 { ClauseIdIn(cs[1..], k - 1); }
  }

  lemma {:induction false} ClauseErrors(cs: seq<Catch>, before: seq<Class>, found: set<Class>, env: Env)
    requires cs != [] && env.level > 0
    ensures var f, c := AnalyzeCatches(cs, before, found, env), cs[0];
            f.errs == (if !CatchReachable(env.h, found, c.cls) then {UnreachableCatch(c.body.id)}
                       else if Covers(env.h, before, c.cls) then {BlockedCatch(c.body.id)}
                       else Analyze(c.body, true, env).errs)
                      + AnalyzeCatches(cs[1..], before + [c.cls], found, env).errs
  {
    hide Analyze;
    var c := cs[0];
    assert c.body < c;
  }

  /** Which clauses of a reachable try statement are reported, in any environment: as unreachable exactly those
      that nothing the try block is taken to throw is related to, and as blocked exactly the others after a
      clause for the same class or a superclass. */
  lemma {:induction false} ClauseReportsExact(s: Stmt, env: Env, done: set<Id>, out: set<Id>, k: nat)
    requires s.Try? && Apart(s, env) && Agree(Ids(s), Analyze(s, true, env), done, out) && k < |s.catches|
    ensures var f, id, cls := Analyze(s, true, env), s.catches[k].body.id, s.catches[k].cls;
            && (UnreachableCatch(id) in f.errs <==> !MayCatch(s, env.h, done, out, cls))
            && (BlockedCatch(id) in f.errs <==>
                  && MayCatch(s, env.h, done, out, cls)
                  && exists j :: 0 <= j < k && IsSubclass(env.h, cls, s.catches[j].cls))
  {
    hide Analyze, AnalyzeCatches, Apart, Outer, Ids, Exact, Agree, Leaks, Shape, Unique, Uncaught;
    TryApart(s, true, env);
    TryAgrees(s, true, env, done, out);
    TryEffects(s, true, env);
    var found := BlockFx(s, true, env).exc + {ERROR, RUNTIME_EXCEPTION};
    ClauseReport(s.catches, [], found, ClausesEnv(s, true, env), k);
    OthersSilent(s, env, k);
    FoundExact(s, env, done, out, s.catches[k].cls);
    BeforeCovers(env.h, s.catches, k, s.catches[k].cls);
  }

  lemma {:induction false} BeforeCovers(h: Hierarchy, cs: seq<Catch>, k: nat, c: Class)
    requires k < |cs|
    ensures Covers(h, [] + CatchTypes(cs)[..k], c) <==> exists j :: 0 <= j < k && IsSubclass(h, c, cs[j].cls)
  {
    var types := [] + CatchTypes(cs)[..k];
    if j :| 0 <= j < k && IsSubclass(h, c, cs[j].cls) {
      assert types[j] == cs[j].cls;
    }
  }

  /** The other parts of a try statement do not report its clauses. */
  lemma {:induction false} OthersSilent(s: Stmt, env: Env, k: nat)
    requires s.Try? && Apart(s, env) && k < |s.catches|
    ensures var id := s.catches[k].body.id;
            !Rejected(FinallyFx(s, true, env), id) && !Rejected(BlockFx(s, true, env), id)
  {
    hide Analyze, Apart, Rejected;
    TryForeign(s, true, env);
    ClauseIdIn(s.catches, k);
  }

  lemma {:induction false} FoundExact(s: Stmt, env: Env, done: set<Id>, out: set<Id>, cls: Class)
    requires s.Try? && Apart(s, env) && Agree(Ids(s.body), BlockFx(s, true, env), done, out)
    ensures CatchReachable(env.h, BlockFx(s, true, env).exc + {ERROR, RUNTIME_EXCEPTION}, cls) <==>
            MayCatch(s, env.h, done, out, cls)
  {
    hide Analyze, Apart, Leaks, Agree, Uncaught;
    TryApart(s, true, env);
    var fb, benv := BlockFx(s, true, env), BlockEnv(s, true, env);
    forall x ensures x in fb.exc + {ERROR, RUNTIME_EXCEPTION} <==>
                     x == ERROR || x == RUNTIME_EXCEPTION || Leaks(env.h, s.body, done, out, x) {
      ExactStmt(s.body, true, benv, done, out, x);
    }
  }

  // ---- Method bodies

  /** The throws clauses name c or a superclass; for an initializer, those of each constructor. */
  ghost predicate Announced(h: Hierarchy, ctx: Context, c: Class) {
    match ctx
    case InMethod(throws) => Names(h, throws, c)
    case InInitializer(ctors) => forall n :: 0 <= n < |ctors| ==> Names(h, ctors[n], c)
  }

  ghost predicate Names(h: Hierarchy, cs: seq<Class>, c: Class) {
    exists k :: 0 <= k < |cs| && IsSubclass(h, c, cs[k])
  }

  /** The catch clauses in s that f reports. */
  function ReportedClauses(s: Stmt, f: Fx): set<Id> {
    set id | id in Ids(s) && Rejected(f, id)
  }

  /** Whatever the body: node i is reported for class c exactly if c is checked, no throws clause names it, and
      node i declares or throws it with no try statement in between that handles it. */
  lemma {:induction false} UncaughtExact(body: Stmt, isVoid: bool, h: Hierarchy, ctx: Context, i: Id, c: Class)
    requires body.Block? && Shape(body) && Unique(body)
    ensures var f := AnalyzeBody(body, isVoid, h, ctx);
            UncaughtException(i, c) in f.errs <==>
              && Checked(h, c) && !Announced(h, ctx, c)
              && Escapes(h, body, f.done, ReportedClauses(body, f), i, c)
  {
    hide AnalyzeSeq, Escapes, Uncaught, SeqApart;
    var env := MethodEnv(h, ctx);
    var inner := EnterBlock(body.id, body.tag, body.stmts, env);
    var f, fs := AnalyzeBody(body, isVoid, h, ctx), AnalyzeSeq(body.stmts, true, inner);
    var out := ReportedClauses(body, f);
    BodyApart0(body, h, ctx);
    BodySums(body, isVoid, h, ctx);
    ExactSeq(body.stmts, true, inner, f.done, out, c);
    UncaughtOutside(h, ctx, inner, c);
    BodyEscapes(body, h, f.done, out, i, c);
  }

  lemma {:induction false} BodyEscapes(body: Stmt, h: Hierarchy, done: set<Id>, out: set<Id>, i: Id, c: Class)
    requires body.Block?
    ensures Escapes(h, body, done, out, i, c) <==> EscapesAmong(h, body.stmts, done, out, i, c)
  {
  }

  lemma {:induction false} UncaughtOutside(h: Hierarchy, ctx: Context, env: Env, c: Class)
    requires env.h == h && env.ctx == ctx && env.tries == []
    ensures Uncaught(env, c) <==> Checked(h, c) && !Announced(h, ctx, c)
  {
    DeclaredIs(h, ctx, c);
  }

  lemma {:induction false} DeclaredIs(h: Hierarchy, ctx: Context, c: Class)
    ensures Declared(h, ctx, c) <==> Announced(h, ctx, c)
  {
    match ctx
    case InMethod(throws) => CoversIs(h, throws, c);
    case InInitializer(ctors) =>
      forall n | 0 <= n < |ctors| ensures Covers(h, ctors[n], c) <==> Names(h, ctors[n], c) {
        CoversIs(h, ctors[n], c);
      }
      assert Announced(h, ctx, c) <==> forall n :: 0 <= n < |ctors| ==> Names(h, ctors[n], c);
  }

  lemma {:induction false} CoversIs(h: Hierarchy, cs: seq<Class>, c: Class)
    ensures Covers(h, cs, c) <==> Names(h, cs, c)
  {
  }

  lemma {:induction false} BodyApart0(body: Stmt, h: Hierarchy, ctx: Context)
    requires body.Block? && Shape(body) && Unique(body)
    ensures var inner := EnterBlock(body.id, body.tag, body.stmts, MethodEnv(h, ctx));
            SeqApart(body.stmts, inner) && inner.h == h && inner.ctx == ctx && inner.tries == []
    ensures body.id !in IdsOf(body.stmts) && IdsOf(body.stmts) <= Ids(body)
  {
    var ss := body.stmts;
    if ss != [] && IsLoop(ss[0]) { assert ss[0].body.id in Ids(ss[0].body) && Ids(ss[0].body) <= Ids(ss[0]); }
  }

  lemma {:induction false} BodySums(body: Stmt, isVoid: bool, h: Hierarchy, ctx: Context)
    requires body.Block? && Shape(body) && Unique(body)
    ensures var inner := EnterBlock(body.id, body.tag, body.stmts, MethodEnv(h, ctx));
            var f, fs := AnalyzeBody(body, isVoid, h, ctx), AnalyzeSeq(body.stmts, true, inner);
            && Agree(IdsOf(body.stmts), fs, f.done, ReportedClauses(body, f))
            && forall i, c :: UncaughtException(i, c) in f.errs <==> UncaughtException(i, c) in fs.errs
  {
    hide AnalyzeSeq, FirstUnreachable;
    BlockRejects(body.id, body.tag, body.stmts, true, MethodEnv(h, ctx));
  }
}
