/** The statement analysis as a function of the syntax tree: which nodes it marks reachable and
    able to complete normally, which exceptions it collects and which errors it reports. The
    one-pass analysis over mutable stacks is in module Semantic. */
module Flow {
  import opened Classes
  import opened JavaAst
  import opened Options

  /** A block a jump leads to, with its nesting level. */
  datatype Target = Target(id: Id, level: nat)

  /** A label: its block, and the loop body when that block holds just a loop. */
  datatype LabelInfo = LabelInfo(target: Target, loopBody: Option<Id>)

  /** An enclosing try statement: whether its finally clause cannot complete normally, and the
      catch parameters when its try block, rather than a catch clause, is being processed. */
  datatype Frame = Frame(abrupt: bool, catching: seq<Class>)

  /** Whose throws clauses matter: those of the method, or, for an instance initializer of a named
      class, those of every constructor. */
  datatype Context = InMethod(throws: seq<Class>) | InInitializer(ctors: seq<seq<Class>>)

  datatype Error =
    | UnreachableStatement(id: Id)
    | UncaughtException(id: Id, cls: Class)
    | UnreachableCatch(id: Id)
    | BlockedCatch(id: Id)
    | DuplicateLabel(id: Id)
    | UndeclaredLabel(id: Id)
    | MisplacedBreak(id: Id)
    | MisplacedContinue(id: Id)
    | InvalidContinueTarget(id: Id)
    | MissingReturn(id: Id)
  {
    /** The jump or label itself is wrong. */
    predicate IsNaming() {
      DuplicateLabel? || UndeclaredLabel? || MisplacedBreak? || MisplacedContinue? || InvalidContinueTarget?
    }
  }

  /** The stacks of the analysis, as far down as they matter. `level` is the number of blocks open
      and `top` the innermost; `abrupt` is the level of the innermost finally clause that cannot
      complete normally, 0 if there is none; `continues` names a loop body. */
  datatype Env = Env(
    h: Hierarchy,
    ctx: Context,
    level: nat,
    top: Id,
    labels: map<string, LabelInfo>,
    breaks: Option<Target>,
    continues: Option<Target>,
    abrupt: nat,
    tries: seq<Frame>)

  /** Nodes marked reachable and able to complete normally (blocks outside the statement included,
      when a jump leads there), exceptions collected, errors reported, and whether the statement
      itself was marked able to complete normally. */
  datatype Fx = Fx(reach: set<Id>, done: set<Id>, exc: set<Class>, errs: set<Error>, completes: bool) {
    /** Effects of this and then g, completing as g does. */
    function Then(g: Fx): Fx {
      Fx(reach + g.reach, done + g.done, exc + g.exc, errs + g.errs, g.completes)
    }
  }

  function If1<T>(b: bool, x: T): set<T> {
    if b then {x} else {}
  }

  function ElementsOf<T>(s: seq<T>): set<T> {
    set x | x in s
  }

  // ---- Exceptions

  predicate Covers(h: Hierarchy, cs: seq<Class>, c: Class) {
    exists k :: 0 <= k < |cs| && IsSubclass(h, c, cs[k])
  }

  predicate CaughtByTries(h: Hierarchy, tries: seq<Frame>, c: Class) {
    tries != [] &&
    var f := tries[|tries| - 1];
    f.abrupt || Covers(h, f.catching, c) || CaughtByTries(h, tries[..|tries| - 1], c)
  }

  predicate Declared(h: Hierarchy, ctx: Context, c: Class) {
    match ctx
    case InMethod(throws) => Covers(h, throws, c)
    case InInitializer(ctors) => forall k :: 0 <= k < |ctors| ==> Covers(h, ctors[k], c)
  }

  predicate Uncaught(env: Env, c: Class) {
    Checked(env.h, c) && !CaughtByTries(env.h, env.tries, c) && !Declared(env.h, env.ctx, c)
  }

  function UncaughtErrors(id: Id, throws: seq<Class>, env: Env): set<Error> {
    set c | c in throws && Uncaught(env, c) :: UncaughtException(id, c)
  }

  /** Evaluating an expression of node `id` that declares these exceptions. */
  function Eval(id: Id, throws: seq<Class>, env: Env): Fx {
    Fx({}, {}, ElementsOf(throws), UncaughtErrors(id, throws, env), false)
  }

  function CatchTypes(cs: seq<Catch>): seq<Class> {
    seq(|cs|, i requires 0 <= i < |cs| => cs[i].cls)
  }

  /** Some exception of the set is a subclass or a superclass of the parameter type. */
  predicate CatchReachable(h: Hierarchy, set_: set<Class>, cls: Class) {
    exists x :: x in set_ && (IsSubclass(h, x, cls) || IsSubclass(h, cls, x))
  }

  /** What is left for the enclosing try statement. */
  function NotCaught(h: Hierarchy, set_: set<Class>, types: seq<Class>): set<Class> {
    set x | x in set_ && !Covers(h, types, x)
  }

  // ---- Environments

  /** The loop body a label stands for in a continue statement. */
  function LoopBodyOf(ss: seq<Stmt>): Option<Id> {
    if ss != [] && IsLoop(ss[0]) then Some(ss[0].body.id) else None
  }

  function EnterBlock(id: Id, tag: Option<string>, ss: seq<Stmt>, env: Env): Env {
    env.(level := env.level + 1, top := id,
         labels := if tag.Some? && tag.value !in env.labels
                   then env.labels[tag.value := LabelInfo(Target(id, env.level), LoopBodyOf(ss))]
                   else env.labels)
  }

  function LabelErrors(id: Id, tag: Option<string>, env: Env): set<Error> {
    If1(tag.Some? && tag.value in env.labels, DuplicateLabel(id))
  }

  /** Breaks lead to the block around the loop, continues to the loop body. */
  function EnterLoop(body: Id, env: Env): Env
    requires env.level > 0
  {
    env.(breaks := Some(Target(env.top, env.level - 1)), continues := Some(Target(body, env.level - 1)))
  }

  function EnterSwitch(blockId: Id, env: Env): Env {
    env.(level := env.level + 1, top := blockId, breaks := Some(Target(blockId, env.level)))
  }

  function EnterTry(env: Env, abrupt: bool, catching: seq<Class>): Env {
    env.(abrupt := if abrupt then env.level else env.abrupt, tries := env.tries + [Frame(abrupt, catching)])
  }

  /** The block a break leads to. */
  function BreakTarget(tag: Option<string>, env: Env): Option<Target> {
    match tag
    case None => env.breaks
    case Some(l) => if l in env.labels then Some(env.labels[l].target) else None
  }

  /** The loop body a continue leads to. */
  function ContinueTarget(tag: Option<string>, env: Env): Option<Target> {
    match tag
    case None => env.continues
    case Some(l) =>
      if env.continues.Some? && l in env.labels && env.labels[l].loopBody.Some?
      then Some(Target(env.labels[l].loopBody.value, env.labels[l].target.level)) else None
  }

  /** A jump to t marks it, unless an abrupt finally clause on the way discards the jump. */
  function Mark(t: Option<Target>, env: Env): set<Id> {
    If1(t.Some? && env.abrupt < t.value.level, if t.Some? then t.value.id else 0)
  }

  function BreakErrors(id: Id, tag: Option<string>, env: Env): set<Error> {
    If1(BreakTarget(tag, env).None?, if tag.Some? then UndeclaredLabel(id) else MisplacedBreak(id))
  }

  function ContinueErrors(id: Id, tag: Option<string>, env: Env): set<Error> {
    If1(ContinueTarget(tag, env).None?,
        if env.continues.None? then MisplacedContinue(id)
        else if tag.Some? && tag.value in env.labels then InvalidContinueTarget(id)
        else UndeclaredLabel(id))
  }

  // ---- Statements

  /** Analysis of statement s, reachable or not, in env. */
  function Analyze(s: Stmt, r: bool, env: Env): Fx
    requires env.level > 0
    decreases s, 1
  {
    match s
    case Simple(id, e) => Eval(id, e.throws, env).Then(Fx(If1(r, id), If1(r, id), {}, {}, r))
    case Local(id, _, e) => Eval(id, e.throws, env).Then(Fx(If1(r, id), If1(r, id), {}, {}, r))
    case Block(id, tag, ss) => AnalyzeBlock(id, tag, ss, r, env)
    case If(_, _, _, _) => AnalyzeIf(s, r, env)
    case While(id, c, b) =>
      AnalyzeLoop(id, Eval(id, c.throws, env), b, r, CanBe(c, true), r && CanBe(c, false), env)
    case For(_, _, _, _, _) => AnalyzeFor(s, r, env)
    case Foreach(id, _, _, e, b) =>
      var fb := Eval(id, e.throws, env).Then(Analyze(b, r, EnterLoop(b.id, env)));
      fb.Then(Fx(If1(r, id), If1(r, id), {}, {}, r))
    case Do(id, b, c) =>
      var fb := Analyze(b, r, EnterLoop(b.id, env));
      var ok := (fb.completes && CanBe(c, false)) || env.top in fb.done;
      fb.Then(Eval(id, c.throws, env)).Then(Fx(If1(r, id), If1(ok, id), {}, {}, ok))
    case Switch(id, bid, e, gs, hasDefault) =>
      var fg := AnalyzeGroups(gs, r, false, EnterSwitch(bid, env));
      var ok := bid in fg.done || !hasDefault || fg.completes;
      Eval(id, e.throws, env).Then(fg).Then(Fx(If1(r, id) + If1(r, bid), If1(ok, id), {}, {}, ok))
    case Break(id, tag) =>
      Fx(If1(r, id), if r then Mark(BreakTarget(tag, env), env) else {}, {}, BreakErrors(id, tag, env), false)
    case Continue(id, tag) =>
      Fx(If1(r, id), Mark(ContinueTarget(tag, env), env), {}, ContinueErrors(id, tag, env), false)
    case Return(id, e) => Eval(id, e.throws, env).Then(Fx(If1(r, id), {}, {}, {}, false))
    case Throw(id, e, cls) => Eval(id, e.throws + [cls], env).Then(Fx(If1(r, id), {}, {}, {}, false))
    case Try(_, _, _, _) => AnalyzeTry(s, r, env)
    case Sync(id, e, b) =>
      var fb := Eval(id, e.throws, env).Then(Analyze(b, r, env));
      fb.Then(Fx(If1(r, id), If1(fb.completes, id), {}, {}, fb.completes))
  }

  function AnalyzeIf(s: Stmt, r: bool, env: Env): Fx
    requires s.If? && env.level > 0
    decreases s, 0
  {
    var If(id, c, t, e) := s;
    var ft := Eval(id, c.throws, env).Then(Analyze(t, r, env));
    if e.Some? then
      var fe := Analyze(e.value, r, env);
      var ok := ft.completes || fe.completes;
      ft.Then(fe).Then(Fx(If1(r, id), If1(ok, id), {}, {}, ok))
    else
      ft.Then(Fx(If1(r, id), If1(r, id), {}, {}, r))
  }

  /** The finally clause first, because exceptions and jumps are dropped if it cannot complete
      normally; then the try block, then the clauses for what was found in it. */
  function AnalyzeTry(s: Stmt, r: bool, env: Env): Fx
    requires s.Try? && env.level > 0
    decreases s, 0
  {
    var Try(id, b, cs, f) := s;
    var ff := if f.Some? then Analyze(f.value, r, env) else Fx({}, {}, {}, {}, true);
    var abrupt := !ff.completes;
    var types := CatchTypes(cs);
    var fb := Analyze(b, r, EnterTry(env, abrupt, types));
    var found := fb.exc + {ERROR, RUNTIME_EXCEPTION};
    var fc := AnalyzeCatches(cs, [], found, EnterTry(env, abrupt, []));
    var ok := (fb.completes || fc.completes) && !abrupt;
    Fx(ff.reach + fb.reach + fc.reach + If1(r, id),
       ff.done + fb.done + fc.done + If1(ok, id),
       ff.exc + if abrupt then {} else NotCaught(env.h, found, types) + fc.exc,
       ff.errs + fb.errs + fc.errs,
       ok)
  }

  function AnalyzeFor(s: Stmt, r: bool, env: Env): Fx
    requires s.For? && env.level > 0
    decreases s, 0
  {
    var For(id, init, end, update, b) := s;
    var c := ForCondition(end);
    var head := AnalyzeHeaders(init, env).Then(Eval(id, c.throws, env));
    var fl := AnalyzeLoop(id, head, b, r, CanBe(c, true), r && CanBe(c, false), env);
    AnalyzeHeaders(update, env).Then(fl)
  }

  /** While and for: `head` is what precedes the body; the body is entered if `enters`, and the loop
      completes if its condition may fail or a jump marked the block around it. */
  function AnalyzeLoop(id: Id, head: Fx, b: Stmt, r: bool, enters: bool, exits: bool, env: Env): Fx
    requires env.level > 0
    decreases b, 2
  {
    var fb := Analyze(b, r && enters, EnterLoop(b.id, env));
    var ok := exits || env.top in fb.done;
    head.Then(fb).Then(Fx(If1(r, id), If1(ok, id), {}, If1(r && !enters, UnreachableStatement(b.id)), ok))
  }

  function AnalyzeBlock(id: Id, tag: Option<string>, ss: seq<Stmt>, r: bool, env: Env): Fx
    decreases ss, 3
  {
    var inner := EnterBlock(id, tag, ss, env);
    var f := AnalyzeSeq(ss, r, inner);
    var ok := f.completes || id in f.done;
    f.Then(Fx(If1(r, id), If1(ok, id), {}, LabelErrors(id, tag, env) + GapErrors(ss, r, r, inner), ok))
  }

  /** Each statement is reachable iff the one before it can complete normally. */
  function AnalyzeSeq(ss: seq<Stmt>, r: bool, env: Env): Fx
    requires env.level > 0
    decreases ss, 0
  {
    if ss == [] then Fx({}, {}, {}, {}, r)
    else
      var f := Analyze(ss[0], r, env);
      f.Then(AnalyzeSeq(ss[1..], f.completes, env))
  }

  /** The first statement of ss that is not reachable. */
  function FirstUnreachable(ss: seq<Stmt>, r: bool, env: Env): Option<Id>
    requires env.level > 0
    decreases ss, 0
  {
    if ss == [] then None
    else if !r then Some(ss[0].id)
    else FirstUnreachable(ss[1..], Analyze(ss[0], r, env).completes, env)
  }

  /** Reported only when the innermost open block is reachable. */
  function GapErrors(ss: seq<Stmt>, r: bool, topReachable: bool, env: Env): set<Error>
    requires env.level > 0
    decreases ss, 1
  {
    var u := FirstUnreachable(ss, r, env);
    If1(topReachable && u.Some?, UnreachableStatement(if u.Some? then u.value else 0))
  }

  /** For headers are processed without being marked reachable. */
  function AnalyzeHeaders(ss: seq<Stmt>, env: Env): Fx
    requires env.level > 0
    decreases ss, 2
  {
    if ss == [] then Fx({}, {}, {}, {}, false)
    else Analyze(ss[0], false, env).Then(AnalyzeHeaders(ss[1..], env))
  }

  /** Switch groups: each is reachable iff the switch is; completes as the last group does, `last` being
      the one before. */
  function AnalyzeGroups(gs: seq<Stmt>, r: bool, last: bool, env: Env): Fx
    decreases gs, 0
  {
    if gs == [] || !gs[0].Block? then Fx({}, {}, {}, {}, last)
    else
      var g := gs[0];
      var inner := env.(level := env.level + 1);
      var f := AnalyzeSeq(g.stmts, r, inner);
      var fg := f.Then(Fx(If1(r, g.id), If1(f.completes, g.id), {}, GapErrors(g.stmts, r, r, inner), f.completes));
      fg.Then(AnalyzeGroups(gs[1..], r, f.completes, env))
  }

  /** Catch clauses, given the exceptions found in the try block and the types of earlier clauses. A
      clause that is reported is not processed, though its block was marked reachable before. */
  function AnalyzeCatches(cs: seq<Catch>, before: seq<Class>, found: set<Class>, env: Env): Fx
    requires env.level > 0
    decreases cs, 0
  {
    if cs == [] then Fx({}, {}, {}, {}, false)
    else
      var c := cs[0];
      assert c.body < c;
      var f :=
        if !CatchReachable(env.h, found, c.cls) then
          Fx({c.body.id}, {}, {}, {UnreachableCatch(c.body.id)}, false)
        else if Covers(env.h, before, c.cls) then
          Fx({c.body.id}, {}, {}, {BlockedCatch(c.body.id)}, false)
        else
          Analyze(c.body, true, env);
      var g := AnalyzeCatches(cs[1..], before + [c.cls], found, env);
      f.Then(g).(completes := f.completes || g.completes)
  }
}
