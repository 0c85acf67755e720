/** What a statement may do at run time, as trees of runs. A run may stop at any point with
    outcome Suspended, so the trees also cover every finite part of a run that never ends.
    Constants decide the conditions of loops; an if statement may take either way whatever its
    condition, as the Java Language Specification has it for reachability (section 14.21). */
module Runs {
  import opened Classes
  import opened JavaAst
  import opened Options

  datatype Outcome =
    | Normal
    | BreakOut(tag: Option<string>)
    | ContinueOut(tag: Option<string>)
    | ReturnOut
    | ThrowOut(cls: Class)
    | Suspended

  /** A run of statement `at`. The kids are the runs of the statements it executed, in order;
      `pick` is the switch group entered or the catch clause taken. */
  datatype Run = Run(at: Stmt, kids: seq<Run>, pick: nat, out: Outcome)

  /** Exceptions evaluating e may raise: instances of what it declares, and any unchecked one. */
  ghost predicate MayThrow(h: Hierarchy, throws: seq<Class>, x: Class) {
    !Checked(h, x) || exists t :: t in throws && IsSubclass(h, x, t)
  }

  ghost predicate Raises(h: Hierarchy, e: Expr, o: Outcome) {
    o.ThrowOut? && MayThrow(h, e.throws, o.cls)
  }

  /** `o` is how a statement may end while evaluating e, or by stopping there. */
  ghost predicate Cut(h: Hierarchy, e: Expr, o: Outcome) {
    o.Suspended? || Raises(h, e, o)
  }

  /** What is evaluated between two statements of a block: an unchecked exception may strike there too. */
  const NOTHING := Expr([], None)

  /** A loop whose own block is labelled `owner` goes on to its next round after `o`. */
  predicate Repeats(o: Outcome, owner: Option<string>) {
    o.Normal? || (o.ContinueOut? && (o.tag.None? || o.tag == owner))
  }

  function LeaveLoop(o: Outcome): Outcome {
    if o == BreakOut(None) then Normal else o
  }

  function LeaveBlock(o: Outcome, tag: Option<string>): Outcome {
    if tag.Some? && o == BreakOut(tag) then Normal else o
  }

  predicate Catches(h: Hierarchy, c: Catch, o: Outcome) {
    o.ThrowOut? && IsSubclass(h, o.cls, c.cls)
  }

  /** Clause k is the first that catches what o throws. */
  predicate TakenBy(h: Hierarchy, cs: seq<Catch>, o: Outcome, k: nat) {
    k < |cs| && Catches(h, cs[k], o) && forall j :: 0 <= j < k ==> !Catches(h, cs[j], o)
  }

  predicate NoneCatches(h: Hierarchy, cs: seq<Catch>, o: Outcome) {
    forall j :: 0 <= j < |cs| ==> !Catches(h, cs[j], o)
  }

  /** r is a possible run of r.at inside a block labelled `owner`. */
  ghost predicate Valid(h: Hierarchy, r: Run, owner: Option<string>)
    decreases r, 0
  {
    match r.at
    case Simple(_, e) => r.kids == [] && (r.out.Normal? || Cut(h, e, r.out))
    case Local(_, _, e) => r.kids == [] && (r.out.Normal? || Cut(h, e, r.out))
    case Block(_, tag, ss) =>
      exists o :: ValidSeq(h, r.kids, ss, tag, o) && r.out == LeaveBlock(o, tag)
    case If(_, c, t, e) =>
      if r.kids == [] then
        Cut(h, c, r.out) || (e.None? && r.out.Normal?)
      else
        && |r.kids| == 1 && Valid(h, r.kids[0], None) && r.out == r.kids[0].out
        && (r.kids[0].at == t || (e.Some? && r.kids[0].at == e.value))
    case While(_, c, b) => ValidWhile(h, r.kids, b, c, [], owner, r.out)
    case Do(_, b, c) => ValidDo(h, r.kids, b, c, owner, r.out)
    case For(_, init, end, update, b) => ValidFor(h, r.kids, init, end, update, b, owner, r.out)
    case Foreach(_, _, _, e, b) => ValidWhile(h, r.kids, b, Expr(e.throws, None), [], owner, r.out)
    case Switch(_, _, e, gs, hasDefault) =>
      if r.kids == [] then
        Cut(h, e, r.out) || (!hasDefault && r.out.Normal?)
      else
        && r.pick < |gs|
        && exists o :: ValidSeq(h, r.kids, gs[r.pick..], None, o) && r.out == LeaveLoop(o)
    case Break(_, target) => r.kids == [] && (r.out == BreakOut(target) || r.out.Suspended?)
    case Continue(_, target) => r.kids == [] && (r.out == ContinueOut(target) || r.out.Suspended?)
    case Return(_, e) => r.kids == [] && (r.out.ReturnOut? || Cut(h, e, r.out))
    case Throw(_, e, cls) => r.kids == [] && (Cut(h, e, r.out) || Raises(h, Expr([cls], None), r.out))
    case Try(_, b, cs, f) =>
      if r.kids == [] then
        r.out.Suspended?
      else
        && r.kids[0].at == b && Valid(h, r.kids[0], None)
        && var o := r.kids[0].out;
           if NoneCatches(h, cs, o) then
             ValidFinally(h, r.kids[1..], f, o, r.out)
           else if |r.kids| == 1 then
             r.out.Suspended?
           else
             && TakenBy(h, cs, o, r.pick)
             && r.kids[1].at == cs[r.pick].body && Valid(h, r.kids[1], None)
             && ValidFinally(h, r.kids[2..], f, r.kids[1].out, r.out)
    case Sync(_, e, b) =>
      if r.kids == [] then
        Cut(h, e, r.out)
      else
        |r.kids| == 1 && r.kids[0].at == b && Valid(h, r.kids[0], None) && r.out == r.kids[0].out
  }

  /** The kids run statements ss in order, as far as they go, ending with o. */
  ghost predicate ValidSeq(h: Hierarchy, kids: seq<Run>, ss: seq<Stmt>, owner: Option<string>, o: Outcome)
    decreases kids, 1
  {
    if kids == [] then
      Cut(h, NOTHING, o) || (ss == [] && o.Normal?)
    else
      && ss != [] && kids[0].at == ss[0] && Valid(h, kids[0], owner)
      && if kids[0].out.Normal? then ValidSeq(h, kids[1..], ss[1..], owner, o)
         else |kids| == 1 && o == kids[0].out
  }

  /** Test, body, update, and round again. */
  ghost predicate ValidWhile(h: Hierarchy, kids: seq<Run>, b: Stmt, c: Expr, update: seq<Stmt>, owner: Option<string>,
                             o: Outcome)
    decreases kids, 1
  {
    if kids == [] then
      Cut(h, c, o) || (CanBe(c, false) && o.Normal?)
    else
      && CanBe(c, true) && kids[0].at == b && Valid(h, kids[0], None)
      && if Repeats(kids[0].out, owner) then ValidUpdate(h, kids[1..], b, c, update, update, owner, o)
         else |kids| == 1 && o == LeaveLoop(kids[0].out)
  }

  /** The updates still to do in this round are `rest`. */
  ghost predicate ValidUpdate(h: Hierarchy, kids: seq<Run>, b: Stmt, c: Expr, update: seq<Stmt>, rest: seq<Stmt>,
                              owner: Option<string>, o: Outcome)
    decreases kids, 2 + |rest|
  {
    if rest == [] then
      ValidWhile(h, kids, b, c, update, owner, o)
    else if kids == [] then
      o.Suspended?
    else
      && kids[0].at == rest[0] && Valid(h, kids[0], None)
      && if kids[0].out.Normal? then ValidUpdate(h, kids[1..], b, c, update, rest[1..], owner, o)
         else |kids| == 1 && o == kids[0].out
  }

  ghost predicate ValidDo(h: Hierarchy, kids: seq<Run>, b: Stmt, c: Expr, owner: Option<string>, o: Outcome)
    decreases kids, 1
  {
    if kids == [] then
      o.Suspended?
    else
      && kids[0].at == b && Valid(h, kids[0], None)
      && if Repeats(kids[0].out, owner) then
           || (|kids| == 1 && (Cut(h, c, o) || (CanBe(c, false) && o.Normal?)))
           || (CanBe(c, true) && ValidDo(h, kids[1..], b, c, owner, o))
         else |kids| == 1 && o == LeaveLoop(kids[0].out)
  }

  /** Initialisers, then the loop; a missing condition is constant true. */
  ghost predicate ValidFor(h: Hierarchy, kids: seq<Run>, init: seq<Stmt>, end: Option<Expr>, update: seq<Stmt>, b: Stmt,
                           owner: Option<string>, o: Outcome)
    decreases kids, 2 + |init|
  {
    if init == [] then
      ValidWhile(h, kids, b, ForCondition(end), update, owner, o)
    else if kids == [] then
      o.Suspended?
    else
      && kids[0].at == init[0] && Valid(h, kids[0], None)
      && if kids[0].out.Normal? then ValidFor(h, kids[1..], init[1..], end, update, b, owner, o)
         else |kids| == 1 && o == kids[0].out
  }

  /** `before` is how the try block or the catch clause ended; o is how the try statement ends. */
  ghost predicate ValidFinally(h: Hierarchy, kids: seq<Run>, f: Option<Stmt>, before: Outcome, o: Outcome)
    decreases kids, 1
  {
    if kids == [] then
      o.Suspended? || (f.None? && o == before)
    else
      && f.Some? && !before.Suspended? && |kids| == 1
      && kids[0].at == f.value && Valid(h, kids[0], None)
      && o == if kids[0].out.Normal? then before else kids[0].out
  }

  /** q is r or a run inside it: q.at was executed during r. */
  ghost predicate Within(q: Run, r: Run)
    decreases r
  {
    q == r || exists i :: 0 <= i < |r.kids| && Within(q, r.kids[i])
  }
}
