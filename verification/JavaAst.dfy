/** Java statements as the parser builds them and the statement analysis sees them. */
module JavaAst {
  import opened Classes
  import opened Options

  /** Identity of an AST node. */
  type Id = nat

  /** What the analysis uses of an expression: the exceptions its method and constructor calls
      declare, and its value when it is a constant boolean. */
  datatype Expr = Expr(throws: seq<Class>, constant: Option<bool>)

  datatype Catch = Catch(cls: Class, body: Stmt)

  /** Statements. Loop bodies, branches and clauses are blocks (MakeBlock); a switch block
      statement group is a block among `groups`. */
  datatype Stmt =
    | Simple(id: Id, e: Expr)                              // expression, assert and empty statements
    | Local(id: Id, wide: seq<bool>, e: Expr)              // one flag per declarator: long or double
    | Block(id: Id, tag: Option<string>, stmts: seq<Stmt>)
    | If(id: Id, cond: Expr, thn: Stmt, els: Option<Stmt>)
    | While(id: Id, cond: Expr, body: Stmt)
    | Do(id: Id, body: Stmt, cond: Expr)
    | For(id: Id, init: seq<Stmt>, end: Option<Expr>, update: seq<Stmt>, body: Stmt)
    | Foreach(id: Id, wideIndex: bool, isArray: bool, e: Expr, body: Stmt)
    | Switch(id: Id, blockId: Id, e: Expr, groups: seq<Stmt>, hasDefault: bool)
    | Break(id: Id, target: Option<string>)
    | Continue(id: Id, target: Option<string>)
    | Return(id: Id, e: Expr)
    | Throw(id: Id, e: Expr, cls: Class)
    | Try(id: Id, body: Stmt, catches: seq<Catch>, fin: Option<Stmt>)
    | Sync(id: Id, e: Expr, body: Stmt)

  /** No constant excludes that e evaluates to `value`. */
  predicate CanBe(e: Expr, value: bool) {
    e.constant != Some(!value)
  }

  /** A for statement without a condition behaves as if it were constant true. */
  function ForCondition(end: Option<Expr>): Expr {
    if end.Some? then end.value else Expr([], Some(true))
  }

  predicate IsLoop(s: Stmt) {
    s.While? || s.Do? || s.For? || s.Foreach?
  }

  /** No statement inside. */
  predicate IsLeaf(s: Stmt) {
    s.Simple? || s.Local? || s.Return? || s.Throw? || s.Break? || s.Continue?
  }

  predicate IsHeader(s: Stmt) {
    s.Simple? || s.Local?
  }

  /** The block generated around a loop: the loop is all it holds. */
  predicate IsWrapper(s: Stmt) {
    s.Block? && |s.stmts| == 1 && IsLoop(s.stmts[0])
  }

  /** A block written with braces and carrying no label: a method, try, catch, finally or
      synchronized body, or a switch group. */
  predicate IsPlain(s: Stmt) {
    s.Block? && s.tag.None? && forall i :: 0 <= i < |s.stmts| ==> !IsLoop(s.stmts[i])
  }

  /** What the parser guarantees: each loop sits alone in its own block, labels are on blocks,
      and a switch group always has a statement. */
  predicate Shape(s: Stmt) {
    match s
    case Simple(_, _) => true
    case Local(_, _, _) => true
    case Block(_, _, ss) =>
      && (IsWrapper(s) || forall i :: 0 <= i < |ss| ==> !IsLoop(ss[i]))
      && forall i :: 0 <= i < |ss| ==> Shape(ss[i])
    case If(_, _, t, e) => t.Block? && Shape(t) && (e.Some? ==> e.value.Block? && Shape(e.value))
    case While(_, _, b) => b.Block? && Shape(b)
    case Do(_, b, _) => b.Block? && Shape(b)
    case For(_, init, _, update, b) =>
      && b.Block? && Shape(b)
      && (forall i :: 0 <= i < |init| ==> IsHeader(init[i]))
      && (forall i :: 0 <= i < |update| ==> IsHeader(update[i]))
    case Foreach(_, _, _, _, b) => b.Block? && Shape(b)
    case Switch(_, _, _, gs, hasDefault) =>
      && (hasDefault ==> gs != [])
      && forall i :: 0 <= i < |gs| ==> IsPlain(gs[i]) && gs[i].stmts != [] && Shape(gs[i])
    case Break(_, _) => true
    case Continue(_, _) => true
    case Return(_, _) => true
    case Throw(_, _, _) => true
    case Try(_, b, cs, f) =>
      && IsPlain(b) && Shape(b)
      && (forall i :: 0 <= i < |cs| ==> IsPlain(cs[i].body) && Shape(cs[i].body))
      && (f.Some? ==> IsPlain(f.value) && Shape(f.value))
    case Sync(_, _, b) => IsPlain(b) && Shape(b)
  }

  /** The statements in for headers: initialisers and updates. */
  function Headers(s: Stmt): set<Id> {
    match s
    case Block(_, _, ss) => HeadersOf(ss)
    case If(_, _, t, e) => Headers(t) + (if e.Some? then Headers(e.value) else {})
    case While(_, _, b) => Headers(b)
    case Do(_, b, _) => Headers(b)
    case For(_, init, _, update, b) =>
      (set i | 0 <= i < |init| :: init[i].id) + (set i | 0 <= i < |update| :: update[i].id) + Headers(b)
    case Foreach(_, _, _, _, b) => Headers(b)
    case Switch(_, _, _, gs, _) => HeadersOf(gs)
    case Try(_, b, cs, f) =>
      Headers(b) + HeadersOfCatches(cs) + (if f.Some? then Headers(f.value) else {})
    case Sync(_, _, b) => Headers(b)
    case _ => {}
  }

  function HeadersOf(ss: seq<Stmt>): set<Id> {
    if ss == [] then {} else Headers(ss[0]) + HeadersOf(ss[1..])
  }

  function HeadersOfCatches(cs: seq<Catch>): set<Id> {
    if cs == [] then {} else
      var c := cs[0];
      assert c.body < c;
      Headers(c.body) + HeadersOfCatches(cs[1..])
  }

  // ---- Identity of nodes

  /** All nodes of s, for headers and switch blocks included. */
  function Ids(s: Stmt): set<Id> {
    {s.id} + match s
    case Block(_, _, ss) => IdsOf(ss)
    case If(_, _, t, e) => Ids(t) + (if e.Some? then Ids(e.value) else {})
    case While(_, _, b) => Ids(b)
    case Do(_, b, _) => Ids(b)
    case For(_, init, _, update, b) => IdsOf(init) + IdsOf(update) + Ids(b)
    case Foreach(_, _, _, _, b) => Ids(b)
    case Switch(_, bid, _, gs, _) => {bid} + IdsOf(gs)
    case Try(_, b, cs, f) => Ids(b) + IdsOfCatches(cs) + (if f.Some? then Ids(f.value) else {})
    case Sync(_, _, b) => Ids(b)
    case _ => {}
  }

  function IdsOf(ss: seq<Stmt>): set<Id> {
    if ss == [] then {} else Ids(ss[0]) + IdsOf(ss[1..])
  }

  function IdsOfCatches(cs: seq<Catch>): set<Id> {
    if cs == [] then {} else
      var c := cs[0];
      assert c.body < c;
      Ids(c.body) + IdsOfCatches(cs[1..])
  }

  /** The nodes of s are distinct objects. */
  predicate Unique(s: Stmt) {
    match s
    case Simple(_, _) => true
    case Local(_, _, _) => true
    case Block(id, _, ss) => id !in IdsOf(ss) && UniqueAll(ss)
    case If(id, _, t, e) =>
      && Unique(t) && id !in Ids(t)
      && (e.Some? ==> Unique(e.value) && id !in Ids(e.value) && Ids(t) !! Ids(e.value))
    case While(id, _, b) => Unique(b) && id !in Ids(b)
    case Do(id, b, _) => Unique(b) && id !in Ids(b)
    case For(id, init, _, update, b) =>
      && Unique(b) && id !in Ids(b) && UniqueAll(init) && UniqueAll(update)
      && id !in IdsOf(init) && id !in IdsOf(update)
      && IdsOf(init) !! IdsOf(update) && IdsOf(init) !! Ids(b) && IdsOf(update) !! Ids(b)
    case Foreach(id, _, _, _, b) => Unique(b) && id !in Ids(b)
    case Switch(id, bid, _, gs, _) => UniqueAll(gs) && id !in IdsOf(gs) && bid !in IdsOf(gs) && id != bid
    case Break(_, _) => true
    case Continue(_, _) => true
    case Return(_, _) => true
    case Throw(_, _, _) => true
    case Try(id, b, cs, f) =>
      && Unique(b) && UniqueCatches(cs)
      && id !in Ids(b) && id !in IdsOfCatches(cs) && Ids(b) !! IdsOfCatches(cs)
      && (f.Some? ==> Unique(f.value) && id !in Ids(f.value)
                      && Ids(f.value) !! Ids(b) && Ids(f.value) !! IdsOfCatches(cs))
    case Sync(id, _, b) => Unique(b) && id !in Ids(b)
  }

  predicate UniqueAll(ss: seq<Stmt>) {
    ss != [] ==> Unique(ss[0]) && UniqueAll(ss[1..]) && Ids(ss[0]) !! IdsOf(ss[1..])
  }

  predicate UniqueCatches(cs: seq<Catch>) {
    cs != [] ==>
      var c := cs[0];
      assert c.body < c;
      Unique(c.body) && UniqueCatches(cs[1..]) && Ids(c.body) !! IdsOfCatches(cs[1..])
  }

  lemma {:induction false} UniqueParts(s: Stmt)
    requires s.Try? && Unique(s)
    ensures Unique(s.body) && UniqueCatches(s.catches) && (s.fin.Some? ==> Unique(s.fin.value))
    ensures s.id !in Ids(s.body) && s.id !in IdsOfCatches(s.catches) && Ids(s.body) !! IdsOfCatches(s.catches)
    ensures s.fin.Some? ==>
              s.id !in Ids(s.fin.value) && Ids(s.fin.value) !! Ids(s.body) &&
              Ids(s.fin.value) !! IdsOfCatches(s.catches)
    ensures s.id in Ids(s) && Ids(s.body) <= Ids(s) && IdsOfCatches(s.catches) <= Ids(s)
    ensures s.fin.Some? ==> Ids(s.fin.value) <= Ids(s)
  {
  }

  lemma {:induction false} ShapeParts(s: Stmt)
    requires s.Try? && Shape(s)
    ensures IsPlain(s.body) && Shape(s.body) && (s.fin.Some? ==> IsPlain(s.fin.value) && Shape(s.fin.value))
    ensures forall k :: 0 <= k < |s.catches| ==> IsPlain(s.catches[k].body) && Shape(s.catches[k].body)
  {
  }
}
