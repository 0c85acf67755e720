/** Local variable slots: which slots each variable and helper gets, and that nothing live at the same
    time shares one. Methods without try-with-resources and string switches. */
module Slots {
  import opened JavaAst
  import opened Options

  /** A local variable: declarator `index` of a declaration, a foreach variable, or the parameter of the
      catch clause with that block. */
  datatype Var = LocalVar(id: Id, index: nat) | ForeachVar(id: Id) | CatchParam(id: Id)

  /** First slot of each variable, and of the helper slots of each block. */
  datatype Layout = Layout(vars: map<Var, nat>, helpers: map<Id, nat>)

  /** What the allocator keeps for an open block: the next free slot, the first helper slot if reserved,
      and the highest next free slot of the blocks closed inside it. */
  datatype Scope = Scope(next: nat, helper: Option<nat>, enclosed: nat)

  function Max(a: nat, b: nat): nat {
    if a < b then b else a
  }

  function Width(wide: bool): nat {
    if wide then 2 else 1
  }

  function Widths(wide: seq<bool>): nat {
    if wide == [] then 0 else Width(wide[0]) + Widths(wide[1..])
  }

  /** Helper slots of a try-finally or synchronized statement: an exception, a return address, and the
      method's result (`ret` slots). */
  function HelperSize(ret: nat): nat {
    2 + ret
  }

  /** The first statement of a block that needs helpers reserves them for all. */
  function Reserve(sc: Scope, ret: nat): Scope {
    if sc.helper.Some? then sc else sc.(helper := Some(sc.next), next := sc.next + HelperSize(ret))
  }

  function Enclose(sc: Scope, blockMax: nat): Scope {
    sc.(enclosed := Max(sc.enclosed, blockMax))
  }

  function ForeachHelperSize(isArray: bool): nat {
    if isArray then 3 else 1
  }

  /** The next free slot of block b at its end, nested blocks included, when it starts at m. */
  function BlockMax(b: Stmt, m: nat, ret: nat): nat
    decreases b, 0
  {
    if !b.Block? then m else
      var sc := NextSeq(b.stmts, Scope(m, None, 0), ret);
      Max(sc.next, sc.enclosed)
  }

  /** Where the bodies of a try statement start: past the slots of the finally clause. */
  function TryStart(s: Stmt, sc: Scope, ret: nat): nat
    requires s.Try?
    decreases s, 0
  {
    if s.fin.Some? then BlockMax(s.fin.value, Reserve(sc, ret).next, ret) else sc.next
  }

  /** The scope after statement s. */
  function Next(s: Stmt, sc: Scope, ret: nat): Scope
    decreases s, 1
  {
    match s
    case Local(_, wide, _) => sc.(next := sc.next + Widths(wide))
    case Block(_, _, _) => Enclose(sc, BlockMax(s, sc.next, ret))
    case If(_, _, t, e) =>
      var sc1 := Enclose(sc, BlockMax(t, sc.next, ret));
      if e.Some? then Enclose(sc1, BlockMax(e.value, sc.next, ret)) else sc1
    case While(_, _, b) => Enclose(sc, BlockMax(b, sc.next, ret))
    case Do(_, b, _) => Enclose(sc, BlockMax(b, sc.next, ret))
    case For(_, init, _, _, b) =>
      var sc1 := NextSeq(init, sc, ret);
      Enclose(sc1, BlockMax(b, sc1.next, ret))
    case Foreach(_, wide, isArray, _, b) =>
      var h := sc.next + Width(wide);
      var sc1 := sc.(helper := Some(h), next := h + ForeachHelperSize(isArray));
      Enclose(sc1, BlockMax(b, sc1.next, ret))
    case Switch(_, _, _, gs, _) =>
      var inner := NextGroups(gs, Scope(sc.next, None, 0), ret);
      Enclose(sc, Max(inner.next, inner.enclosed))
    case Sync(_, _, b) =>
      var sc1 := Reserve(sc, ret);
      Enclose(sc1, BlockMax(b, sc1.next, ret))
    case Try(_, b, cs, f) =>
      var sc1 := if f.Some? then Enclose(Reserve(sc, ret), TryStart(s, sc, ret)) else sc;
      var m := TryStart(s, sc, ret);
      NextCatches(cs, m, Enclose(sc1, BlockMax(b, m, ret)), ret)
    case _ => sc
  }

  function NextSeq(ss: seq<Stmt>, sc: Scope, ret: nat): Scope
    decreases ss, 0
  {
    if ss == [] then sc else NextSeq(ss[1..], Next(ss[0], sc, ret), ret)
  }

  /** Locals of a switch group belong to the block of the switch; blocks inside the group count for the
      group first. */
  function NextGroup(g: Stmt, sc: Scope, ret: nat): Scope
    decreases g, 0
  {
    if !g.Block? then sc else
      var sg := NextSeq(g.stmts, sc.(enclosed := 0), ret);
      sg.(enclosed := Max(sc.enclosed, Max(sc.next, sg.enclosed)))
  }

  function NextGroups(gs: seq<Stmt>, sc: Scope, ret: nat): Scope
    decreases gs, 0
  {
    if gs == [] then sc else NextGroups(gs[1..], NextGroup(gs[0], sc, ret), ret)
  }

  /** Each clause starts at m with its parameter. */
  function NextCatches(cs: seq<Catch>, m: nat, sc: Scope, ret: nat): Scope
    decreases cs, 0
  {
    if cs == [] then sc else
      var c := cs[0];
      assert c.body < c;
      NextCatches(cs[1..], m, Enclose(sc, BlockMax(c.body, m + 1, ret)), ret)
  }

  // ---- A layout as the allocator produces it

  predicate VarAt(g: Layout, v: Var, slot: nat) {
    v in g.vars && g.vars[v] == slot
  }

  predicate HelperAt(g: Layout, block: Id, slot: nat) {
    block in g.helpers && g.helpers[block] == slot
  }

  /** In layout g, statement s, in the open block `top`, has the slots the allocator gives it from sc. */
  predicate Fits(s: Stmt, top: Id, sc: Scope, g: Layout, ret: nat)
    decreases s, 2
  {
    match s
    case Local(id, wide, _) => forall k :: 0 <= k < |wide| ==> VarAt(g, LocalVar(id, k), sc.next + Widths(wide[..k]))
    case Block(_, _, _) => FitsBlock(s, sc.next, g, ret)
    case If(_, _, t, e) => FitsBlock(t, sc.next, g, ret) && (e.Some? ==> FitsBlock(e.value, sc.next, g, ret))
    case While(_, _, b) => FitsBlock(b, sc.next, g, ret)
    case Do(_, b, _) => FitsBlock(b, sc.next, g, ret)
    case For(_, init, _, _, b) => FitsSeq(init, top, sc, g, ret) && FitsBlock(b, NextSeq(init, sc, ret).next, g, ret)
    case Foreach(id, wide, isArray, _, b) =>
      && VarAt(g, ForeachVar(id), sc.next) && HelperAt(g, top, sc.next + Width(wide))
      && FitsBlock(b, sc.next + Width(wide) + ForeachHelperSize(isArray), g, ret)
    case Switch(_, bid, _, gs, _) => FitsGroups(gs, bid, Scope(sc.next, None, 0), g, ret)
    case Sync(_, _, b) =>
      HelperAt(g, top, Reserve(sc, ret).helper.value) && FitsBlock(b, Reserve(sc, ret).next, g, ret)
    case Try(_, b, cs, f) =>
      var m := TryStart(s, sc, ret);
      && (f.Some? ==> HelperAt(g, top, Reserve(sc, ret).helper.value)
                      && FitsBlock(f.value, Reserve(sc, ret).next, g, ret))
      && FitsBlock(b, m, g, ret) && FitsCatches(cs, m, g, ret)
    case _ => true
  }

  predicate FitsBlock(b: Stmt, m: nat, g: Layout, ret: nat)
    decreases b, 1
  {
    b.Block? ==> FitsSeq(b.stmts, b.id, Scope(m, None, 0), g, ret)
  }

  predicate FitsSeq(ss: seq<Stmt>, top: Id, sc: Scope, g: Layout, ret: nat)
    decreases ss, 0
  {
    ss != [] ==> Fits(ss[0], top, sc, g, ret) && FitsSeq(ss[1..], top, Next(ss[0], sc, ret), g, ret)
  }

  predicate FitsGroups(gs: seq<Stmt>, top: Id, sc: Scope, g: Layout, ret: nat)
    decreases gs, 0
  {
    gs != [] ==>
      && gs[0].Block? && FitsSeq(gs[0].stmts, top, sc.(enclosed := 0), g, ret)
      && FitsGroups(gs[1..], top, NextGroup(gs[0], sc, ret), g, ret)
  }

  predicate FitsCatches(cs: seq<Catch>, m: nat, g: Layout, ret: nat)
    decreases cs, 0
  {
    cs != [] ==>
      var c := cs[0];
      assert c.body < c;
      VarAt(g, CatchParam(c.body.id), m) && FitsBlock(c.body, m + 1, g, ret) && FitsCatches(cs[1..], m, g, ret)
  }
}
