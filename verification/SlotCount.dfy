/** No slot is wasted, but for the helper areas that synchronized statements reserve whole. */
module SlotCount {
  import opened JavaAst
  import opened Options
  import opened Slots
  import opened SlotSafety

  /** The blocks in s, with `top` open around it, that a synchronized statement stands in. */
  function SyncBlocks(s: Stmt, top: Id): set<Id>
    decreases s, 1
  {
    match s
    case Block(id, _, ss) => SyncBlocksAll(ss, id)
    case If(_, _, t, e) => SyncBlocks(t, top) + (if e.Some? then SyncBlocks(e.value, top) else {})
    case While(_, _, b) => SyncBlocks(b, top)
    case Do(_, b, _) => SyncBlocks(b, top)
    case For(_, _, _, _, b) => SyncBlocks(b, top)
    case Foreach(_, _, _, _, b) => SyncBlocks(b, top)
    case Switch(_, bid, _, gs, _) => SyncBlocksGroups(gs, bid)
    case Try(_, b, cs, f) =>
      SyncBlocks(b, top) + SyncBlocksCatches(cs, top) + (if f.Some? then SyncBlocks(f.value, top) else {})
    case Sync(_, _, b) => {top} + SyncBlocks(b, top)
    case _ => {}
  }

  function SyncBlocksAll(ss: seq<Stmt>, top: Id): set<Id>
    decreases ss, 0
  {
    if ss == [] then {} else SyncBlocks(ss[0], top) + SyncBlocksAll(ss[1..], top)
  }

  function SyncBlocksGroups(gs: seq<Stmt>, top: Id): set<Id>
    decreases gs, 0
  {
    if gs == [] || !gs[0].Block? then {} else SyncBlocksAll(gs[0].stmts, top) + SyncBlocksGroups(gs[1..], top)
  }

  function SyncBlocksCatches(cs: seq<Catch>, top: Id): set<Id>
    decreases cs, 0
  {
    if cs == [] then {} else
      var c := cs[0];
      assert c.body < c;
      SyncBlocks(c.body, top) + SyncBlocksCatches(cs[1..], top)
  }

  /** x is in the helper area of one of these blocks. */
  ghost predicate Spare(blocks: set<Id>, g: Layout, ret: nat, x: nat) {
    exists b :: b in blocks && x in FinallyStores(HelperOf(g, b), ret)
  }

  /** x is stored to, or in a helper area. */
  ghost predicate Taken(used: set<nat>, blocks: set<Id>, g: Layout, ret: nat, x: nat) {
    x in used || Spare(blocks, g, ret, x)
  }

  lemma {:induction false} TakenMore(used: set<nat>, blocks: set<Id>, used': set<nat>, blocks': set<Id>, g: Layout,
                                     ret: nat, x: nat)
    requires Taken(used, blocks, g, ret, x) && used <= used' && blocks <= blocks'
    ensures Taken(used', blocks', g, ret, x)
  {
  }

  lemma {:induction false} LocalTaken(id: Id, wide: seq<bool>, k: nat, first: nat, g: Layout, x: nat)
    requires k < |wide|
    requires forall j :: 0 <= j < |wide| ==> VarAt(g, LocalVar(id, j), first + Widths(wide[..j]))
    requires first + Widths(wide[..k]) <= x < first + Widths(wide)
    ensures x in DeclaredFrom(id, wide, k, g)
    decreases |wide| - k
  {
    WidthsPrefix(wide, k);
    assert k + 1 == |wide| ==> wide[..k + 1] == wide;
    if first + Widths(wide[..k + 1]) <= x { LocalTaken(id, wide, k + 1, first, g, x); }
  }

  /** Slot x is new after s: past the start of its scope, and above the blocks closed before. */
  ghost predicate New(sc: Scope, end: Scope, x: nat) {
    sc.next <= x < Reach(end) && sc.enclosed <= x
  }

  lemma {:induction false} StmtTaken(s: Stmt, top: Id, sc: Scope, g: Layout, ret: nat, x: nat)
    requires Shape(s) && Fits(s, top, sc, g, ret) && New(sc, Next(s, sc, ret), x)
    ensures Taken(Used(s, top, g, ret), SyncBlocks(s, top), g, ret, x)
    decreases s, 2
  {
    match s
    case Local(id, wide, _) => assert wide[..0] == []; LocalTaken(id, wide, 0, sc.next, g, x);
    case Block(_, _, _) => BlocksTaken(s, top, sc, g, ret, x);
    case If(_, _, _, _) => BlocksTaken(s, top, sc, g, ret, x);
    case While(_, _, _) => BlocksTaken(s, top, sc, g, ret, x);
    case Do(_, _, _) => BlocksTaken(s, top, sc, g, ret, x);
    case For(_, _, _, _, _) => ForTaken(s, top, sc, g, ret, x);
    case Foreach(_, _, _, _, _) => ForeachTaken(s, top, sc, g, ret, x);
    case Switch(_, _, _, _, _) => SwitchTaken(s, top, sc, g, ret, x);
    case Sync(_, _, _) => SyncTaken(s, top, sc, g, ret, x);
    case Try(_, _, _, _) => TryTaken(s, top, sc, g, ret, x);
    case _ =>
  }

  lemma {:induction false} BlocksTaken(s: Stmt, top: Id, sc: Scope, g: Layout, ret: nat, x: nat)
    requires s.Block? || s.If? || s.While? || s.Do?
    requires Shape(s) && Fits(s, top, sc, g, ret) && New(sc, Next(s, sc, ret), x)
    ensures Taken(Used(s, top, g, ret), SyncBlocks(s, top), g, ret, x)
    decreases s, 1
  {
    match s
    case Block(_, _, _) => BlockTaken(s, sc.next, g, ret, top, x);
    case While(_, _, b) => BlockTaken(b, sc.next, g, ret, top, x);
    case Do(_, b, _) => BlockTaken(b, sc.next, g, ret, top, x);
    case If(_, _, t, e) =>
      if x < BlockMax(t, sc.next, ret) {
        BlockTaken(t, sc.next, g, ret, top, x);
        TakenMore(UsedBlock(t, g, ret), SyncBlocks(t, top), Used(s, top, g, ret), SyncBlocks(s, top), g, ret, x);
      } else {
        BlockTaken(e.value, sc.next, g, ret, top, x);
        TakenMore(UsedBlock(e.value, g, ret), SyncBlocks(e.value, top), Used(s, top, g, ret), SyncBlocks(s, top), g,
                  ret, x);
      }
  }

  lemma {:induction false} BlockTaken(b: Stmt, m: nat, g: Layout, ret: nat, top: Id, x: nat)
    requires b.Block? && Shape(b) && FitsBlock(b, m, g, ret) && m <= x < BlockMax(b, m, ret)
    ensures Taken(UsedBlock(b, g, ret), SyncBlocks(b, top), g, ret, x)
    decreases b, 0
  {
    SeqTaken(b.stmts, b.id, Scope(m, None, 0), g, ret, x);
  }

  lemma {:induction false} SeqTaken(ss: seq<Stmt>, top: Id, sc: Scope, g: Layout, ret: nat, x: nat)
    requires (forall i :: 0 <= i < |ss| ==> Shape(ss[i])) && FitsSeq(ss, top, sc, g, ret)
    requires New(sc, NextSeq(ss, sc, ret), x)
    ensures Taken(UsedAll(ss, top, g, ret), SyncBlocksAll(ss, top), g, ret, x)
    decreases ss, 0
  {
    hide Shape, Fits, Used, SyncBlocks, Next, Taken;
    if ss != [] {
      var sc1 := Next(ss[0], sc, ret);
      if x < Reach(sc1) {
        StmtTaken(ss[0], top, sc, g, ret, x);
        TakenMore(Used(ss[0], top, g, ret), SyncBlocks(ss[0], top), UsedAll(ss, top, g, ret), SyncBlocksAll(ss, top),
                  g, ret, x);
      } else {
        SeqTaken(ss[1..], top, sc1, g, ret, x);
        TakenMore(UsedAll(ss[1..], top, g, ret), SyncBlocksAll(ss[1..], top), UsedAll(ss, top, g, ret),
                  SyncBlocksAll(ss, top), g, ret, x);
      }
    }
  }

  lemma {:induction false} HeadersSync(ss: seq<Stmt>, top: Id)
    requires forall i :: 0 <= i < |ss| ==> IsHeader(ss[i])
    ensures SyncBlocksAll(ss, top) == {}
  {
    if ss != [] { HeadersSync(ss[1..], top); }
  }

  lemma {:induction false} HeadersShape(ss: seq<Stmt>)
    requires forall i :: 0 <= i < |ss| ==> IsHeader(ss[i])
    ensures forall i :: 0 <= i < |ss| ==> Shape(ss[i])
  {
  }

  lemma {:induction false} ForTaken(s: Stmt, top: Id, sc: Scope, g: Layout, ret: nat, x: nat)
    requires s.For? && Shape(s) && Fits(s, top, sc, g, ret) && New(sc, Next(s, sc, ret), x)
    ensures Taken(Used(s, top, g, ret), SyncBlocks(s, top), g, ret, x)
    decreases s, 1
  {
    hide Taken;
    var sc1 := NextSeq(s.init, sc, ret);
    HeadersSync(s.init, top);
    HeadersShape(s.init);
    if x < Reach(sc1) {
      SeqTaken(s.init, top, sc, g, ret, x);
      TakenMore(UsedAll(s.init, top, g, ret), {}, Used(s, top, g, ret), SyncBlocks(s, top), g, ret, x);
    } else {
      BlockTaken(s.body, sc1.next, g, ret, top, x);
      TakenMore(UsedBlock(s.body, g, ret), SyncBlocks(s.body, top), Used(s, top, g, ret), SyncBlocks(s, top), g, ret,
                x);
    }
  }

  lemma {:induction false} ForeachTaken(s: Stmt, top: Id, sc: Scope, g: Layout, ret: nat, x: nat)
    requires s.Foreach? && Shape(s) && Fits(s, top, sc, g, ret) && New(sc, Next(s, sc, ret), x)
    ensures Taken(Used(s, top, g, ret), SyncBlocks(s, top), g, ret, x)
    decreases s, 1
  {
    var m := sc.next + Width(s.wideIndex) + ForeachHelperSize(s.isArray);
    if x >= m { BlockTaken(s.body, m, g, ret, top, x); }
  }

  lemma {:induction false} SwitchTaken(s: Stmt, top: Id, sc: Scope, g: Layout, ret: nat, x: nat)
    requires s.Switch? && Shape(s) && Fits(s, top, sc, g, ret) && New(sc, Next(s, sc, ret), x)
    ensures Taken(Used(s, top, g, ret), SyncBlocks(s, top), g, ret, x)
    decreases s, 1
  {
    GroupsTaken(s.groups, s.blockId, Scope(sc.next, None, 0), g, ret, x);
  }

  lemma {:induction false} GroupsTaken(gs: seq<Stmt>, top: Id, sc: Scope, g: Layout, ret: nat, x: nat)
    requires forall i :: 0 <= i < |gs| ==> IsPlain(gs[i]) && Shape(gs[i])
    requires FitsGroups(gs, top, sc, g, ret) && New(sc, NextGroups(gs, sc, ret), x)
    ensures Taken(UsedGroups(gs, top, g, ret), SyncBlocksGroups(gs, top), g, ret, x)
    decreases gs, 0
  {
    hide Taken, UsedAll, SyncBlocksAll, FitsSeq, NextSeq;
    if gs != [] {
      var sc1 := NextGroup(gs[0], sc, ret);
      if x < Reach(sc1) {
        SeqTaken(gs[0].stmts, top, sc.(enclosed := 0), g, ret, x);
        TakenMore(UsedAll(gs[0].stmts, top, g, ret), SyncBlocksAll(gs[0].stmts, top), UsedGroups(gs, top, g, ret),
                  SyncBlocksGroups(gs, top), g, ret, x);
      } else {
        GroupsTaken(gs[1..], top, sc1, g, ret, x);
        TakenMore(UsedGroups(gs[1..], top, g, ret), SyncBlocksGroups(gs[1..], top), UsedGroups(gs, top, g, ret),
                  SyncBlocksGroups(gs, top), g, ret, x);
      }
    }
  }

  lemma {:induction false} SyncTaken(s: Stmt, top: Id, sc: Scope, g: Layout, ret: nat, x: nat)
    requires s.Sync? && Shape(s) && Fits(s, top, sc, g, ret) && New(sc, Next(s, sc, ret), x)
    ensures Taken(Used(s, top, g, ret), SyncBlocks(s, top), g, ret, x)
    decreases s, 1
  {
    var m := Reserve(sc, ret).next;
    if x < m {
      assert top in SyncBlocks(s, top) && x in FinallyStores(HelperOf(g, top), ret);
    } else {
      BlockTaken(s.body, m, g, ret, top, x);
    }
  }

  lemma {:induction false} TryTaken(s: Stmt, top: Id, sc: Scope, g: Layout, ret: nat, x: nat)
    requires s.Try? && Shape(s) && Fits(s, top, sc, g, ret) && New(sc, Next(s, sc, ret), x)
    ensures Taken(Used(s, top, g, ret), SyncBlocks(s, top), g, ret, x)
    decreases s, 1
  {
    hide UsedBlock, UsedCatches, SyncBlocksCatches, NextCatches, BlockMax, FitsBlock, FitsCatches;
    var m := TryStart(s, sc, ret);
    if s.fin.Some? { BlockSafe(s.fin.value, Reserve(sc, ret).next, {}, g, ret); }
    if s.fin.Some? && x < m {
      if x >= Reserve(sc, ret).next { BlockTaken(s.fin.value, Reserve(sc, ret).next, g, ret, top, x); }
    } else if x < BlockMax(s.body, m, ret) {
      BlockTaken(s.body, m, g, ret, top, x);
    } else {
      var sc1 := if s.fin.Some? then Enclose(Reserve(sc, ret), m) else sc;
      CatchesTaken(s.catches, m, Enclose(sc1, BlockMax(s.body, m, ret)), g, ret, top, x);
    }
  }

  lemma {:induction false} CatchesTaken(cs: seq<Catch>, m: nat, sc: Scope, g: Layout, ret: nat, top: Id, x: nat)
    requires forall i :: 0 <= i < |cs| ==> cs[i].body.Block? && Shape(cs[i].body)
    requires FitsCatches(cs, m, g, ret) && m <= x < Reach(NextCatches(cs, m, sc, ret)) && Reach(sc) <= x
    ensures Taken(UsedCatches(cs, g, ret), SyncBlocksCatches(cs, top), g, ret, x)
    decreases cs, 0
  {
    hide BlockMax, UsedBlock, SyncBlocks, FitsBlock, Shape;
    if cs != [] {
      var c := cs[0];
      assert c.body < c;
      if x < BlockMax(c.body, m + 1, ret) {
        if x > m { BlockTaken(c.body, m + 1, g, ret, top, x); }
      } else {
        CatchesTaken(cs[1..], m, Enclose(sc, BlockMax(c.body, m + 1, ret)), g, ret, top, x);
      }
    }
  }

  /** Every slot below the final count is a parameter's, or stored to, or in the helper area of a block with a
      synchronized statement. */
  lemma {:induction false} CountTaken(body: Stmt, params: nat, g: Layout, ret: nat, x: nat)
    requires IsPlain(body) && Shape(body) && FitsBlock(body, params, g, ret)
    requires params <= x < BlockMax(body, params, ret)
    ensures Taken(UsedBlock(body, g, ret), SyncBlocks(body, body.id), g, ret, x)
  {
    hide BlockMax, Shape, FitsBlock, UsedBlock, SyncBlocks;
    BlockTaken(body, params, g, ret, body.id, x);
  }
}
