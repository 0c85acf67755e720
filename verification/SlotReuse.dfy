/** Slots are used again: each variable and helper gets the lowest slot above which nothing is live, blocks
    that are closed leaving no trace. */
module SlotReuse {
  import opened JavaAst
  import opened Options
  import opened Slots
  import opened SlotSafety
  import opened SlotCount

  /** x is in the helper area of one of these blocks. */
  ghost predicate InArea(around: set<Id>, g: Layout, ret: nat, x: nat) {
    exists b :: b in around && b in g.helpers && x in FinallyStores(g.helpers[b], ret)
  }

  /** Below v everything is live, or in a helper area of a block around. */
  ghost predicate Lowest(v: nat, live: set<nat>, around: set<Id>, g: Layout, ret: nat) {
    forall x: nat :: x < v ==> x in live || InArea(around, g, ret, x)
  }

  ghost predicate TightFrom(id: Id, wide: seq<bool>, k: nat, live: set<nat>, around: set<Id>, g: Layout, ret: nat)
    decreases |wide| - k
  {
    k < |wide| ==>
      var v := SlotOf(g, LocalVar(id, k));
      && Lowest(v, live, around, g, ret)
      && TightFrom(id, wide, k + 1, live + VarStores(v, wide[k]), around, g, ret)
  }

  /** Everything in s gets the lowest slot it can. What is live is as for safety: the variables in scope, the
      helpers of the statements around and, in a try block or clause, all slots of the finally clause. */
  ghost predicate Tight(s: Stmt, top: Id, live: set<nat>, around: set<Id>, g: Layout, ret: nat)
    decreases s, 1
  {
    match s
    case Local(id, wide, _) => TightFrom(id, wide, 0, live, around, g, ret)
    case Block(_, _, _) => TightBlock(s, live, around, g, ret)
    case If(_, _, t, e) =>
      TightBlock(t, live, around, g, ret) && (e.Some? ==> TightBlock(e.value, live, around, g, ret))
    case While(_, _, b) => TightBlock(b, live, around, g, ret)
    case Do(_, b, _) => TightBlock(b, live, around, g, ret)
    case For(_, init, _, _, b) =>
      TightAll(init, top, live, around, g, ret) && TightBlock(b, live + DeclaredAll(init, g), around, g, ret)
    case Foreach(id, wide, isArray, _, b) =>
      var v := VarStores(SlotOf(g, ForeachVar(id)), wide);
      var h := ForeachStores(HelperOf(g, top), isArray);
      && Lowest(SlotOf(g, ForeachVar(id)), live, around, g, ret)
      && Lowest(HelperOf(g, top), live + v, around, g, ret) && TightBlock(b, live + v + h, around, g, ret)
    case Switch(_, bid, _, gs, _) => TightGroups(gs, bid, live, around + {bid}, g, ret)
    case Sync(_, _, b) => Lowest(HelperOf(g, top), live, around, g, ret) && TightBlock(b, live, around, g, ret)
    case Try(_, b, cs, f) =>
      if f.None? then
        TightBlock(b, live, around, g, ret) && TightCatches(cs, live, around, g, ret)
      else
        var kept, more := Kept(s, top, live, g, ret), around + SyncBlocks(f.value, top);
        && Lowest(HelperOf(g, top), live, around, g, ret) && TightBlock(f.value, live, around, g, ret)
        && TightBlock(b, kept, more, g, ret) && TightCatches(cs, kept, more, g, ret)
    case _ => true
  }

  /** The block around a loop has no helper area of its own. */
  ghost predicate TightBlock(b: Stmt, live: set<nat>, around: set<Id>, g: Layout, ret: nat)
    decreases b, 0
  {
    b.Block? ==> TightAll(b.stmts, b.id, live, if IsWrapper(b) then around else around + {b.id}, g, ret)
  }

  ghost predicate TightAll(ss: seq<Stmt>, top: Id, live: set<nat>, around: set<Id>, g: Layout, ret: nat)
    decreases ss, 0
  {
    ss != [] ==>
      Tight(ss[0], top, live, around, g, ret) && TightAll(ss[1..], top, live + Declared(ss[0], g), around, g, ret)
  }

  ghost predicate TightGroups(gs: seq<Stmt>, top: Id, live: set<nat>, around: set<Id>, g: Layout, ret: nat)
    decreases gs, 0
  {
    gs != [] && gs[0].Block? ==>
      && TightAll(gs[0].stmts, top, live, around, g, ret)
      && TightGroups(gs[1..], top, live + DeclaredAll(gs[0].stmts, g), around, g, ret)
  }

  ghost predicate TightCatches(cs: seq<Catch>, live: set<nat>, around: set<Id>, g: Layout, ret: nat)
    decreases cs, 0
  {
    cs != [] ==>
      var c := cs[0];
      assert c.body < c;
      var p := SlotOf(g, CatchParam(c.body.id));
      && Lowest(p, live, around, g, ret) && TightBlock(c.body, live + VarStores(p, false), around, g, ret)
      && TightCatches(cs[1..], live, around, g, ret)
  }

  // ---- The layouts of the allocator are tight

  lemma {:induction false} LocalTight(id: Id, wide: seq<bool>, k: nat, first: nat, live: set<nat>, around: set<Id>,
                                      g: Layout, ret: nat)
    requires k <= |wide|
    requires forall j :: 0 <= j < |wide| ==> VarAt(g, LocalVar(id, j), first + Widths(wide[..j]))
    requires Lowest(first + Widths(wide[..k]), live, around, g, ret)
    ensures TightFrom(id, wide, k, live, around, g, ret)
    ensures Lowest(first + Widths(wide), live + DeclaredFrom(id, wide, k, g), around, g, ret)
    decreases |wide| - k
  {
    if k < |wide| {
      hide InArea;
      WidthsPrefix(wide, k);
      var stores := VarStores(SlotOf(g, LocalVar(id, k)), wide[k]);
      LocalTight(id, wide, k + 1, first, live + stores, around, g, ret);
      assert live + DeclaredFrom(id, wide, k, g) == live + stores + DeclaredFrom(id, wide, k + 1, g);
    } else {
      assert wide[..k] == wide && live + {} == live;
    }
  }

  /** The helper area of a block around counts. */
  lemma {:induction false} AreaCounts(top: Id, sc: Scope, live: set<nat>, around: set<Id>, g: Layout, ret: nat)
    requires top in around && HelperAt(g, top, Reserve(sc, ret).helper.value) && Lowest(sc.next, live, around, g, ret)
    requires sc.helper.Some? ==> sc.helper.value <= sc.next
    ensures Lowest(HelperOf(g, top), live, around, g, ret) && Lowest(Reserve(sc, ret).next, live, around, g, ret)
  {
  }

  /** What holds of statement s processed from scope sc. */
  ghost predicate Compact(s: Stmt, top: Id, sc: Scope, live: set<nat>, around: set<Id>, g: Layout, ret: nat) {
    && Tight(s, top, live, around, g, ret)
    && (!IsLoop(s) ==> Lowest(Next(s, sc, ret).next, live + Declared(s, g), around, g, ret))
  }

  ghost predicate Ready(s: Stmt, top: Id, sc: Scope, live: set<nat>, around: set<Id>, g: Layout, ret: nat) {
    && Shape(s) && Fits(s, top, sc, g, ret) && Lowest(sc.next, live, around, g, ret)
    && (sc.helper.Some? ==> sc.helper.value <= sc.next)
    && (IsHeader(s) || IsLoop(s) || top in around)
  }

  lemma {:induction false} StmtTight(s: Stmt, top: Id, sc: Scope, live: set<nat>, around: set<Id>, g: Layout, ret: nat)
    requires Ready(s, top, sc, live, around, g, ret)
    ensures Compact(s, top, sc, live, around, g, ret)
    decreases s, 2
  {
    assert live + {} == live;
    match s
    case Local(id, wide, _) =>
      assert wide[..0] == [];
      LocalTight(id, wide, 0, sc.next, live, around, g, ret);
    case Block(_, _, _) => BlockTight(s, sc.next, live, around, g, ret);
    case If(_, _, t, e) =>
      BlockTight(t, sc.next, live, around, g, ret);
      if e.Some? { BlockTight(e.value, sc.next, live, around, g, ret); }
    case While(_, _, b) => BlockTight(b, sc.next, live, around, g, ret);
    case Do(_, b, _) => BlockTight(b, sc.next, live, around, g, ret);
    case For(_, _, _, _, _) => ForTight(s, top, sc, live, around, g, ret);
    case Foreach(_, _, _, _, _) => ForeachTight(s, top, sc, live, around, g, ret);
    case Switch(_, _, _, _, _) => SwitchTight(s, top, sc, live, around, g, ret);
    case Sync(_, _, _) => SyncTight(s, top, sc, live, around, g, ret);
    case Try(_, _, _, _) => TryTight(s, top, sc, live, around, g, ret);
    case _ =>
  }

  lemma {:induction false} BlockTight(b: Stmt, m: nat, live: set<nat>, around: set<Id>, g: Layout, ret: nat)
    requires b.Block? && Shape(b) && FitsBlock(b, m, g, ret) && Lowest(m, live, around, g, ret)
    ensures TightBlock(b, live, around, g, ret)
    decreases b, 0
  {
    var more := if IsWrapper(b) then around else around + {b.id};
    LowestMore(m, live, around, more, g, ret);
    SeqTight(b.stmts, b.id, Scope(m, None, 0), live, more, g, ret);
  }

  lemma {:induction false} LowestMore(v: nat, live: set<nat>, around: set<Id>, more: set<Id>, g: Layout, ret: nat)
    requires Lowest(v, live, around, g, ret) && around <= more
    ensures Lowest(v, live, more, g, ret)
  {
    forall x: nat | x < v && x !in live ensures InArea(more, g, ret, x) {
      var b :| b in around && b in g.helpers && x in FinallyStores(g.helpers[b], ret);
      assert b in more;
    }
  }

  lemma {:induction false} SeqTight(ss: seq<Stmt>, top: Id, sc: Scope, live: set<nat>, around: set<Id>, g: Layout,
                                    ret: nat)
    requires forall i :: 0 <= i < |ss| ==> Shape(ss[i]) && (IsLoop(ss[i]) ==> |ss| == 1)
    requires (forall i :: 0 <= i < |ss| ==> IsHeader(ss[i]) || IsLoop(ss[i])) || top in around
    requires FitsSeq(ss, top, sc, g, ret) && Lowest(sc.next, live, around, g, ret)
    requires sc.helper.Some? ==> sc.helper.value <= sc.next
    ensures TightAll(ss, top, live, around, g, ret)
    ensures (forall i :: 0 <= i < |ss| ==> !IsLoop(ss[i])) ==>
              var end := NextSeq(ss, sc, ret);
              && Lowest(end.next, live + DeclaredAll(ss, g), around, g, ret)
              && (end.helper.Some? ==> end.helper.value <= end.next)
    decreases ss, 0
  {
    hide Shape, Fits, Next, Tight, Lowest, Declared;
    if ss == [] {
      assert live + {} == live;
    } else {
      assert Ready(ss[0], top, sc, live, around, g, ret);
      StmtTight(ss[0], top, sc, live, around, g, ret);
      var sc1 := Next(ss[0], sc, ret);
      if IsLoop(ss[0]) {
        assert ss[1..] == [];
      } else {
        HelperBelow(ss[0], sc, ret);
        assert forall i :: 0 <= i < |ss[1..]| ==> ss[1..][i] == ss[i + 1];
        SeqTight(ss[1..], top, sc1, live + Declared(ss[0], g), around, g, ret);
        assert live + DeclaredAll(ss, g) == live + Declared(ss[0], g) + DeclaredAll(ss[1..], g);
      }
    }
  }

  lemma {:induction false} CatchesScope(cs: seq<Catch>, m: nat, sc: Scope, ret: nat)
    ensures NextCatches(cs, m, sc, ret).next == sc.next && NextCatches(cs, m, sc, ret).helper == sc.helper
    decreases cs
  {
    hide BlockMax;
    if cs != [] {
      var c := cs[0];
      CatchesScope(cs[1..], m, Enclose(sc, BlockMax(c.body, m + 1, ret)), ret);
    }
  }

  lemma {:induction false} HelperBelow(s: Stmt, sc: Scope, ret: nat)
    requires !IsLoop(s) && (sc.helper.Some? ==> sc.helper.value <= sc.next)
    ensures var end := Next(s, sc, ret);
            && sc.next <= end.next && (end.helper.Some? ==> end.helper.value <= end.next)
            && (!s.Local? ==>
                  end.next == if s.Sync? || (s.Try? && s.fin.Some?) then Reserve(sc, ret).next else sc.next)
  {
    if s.Try? {
      var sc1 := if s.fin.Some? then Enclose(Reserve(sc, ret), TryStart(s, sc, ret)) else sc;
      var m := TryStart(s, sc, ret);
      CatchesScope(s.catches, m, Enclose(sc1, BlockMax(s.body, m, ret)), ret);
    }
  }

  lemma {:induction false} ForTight(s: Stmt, top: Id, sc: Scope, live: set<nat>, around: set<Id>, g: Layout, ret: nat)
    requires s.For? && Ready(s, top, sc, live, around, g, ret)
    ensures Compact(s, top, sc, live, around, g, ret)
    decreases s, 1
  {
    HeadersShape(s.init);
    SeqTight(s.init, top, sc, live, around, g, ret);
    BlockTight(s.body, NextSeq(s.init, sc, ret).next, live + DeclaredAll(s.init, g), around, g, ret);
  }

  lemma {:induction false} ForeachTight(s: Stmt, top: Id, sc: Scope, live: set<nat>, around: set<Id>, g: Layout,
                                        ret: nat)
    requires s.Foreach? && Ready(s, top, sc, live, around, g, ret)
    ensures Compact(s, top, sc, live, around, g, ret)
    decreases s, 1
  {
    hide InArea;
    var v := VarStores(SlotOf(g, ForeachVar(s.id)), s.wideIndex);
    var h := ForeachStores(HelperOf(g, top), s.isArray);
    BlockTight(s.body, sc.next + Width(s.wideIndex) + ForeachHelperSize(s.isArray), live + v + h, around, g, ret);
  }

  lemma {:induction false} SyncTight(s: Stmt, top: Id, sc: Scope, live: set<nat>, around: set<Id>, g: Layout, ret: nat)
    requires s.Sync? && Ready(s, top, sc, live, around, g, ret)
    ensures Compact(s, top, sc, live, around, g, ret)
    decreases s, 1
  {
    hide InArea, Lowest;
    assert live + {} == live;
    AreaCounts(top, sc, live, around, g, ret);
    BlockTight(s.body, Reserve(sc, ret).next, live, around, g, ret);
  }

  lemma {:induction false} SwitchTight(s: Stmt, top: Id, sc: Scope, live: set<nat>, around: set<Id>, g: Layout,
                                       ret: nat)
    requires s.Switch? && Ready(s, top, sc, live, around, g, ret)
    ensures Compact(s, top, sc, live, around, g, ret)
    decreases s, 1
  {
    hide InArea, Lowest;
    assert live + {} == live;
    LowestMore(sc.next, live, around, around + {s.blockId}, g, ret);
    GroupsTight(s.groups, s.blockId, Scope(sc.next, None, 0), live, around + {s.blockId}, g, ret);
  }

  lemma {:induction false} GroupsTight(gs: seq<Stmt>, top: Id, sc: Scope, live: set<nat>, around: set<Id>, g: Layout,
                                       ret: nat)
    requires forall i :: 0 <= i < |gs| ==> IsPlain(gs[i]) && Shape(gs[i])
    requires FitsGroups(gs, top, sc, g, ret) && Lowest(sc.next, live, around, g, ret) && top in around
    requires sc.helper.Some? ==> sc.helper.value <= sc.next
    ensures TightGroups(gs, top, live, around, g, ret)
    decreases gs, 0
  {
    hide InArea, Lowest, FitsSeq, TightAll, NextSeq;
    if gs != [] {
      GroupTight(gs[0], top, sc, live, around, g, ret);
      hide Shape;
      GroupsTight(gs[1..], top, NextGroup(gs[0], sc, ret), live + DeclaredAll(gs[0].stmts, g), around, g, ret);
    }
  }

  lemma {:induction false} GroupTight(b: Stmt, top: Id, sc: Scope, live: set<nat>, around: set<Id>, g: Layout, ret: nat)
    requires IsPlain(b) && Shape(b) && FitsSeq(b.stmts, top, sc.(enclosed := 0), g, ret) && top in around
    requires Lowest(sc.next, live, around, g, ret) && (sc.helper.Some? ==> sc.helper.value <= sc.next)
    ensures TightAll(b.stmts, top, live, around, g, ret)
    ensures var end := NextGroup(b, sc, ret);
            && Lowest(end.next, live + DeclaredAll(b.stmts, g), around, g, ret)
            && (end.helper.Some? ==> end.helper.value <= end.next)
    decreases b, 1
  {
    hide InArea, Lowest;
    SeqTight(b.stmts, top, sc.(enclosed := 0), live, around, g, ret);
  }

  /** Below the start of the try block everything belongs to the finally clause or was taken before. */
  lemma {:induction false} TryStartLowest(s: Stmt, top: Id, sc: Scope, live: set<nat>, around: set<Id>, g: Layout,
                                          ret: nat)
    requires s.Try? && s.fin.Some? && Ready(s, top, sc, live, around, g, ret) && top in around
    requires forall b :: b in SyncBlocks(s.fin.value, top) ==> b in g.helpers
    requires Lowest(Reserve(sc, ret).next, live, around, g, ret)
    ensures Lowest(TryStart(s, sc, ret), Kept(s, top, live, g, ret), around + SyncBlocks(s.fin.value, top), g, ret)
  {
    hide UsedBlock, SyncBlocks, BlockMax, FinallyStores;
    var b, m, kept, more := s.fin.value, Reserve(sc, ret).next, Kept(s, top, live, g, ret),
      around + SyncBlocks(s.fin.value, top);
    LowestMore(m, live, around, more, g, ret);
    forall x: nat | x < TryStart(s, sc, ret) && x !in kept ensures InArea(more, g, ret, x) {
      if m <= x {
        BlockTaken(b, m, g, ret, top, x);
        var d :| d in SyncBlocks(b, top) && x in FinallyStores(HelperOf(g, d), ret);
        assert d in more && d in g.helpers;
      }
    }
  }

  lemma {:induction false} TryTight(s: Stmt, top: Id, sc: Scope, live: set<nat>, around: set<Id>, g: Layout, ret: nat)
    requires s.Try? && Ready(s, top, sc, live, around, g, ret)
    ensures Compact(s, top, sc, live, around, g, ret)
    decreases s, 1
  {
    hide InArea, Lowest, TightBlock, TightCatches, UsedBlock, FitsBlock, FitsCatches, BlockMax, NextCatches, SyncBlocks;
    assert live + {} == live;
    HelperBelow(s, sc, ret);
    var m, kept, more := TryStart(s, sc, ret), Kept(s, top, live, g, ret), around;
    if s.fin.Some? {
      AreaCounts(top, sc, live, around, g, ret);
      BlockTight(s.fin.value, Reserve(sc, ret).next, live, around, g, ret);
      SyncHelpers(s.fin.value, Reserve(sc, ret).next, g, ret, top);
      TryStartLowest(s, top, sc, live, around, g, ret);
      more := around + SyncBlocks(s.fin.value, top);
    }
    BlockTight(s.body, m, kept, more, g, ret);
    CatchesTight(s.catches, m, kept, more, g, ret);
  }

  lemma {:induction false} CatchesTight(cs: seq<Catch>, m: nat, live: set<nat>, around: set<Id>, g: Layout, ret: nat)
    requires forall i :: 0 <= i < |cs| ==> cs[i].body.Block? && Shape(cs[i].body)
    requires FitsCatches(cs, m, g, ret) && Lowest(m, live, around, g, ret)
    ensures TightCatches(cs, live, around, g, ret)
    decreases cs, 0
  {
    hide InArea, TightBlock, FitsBlock, Shape;
    if cs != [] {
      var c := cs[0];
      assert c.body < c;
      BlockTight(c.body, m + 1, live + VarStores(m, false), around, g, ret);
      CatchesTight(cs[1..], m, live, around, g, ret);
    }
  }

  // ---- Blocks with synchronized statements have helpers

  lemma {:induction false} SyncHelpers(b: Stmt, m: nat, g: Layout, ret: nat, top: Id)
    requires b.Block? && Shape(b) && FitsBlock(b, m, g, ret)
    ensures forall d :: d in SyncBlocks(b, top) ==> d in g.helpers
    decreases b, 0
  {
    SyncHelpersAll(b.stmts, b.id, Scope(m, None, 0), g, ret);
  }

  lemma {:induction false} SyncHelpersAll(ss: seq<Stmt>, top: Id, sc: Scope, g: Layout, ret: nat)
    requires (forall i :: 0 <= i < |ss| ==> Shape(ss[i])) && FitsSeq(ss, top, sc, g, ret)
    ensures forall d :: d in SyncBlocksAll(ss, top) ==> d in g.helpers
    decreases ss, 0
  {
    hide Shape, Fits, SyncBlocks, Next;
    if ss != [] {
      SyncHelpersIn(ss[0], top, sc, g, ret);
      SyncHelpersAll(ss[1..], top, Next(ss[0], sc, ret), g, ret);
    }
  }

  lemma {:induction false} SyncHelpersIn(s: Stmt, top: Id, sc: Scope, g: Layout, ret: nat)
    requires Shape(s) && Fits(s, top, sc, g, ret)
    ensures forall d :: d in SyncBlocks(s, top) ==> d in g.helpers
    decreases s, 1
  {
    match s
    case Block(_, _, _) => SyncHelpers(s, sc.next, g, ret, top);
    case If(_, _, t, e) =>
      SyncHelpers(t, sc.next, g, ret, top);
      if e.Some? { SyncHelpers(e.value, sc.next, g, ret, top); }
    case While(_, _, b) => SyncHelpers(b, sc.next, g, ret, top);
    case Do(_, b, _) => SyncHelpers(b, sc.next, g, ret, top);
    case For(_, init, _, _, b) => SyncHelpers(b, NextSeq(init, sc, ret).next, g, ret, top);
    case Foreach(_, wide, isArray, _, b) =>
      SyncHelpers(b, sc.next + Width(wide) + ForeachHelperSize(isArray), g, ret, top);
    case Switch(_, bid, _, gs, _) => SyncHelpersGroups(gs, bid, Scope(sc.next, None, 0), g, ret);
    case Sync(_, _, b) => SyncHelpers(b, Reserve(sc, ret).next, g, ret, top);
    case Try(_, _, _, _) => SyncHelpersTry(s, top, sc, g, ret);
    case _ =>
  }

  lemma {:induction false} SyncHelpersTry(s: Stmt, top: Id, sc: Scope, g: Layout, ret: nat)
    requires s.Try? && Shape(s) && Fits(s, top, sc, g, ret)
    ensures forall d :: d in SyncBlocks(s, top) ==> d in g.helpers
    decreases s, 0
  {
    var m := TryStart(s, sc, ret);
    SyncHelpers(s.body, m, g, ret, top);
    SyncHelpersCatches(s.catches, m, g, ret, top);
    if s.fin.Some? { SyncHelpers(s.fin.value, Reserve(sc, ret).next, g, ret, top); }
  }

  lemma {:induction false} SyncHelpersGroups(gs: seq<Stmt>, top: Id, sc: Scope, g: Layout, ret: nat)
    requires forall i :: 0 <= i < |gs| ==> IsPlain(gs[i]) && Shape(gs[i])
    requires FitsGroups(gs, top, sc, g, ret)
    ensures forall d :: d in SyncBlocksGroups(gs, top) ==> d in g.helpers
    decreases gs, 0
  {
    if gs != [] {
      SyncHelpersAll(gs[0].stmts, top, sc.(enclosed := 0), g, ret);
      SyncHelpersGroups(gs[1..], top, NextGroup(gs[0], sc, ret), g, ret);
    }
  }

  lemma {:induction false} SyncHelpersCatches(cs: seq<Catch>, m: nat, g: Layout, ret: nat, top: Id)
    requires forall i :: 0 <= i < |cs| ==> cs[i].body.Block? && Shape(cs[i].body)
    requires FitsCatches(cs, m, g, ret)
    ensures forall d :: d in SyncBlocksCatches(cs, top) ==> d in g.helpers
    decreases cs, 0
  {
    if cs != [] {
      var c := cs[0];
      assert c.body < c;
      SyncHelpers(c.body, m + 1, g, ret, top);
      SyncHelpersCatches(cs[1..], m, g, ret, top);
    }
  }

  /** In the layout of a method body everything gets the lowest slot it can. */
  lemma {:induction false} MethodSlotsTight(body: Stmt, params: nat, g: Layout, ret: nat)
    requires IsPlain(body) && Shape(body) && FitsBlock(body, params, g, ret)
    ensures TightBlock(body, Span(0, params), {}, g, ret)
  {
    BlockTight(body, params, Span(0, params), {}, g, ret);
  }
}
