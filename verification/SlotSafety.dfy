/** No two things live at the same time share a slot. */
module SlotSafety {
  import opened JavaAst
  import opened Options
  import opened Slots

  /** The slots from `first` on. */
  function Span(first: nat, size: nat): (slots: set<nat>)
    ensures forall x: nat :: x in slots <==> first <= x < first + size
    decreases size
  {
    if size == 0 then {} else {first} + Span(first + 1, size - 1)
  }

  function SlotOf(g: Layout, v: Var): nat {
    if v in g.vars then g.vars[v] else 0
  }

  function HelperOf(g: Layout, block: Id): nat {
    if block in g.helpers then g.helpers[block] else 0
  }

  // ---- What the emitted code stores to

  /** A variable; a long or double takes two slots. */
  function VarStores(v: nat, wide: bool): set<nat> {
    if wide then {v, v + 1} else {v}
  }

  /** Over an array: the array, its length and the counter; else the iterator. */
  function ForeachStores(h: nat, isArray: bool): set<nat> {
    if isArray then {h, h + 1, h + 2} else {h}
  }

  /** A pending exception, the return address of the finally clause, and the method's result from h + 2 on. */
  function FinallyStores(h: nat, ret: nat): set<nat> {
    {h, h + 1} + Span(h + 2, ret)
  }

  /** The monitor. */
  function SyncStores(h: nat): set<nat> {
    {h}
  }

  /** The areas that the allocator steps over hold these slots and no others. */
  lemma {:induction false} AreasExact(first: nat, wide: bool, isArray: bool, ret: nat)
    ensures Span(first, Width(wide)) == VarStores(first, wide)
    ensures Span(first, ForeachHelperSize(isArray)) == ForeachStores(first, isArray)
    ensures Span(first, HelperSize(ret)) == FinallyStores(first, ret) >= SyncStores(first)
  {
    assert forall x :: x in FinallyStores(first, ret) <==> x in Span(first, HelperSize(ret));
  }

  // ---- Slots of statements

  /** Slots of declarators k and up of a declaration. */
  function DeclaredFrom(id: Id, wide: seq<bool>, k: nat, g: Layout): set<nat>
    decreases |wide| - k
  {
    if |wide| <= k then {} else
      VarStores(SlotOf(g, LocalVar(id, k)), wide[k]) + DeclaredFrom(id, wide, k + 1, g)
  }

  /** Slots of the variables s adds to the scope it stands in. */
  function Declared(s: Stmt, g: Layout): set<nat> {
    if s.Local? then DeclaredFrom(s.id, s.wide, 0, g) else {}
  }

  function DeclaredAll(ss: seq<Stmt>, g: Layout): set<nat> {
    if ss == [] then {} else Declared(ss[0], g) + DeclaredAll(ss[1..], g)
  }

  /** All slots that s uses, in the open block `top`: variables and helpers, at any depth. */
  function Used(s: Stmt, top: Id, g: Layout, ret: nat): set<nat>
    decreases s, 1
  {
    match s
    case Local(_, _, _) => Declared(s, g)
    case Block(_, _, _) => UsedBlock(s, g, ret)
    case If(_, _, t, e) => UsedBlock(t, g, ret) + if e.Some? then UsedBlock(e.value, g, ret) else {}
    case While(_, _, b) => UsedBlock(b, g, ret)
    case Do(_, b, _) => UsedBlock(b, g, ret)
    case For(_, init, _, _, b) => UsedAll(init, top, g, ret) + UsedBlock(b, g, ret)
    case Foreach(id, wide, isArray, _, b) =>
      VarStores(SlotOf(g, ForeachVar(id)), wide) + ForeachStores(HelperOf(g, top), isArray) + UsedBlock(b, g, ret)
    case Switch(_, bid, _, gs, _) => UsedGroups(gs, bid, g, ret)
    case Sync(_, _, b) => SyncStores(HelperOf(g, top)) + UsedBlock(b, g, ret)
    case Try(_, b, cs, f) =>
      (if f.Some? then FinallyStores(HelperOf(g, top), ret) + UsedBlock(f.value, g, ret) else {}) +
      UsedBlock(b, g, ret) + UsedCatches(cs, g, ret)
    case _ => {}
  }

  function UsedBlock(b: Stmt, g: Layout, ret: nat): set<nat>
    decreases b, 0
  {
    if b.Block? then UsedAll(b.stmts, b.id, g, ret) else {}
  }

  function UsedAll(ss: seq<Stmt>, top: Id, g: Layout, ret: nat): set<nat>
    decreases ss, 0
  {
    if ss == [] then {} else Used(ss[0], top, g, ret) + UsedAll(ss[1..], top, g, ret)
  }

  function UsedGroups(gs: seq<Stmt>, top: Id, g: Layout, ret: nat): set<nat>
    decreases gs, 0
  {
    if gs == [] || !gs[0].Block? then {}
    else UsedAll(gs[0].stmts, top, g, ret) + UsedGroups(gs[1..], top, g, ret)
  }

  function UsedCatches(cs: seq<Catch>, g: Layout, ret: nat): set<nat>
    decreases cs, 0
  {
    if cs == [] then {} else
      var c := cs[0];
      assert c.body < c;
      VarStores(SlotOf(g, CatchParam(c.body.id)), false) + UsedBlock(c.body, g, ret) + UsedCatches(cs[1..], g, ret)
  }

  // ---- Scoping

  /** The declarators from k on avoid what is live and one another. */
  predicate DistinctFrom(id: Id, wide: seq<bool>, k: nat, live: set<nat>, g: Layout)
    decreases |wide| - k
  {
    k < |wide| ==>
      var span := VarStores(SlotOf(g, LocalVar(id, k)), wide[k]);
      span !! live && DistinctFrom(id, wide, k + 1, live + span, g)
  }

  /** Whatever s puts in a slot, in the open block `top`, avoids what is live there: the variables in
      scope, the helper slots of the statements around it, and, in a try block or catch clause, all slots
      of the finally clause. */
  predicate Safe(s: Stmt, top: Id, live: set<nat>, g: Layout, ret: nat)
    decreases s, 1
  {
    match s
    case Local(id, wide, _) => DistinctFrom(id, wide, 0, live, g)
    case Block(_, _, _) => SafeBlock(s, live, g, ret)
    case If(_, _, t, e) => SafeBlock(t, live, g, ret) && (e.Some? ==> SafeBlock(e.value, live, g, ret))
    case While(_, _, b) => SafeBlock(b, live, g, ret)
    case Do(_, b, _) => SafeBlock(b, live, g, ret)
    case For(_, init, _, _, b) =>
      SafeAll(init, top, live, g, ret) && SafeBlock(b, live + DeclaredAll(init, g), g, ret)
    case Foreach(id, wide, isArray, _, b) =>
      var v := VarStores(SlotOf(g, ForeachVar(id)), wide);
      var h := ForeachStores(HelperOf(g, top), isArray);
      v !! live && h !! live + v && SafeBlock(b, live + v + h, g, ret)
    case Switch(_, bid, _, gs, _) => SafeGroups(gs, bid, live, g, ret)
    case Sync(_, _, b) =>
      var h := SyncStores(HelperOf(g, top));
      h !! live && SafeBlock(b, live + h, g, ret)
    case Try(_, b, cs, f) =>
      if f.None? then
        SafeBlock(b, live, g, ret) && SafeCatches(cs, live, g, ret)
      else
        var h := FinallyStores(HelperOf(g, top), ret);
        var kept := live + h + UsedBlock(f.value, g, ret);
        && h !! live && SafeBlock(f.value, live + h, g, ret)
        && SafeBlock(b, kept, g, ret) && SafeCatches(cs, kept, g, ret)
    case _ => true
  }

  predicate SafeBlock(b: Stmt, live: set<nat>, g: Layout, ret: nat)
    decreases b, 0
  {
    b.Block? ==> SafeAll(b.stmts, b.id, live, g, ret)
  }

  /** A variable is live for the rest of the sequence it is declared in. */
  predicate SafeAll(ss: seq<Stmt>, top: Id, live: set<nat>, g: Layout, ret: nat)
    decreases ss, 0
  {
    ss != [] ==> Safe(ss[0], top, live, g, ret) && SafeAll(ss[1..], top, live + Declared(ss[0], g), g, ret)
  }

  /** A variable of a switch group is in scope in the groups after it. */
  predicate SafeGroups(gs: seq<Stmt>, top: Id, live: set<nat>, g: Layout, ret: nat)
    decreases gs, 0
  {
    gs != [] && gs[0].Block? ==>
      && SafeAll(gs[0].stmts, top, live, g, ret)
      && SafeGroups(gs[1..], top, live + DeclaredAll(gs[0].stmts, g), g, ret)
  }

  predicate SafeCatches(cs: seq<Catch>, live: set<nat>, g: Layout, ret: nat)
    decreases cs, 0
  {
    cs != [] ==>
      var c := cs[0];
      assert c.body < c;
      var p := VarStores(SlotOf(g, CatchParam(c.body.id)), false);
      p !! live && SafeBlock(c.body, live + p, g, ret) && SafeCatches(cs[1..], live, g, ret)
  }

  // ---- The layouts of the allocator are safe

  ghost predicate Under(live: set<nat>, m: nat) {
    forall x :: x in live ==> x < m
  }

  ghost predicate Between(slots: set<nat>, lo: nat, hi: nat) {
    forall x :: x in slots ==> lo <= x < hi
  }

  /** What is live in a scope lies below its next free slot and off its helper slots. */
  ghost predicate LiveIn(live: set<nat>, sc: Scope, ret: nat) {
    && Under(live, sc.next)
    && (sc.helper.Some? ==>
          sc.helper.value + HelperSize(ret) <= sc.next && live !! Span(sc.helper.value, HelperSize(ret)))
  }

  function Reach(sc: Scope): nat {
    Max(sc.next, sc.enclosed)
  }

  /** Slots used from scope sc on, ending in scope end: past sc, or in the helper slots. */
  ghost predicate UsedFrom(slots: set<nat>, sc: Scope, end: Scope, ret: nat) {
    forall x :: x in slots ==>
      || sc.next <= x < Reach(end)
      || (sc.helper.Some? && x in Span(sc.helper.value, HelperSize(ret)))
  }

  ghost predicate Grows(sc: Scope, end: Scope) {
    && sc.next <= end.next && sc.enclosed <= end.enclosed
    && (sc.helper.Some? ==> end.helper == sc.helper)
    && (sc.helper.None? && end.helper.Some? ==> sc.next <= end.helper.value)
  }

  lemma {:induction false} WidthsPrefix(wide: seq<bool>, k: nat)
    requires k < |wide|
    ensures Widths(wide[..k + 1]) == Widths(wide[..k]) + Width(wide[k])
    ensures Widths(wide[..k + 1]) <= Widths(wide)
  {
    if k > 0 {
      WidthsPrefix(wide[1..], k - 1);
      assert wide[..k][1..] == wide[1..][..k - 1] && wide[..k + 1][1..] == wide[1..][..k];
    } else {
      assert wide[..1][1..] == [] && wide[..1][0] == wide[0];
    }
  }

  /** Declarators get consecutive slots. */
  lemma {:induction false} LocalsSafe(id: Id, wide: seq<bool>, k: nat, first: nat, live: set<nat>, g: Layout)
    requires k <= |wide|
    requires forall j :: 0 <= j < |wide| ==> VarAt(g, LocalVar(id, j), first + Widths(wide[..j]))
    requires Under(live, first + Widths(wide[..k]))
    ensures DistinctFrom(id, wide, k, live, g)
    ensures Between(DeclaredFrom(id, wide, k, g), first + Widths(wide[..k]), first + Widths(wide))
    decreases |wide| - k
  {
    if k < |wide| {
      WidthsPrefix(wide, k);
      var span := VarStores(SlotOf(g, LocalVar(id, k)), wide[k]);
      LocalsSafe(id, wide, k + 1, first, live + span, g);
    } else {
      assert wide[..k] == wide;
    }
  }

  /** What holds of statement s processed from scope sc: it is safe, it takes its slots past sc or among
      the helper slots, and the scope after it still covers what is live. */
  ghost predicate Placed(s: Stmt, top: Id, sc: Scope, live: set<nat>, g: Layout, ret: nat) {
    && Safe(s, top, live, g, ret)
    && UsedFrom(Used(s, top, g, ret), sc, Next(s, sc, ret), ret) && Grows(sc, Next(s, sc, ret))
    && (!IsLoop(s) ==> LiveIn(live + Declared(s, g), Next(s, sc, ret), ret))
  }

  lemma {:induction false} StmtSafe(s: Stmt, top: Id, sc: Scope, live: set<nat>, g: Layout, ret: nat)
    requires Shape(s) && Fits(s, top, sc, g, ret) && LiveIn(live, sc, ret) && (IsLoop(s) ==> sc.helper.None?)
    ensures Placed(s, top, sc, live, g, ret)
    decreases s, 2
  {
    match s
    case Local(_, _, _) => LocalSafe(s, top, sc, live, g, ret);
    case Block(_, _, _) => BlocksSafe(s, top, sc, live, g, ret);
    case If(_, _, _, _) => BlocksSafe(s, top, sc, live, g, ret);
    case While(_, _, _) => BlocksSafe(s, top, sc, live, g, ret);
    case Do(_, _, _) => BlocksSafe(s, top, sc, live, g, ret);
    case For(_, _, _, _, _) => ForSafe(s, top, sc, live, g, ret);
    case Foreach(_, _, _, _, _) => ForeachSafe(s, top, sc, live, g, ret);
    case Switch(_, _, _, _, _) => SwitchSafe(s, top, sc, live, g, ret);
    case Sync(_, _, _) => SyncSafe(s, top, sc, live, g, ret);
    case Try(_, _, _, _) => TrySafe(s, top, sc, live, g, ret);
    case _ => assert live + {} == live;
  }

  lemma {:induction false} LocalSafe(s: Stmt, top: Id, sc: Scope, live: set<nat>, g: Layout, ret: nat)
    requires s.Local? && Fits(s, top, sc, g, ret) && LiveIn(live, sc, ret)
    ensures Placed(s, top, sc, live, g, ret)
  {
    assert s.wide[..0] == [];
    LocalsSafe(s.id, s.wide, 0, sc.next, live, g);
  }

  lemma {:induction false} IfSafe(s: Stmt, top: Id, sc: Scope, live: set<nat>, g: Layout, ret: nat)
    requires s.If? && Shape(s) && Fits(s, top, sc, g, ret) && LiveIn(live, sc, ret)
    ensures Placed(s, top, sc, live, g, ret)
    decreases s, 1, 0
  {
    assert live + {} == live;
    BlockSafe(s.thn, sc.next, live, g, ret);
    if s.els.Some? { BlockSafe(s.els.value, sc.next, live, g, ret); }
  }

  /** Statements that only contain blocks. */
  lemma {:induction false} BlocksSafe(s: Stmt, top: Id, sc: Scope, live: set<nat>, g: Layout, ret: nat)
    requires s.Block? || s.If? || s.While? || s.Do?
    requires Shape(s) && Fits(s, top, sc, g, ret) && LiveIn(live, sc, ret)
    ensures Placed(s, top, sc, live, g, ret)
    decreases s, 1, 1
  {
    assert live + {} == live;
    match s
    case Block(_, _, _) => BlockSafe(s, sc.next, live, g, ret);
    case If(_, _, _, _) => IfSafe(s, top, sc, live, g, ret);
    case While(_, _, b) => BlockSafe(b, sc.next, live, g, ret);
    case Do(_, b, _) => BlockSafe(b, sc.next, live, g, ret);
  }

  lemma {:induction false} SwitchSafe(s: Stmt, top: Id, sc: Scope, live: set<nat>, g: Layout, ret: nat)
    requires s.Switch? && Shape(s) && Fits(s, top, sc, g, ret) && LiveIn(live, sc, ret)
    ensures Placed(s, top, sc, live, g, ret)
    decreases s, 1, 1
  {
    assert live + {} == live;
    GroupsSafe(s.groups, s.blockId, Scope(sc.next, None, 0), live, g, ret);
  }

  lemma {:induction false} SyncSafe(s: Stmt, top: Id, sc: Scope, live: set<nat>, g: Layout, ret: nat)
    requires s.Sync? && Shape(s) && Fits(s, top, sc, g, ret) && LiveIn(live, sc, ret)
    ensures Placed(s, top, sc, live, g, ret)
    decreases s, 1, 1
  {
    assert live + {} == live;
    BlockSafe(s.body, Reserve(sc, ret).next, live + SyncStores(HelperOf(g, top)), g, ret);
  }

  lemma {:induction false} ForSafe(s: Stmt, top: Id, sc: Scope, live: set<nat>, g: Layout, ret: nat)
    requires s.For? && Shape(s) && Fits(s, top, sc, g, ret) && LiveIn(live, sc, ret) && sc.helper.None?
    ensures Placed(s, top, sc, live, g, ret)
    decreases s, 1, 1
  {
    SeqSafe(s.init, top, sc, live, g, ret);
    BlockSafe(s.body, NextSeq(s.init, sc, ret).next, live + DeclaredAll(s.init, g), g, ret);
  }

  /** The helper slots of a foreach come right after its variable. */
  lemma {:induction false} ForeachSafe(s: Stmt, top: Id, sc: Scope, live: set<nat>, g: Layout, ret: nat)
    requires s.Foreach? && Shape(s) && Fits(s, top, sc, g, ret) && LiveIn(live, sc, ret) && sc.helper.None?
    ensures Placed(s, top, sc, live, g, ret)
    decreases s, 1, 1
  {
    var v := VarStores(SlotOf(g, ForeachVar(s.id)), s.wideIndex);
    var h := ForeachStores(HelperOf(g, top), s.isArray);
    BlockSafe(s.body, sc.next + Width(s.wideIndex) + ForeachHelperSize(s.isArray), live + v + h, g, ret);
  }

  lemma {:induction false} BlockSafe(b: Stmt, m: nat, live: set<nat>, g: Layout, ret: nat)
    requires b.Block? && Shape(b) && FitsBlock(b, m, g, ret) && Under(live, m)
    ensures SafeBlock(b, live, g, ret)
    ensures m <= BlockMax(b, m, ret) && Between(UsedBlock(b, g, ret), m, BlockMax(b, m, ret))
    decreases b, 1, 0
  {
    SeqSafe(b.stmts, b.id, Scope(m, None, 0), live, g, ret);
  }

  lemma {:induction false} SeqSafe(ss: seq<Stmt>, top: Id, sc: Scope, live: set<nat>, g: Layout, ret: nat)
    requires forall i :: 0 <= i < |ss| ==> Shape(ss[i]) && (IsLoop(ss[i]) ==> |ss| == 1 && sc.helper.None?)
    requires FitsSeq(ss, top, sc, g, ret) && LiveIn(live, sc, ret)
    ensures SafeAll(ss, top, live, g, ret)
    ensures UsedFrom(UsedAll(ss, top, g, ret), sc, NextSeq(ss, sc, ret), ret) && Grows(sc, NextSeq(ss, sc, ret))
    ensures (forall i :: 0 <= i < |ss| ==> !IsLoop(ss[i])) ==>
            LiveIn(live + DeclaredAll(ss, g), NextSeq(ss, sc, ret), ret)
    decreases ss, 0
  {
    if ss == [] {
      assert live + {} == live;
    } else {
      StmtSafe(ss[0], top, sc, live, g, ret);
      var sc1 := Next(ss[0], sc, ret);
      if IsLoop(ss[0]) {
        assert ss[1..] == [];
      } else {
        SeqSafe(ss[1..], top, sc1, live + Declared(ss[0], g), g, ret);
        assert live + DeclaredAll(ss, g) == live + Declared(ss[0], g) + DeclaredAll(ss[1..], g);
      }
    }
  }

  lemma {:induction false} GroupsSafe(gs: seq<Stmt>, top: Id, sc: Scope, live: set<nat>, g: Layout, ret: nat)
    requires forall i :: 0 <= i < |gs| ==> IsPlain(gs[i]) && Shape(gs[i])
    requires FitsGroups(gs, top, sc, g, ret) && LiveIn(live, sc, ret)
    ensures SafeGroups(gs, top, live, g, ret)
    ensures UsedFrom(UsedGroups(gs, top, g, ret), sc, NextGroups(gs, sc, ret), ret)
            && Grows(sc, NextGroups(gs, sc, ret))
    decreases gs, 0
  {
    if gs != [] {
      GroupSafe(gs[0], top, sc, live, g, ret);
      GroupsSafe(gs[1..], top, NextGroup(gs[0], sc, ret), live + DeclaredAll(gs[0].stmts, g), g, ret);
    }
  }

  lemma {:induction false} GroupSafe(b: Stmt, top: Id, sc: Scope, live: set<nat>, g: Layout, ret: nat)
    requires IsPlain(b) && Shape(b) && FitsSeq(b.stmts, top, sc.(enclosed := 0), g, ret) && LiveIn(live, sc, ret)
    ensures SafeAll(b.stmts, top, live, g, ret)
    ensures UsedFrom(UsedAll(b.stmts, top, g, ret), sc, NextGroup(b, sc, ret), ret) && Grows(sc, NextGroup(b, sc, ret))
    ensures LiveIn(live + DeclaredAll(b.stmts, g), NextGroup(b, sc, ret), ret)
    decreases b, 1
  {
    SeqSafe(b.stmts, top, sc.(enclosed := 0), live, g, ret);
  }

  /** What the body of a try statement must keep: with a finally clause, its slots and helpers as well. */
  function Kept(s: Stmt, top: Id, live: set<nat>, g: Layout, ret: nat): set<nat>
    requires s.Try?
  {
    if s.fin.None? then live else live + FinallyStores(HelperOf(g, top), ret) + UsedBlock(s.fin.value, g, ret)
  }

  lemma {:induction false} FinallySafe(s: Stmt, top: Id, sc: Scope, live: set<nat>, g: Layout, ret: nat)
    requires s.Try? && s.fin.Some? && Shape(s) && Fits(s, top, sc, g, ret) && LiveIn(live, sc, ret)
    ensures FinallyStores(HelperOf(g, top), ret) !! live
    ensures SafeBlock(s.fin.value, live + FinallyStores(HelperOf(g, top), ret), g, ret)
    ensures Under(Kept(s, top, live, g, ret), TryStart(s, sc, ret))
    ensures UsedFrom(FinallyStores(HelperOf(g, top), ret) + UsedBlock(s.fin.value, g, ret), sc,
                     Enclose(Reserve(sc, ret), TryStart(s, sc, ret)), ret)
    ensures LiveIn(live, Reserve(sc, ret), ret) && Grows(sc, Reserve(sc, ret))
    ensures Reserve(sc, ret).next <= TryStart(s, sc, ret)
    decreases s, 1, 1
  {
    BlockSafe(s.fin.value, Reserve(sc, ret).next, live + FinallyStores(HelperOf(g, top), ret), g, ret);
  }

  lemma {:induction false} TrySafe(s: Stmt, top: Id, sc: Scope, live: set<nat>, g: Layout, ret: nat)
    requires s.Try? && Shape(s) && Fits(s, top, sc, g, ret) && LiveIn(live, sc, ret)
    ensures Placed(s, top, sc, live, g, ret)
    decreases s, 1, 2
  {
    hide UsedBlock, SafeBlock, SafeCatches, UsedCatches, NextCatches, BlockMax, FitsBlock, FitsCatches, FinallyStores;
    assert live + {} == live;
    var m := TryStart(s, sc, ret);
    var kept := Kept(s, top, live, g, ret);
    var sc1 := sc;
    if s.fin.Some? {
      FinallySafe(s, top, sc, live, g, ret);
      sc1 := Enclose(Reserve(sc, ret), m);
    }
    BlockSafe(s.body, m, kept, g, ret);
    CatchesSafe(s.catches, m, Enclose(sc1, BlockMax(s.body, m, ret)), kept, g, ret);
  }

  lemma {:induction false} CatchesSafe(cs: seq<Catch>, m: nat, sc: Scope, live: set<nat>, g: Layout, ret: nat)
    requires forall i :: 0 <= i < |cs| ==> cs[i].body.Block? && Shape(cs[i].body)
    requires FitsCatches(cs, m, g, ret) && Under(live, m)
    ensures SafeCatches(cs, live, g, ret)
    ensures var end := NextCatches(cs, m, sc, ret);
            && Between(UsedCatches(cs, g, ret), m, end.enclosed)
            && end.next == sc.next && end.helper == sc.helper && sc.enclosed <= end.enclosed
    decreases cs, 0
  {
    if cs != [] {
      var c := cs[0];
      assert c.body < c;
      var p := VarStores(SlotOf(g, CatchParam(c.body.id)), false);
      BlockSafe(c.body, m + 1, live + p, g, ret);
      CatchesSafe(cs[1..], m, Enclose(sc, BlockMax(c.body, m + 1, ret)), live, g, ret);
    }
  }

  /** In the layout of a method body that starts past the parameters, nothing live at the same time shares
      a slot, and the final count exceeds every slot. */
  lemma {:induction false} MethodSlotsSafe(body: Stmt, params: nat, g: Layout, ret: nat)
    requires IsPlain(body) && Shape(body) && FitsBlock(body, params, g, ret)
    ensures SafeBlock(body, Span(0, params), g, ret)
    ensures forall x :: x in Span(0, params) + UsedBlock(body, g, ret) ==> x < BlockMax(body, params, ret)
  {
    BlockSafe(body, params, Span(0, params), g, ret);
  }
}
