/** The allocator: slots are handed out while the statements are processed, in one pass over the tree. */
module SlotAllocator {
  import opened JavaAst
  import opened Options
  import opened Slots
  import opened SlotSafety
  import SlotCount
  import SlotReuse

  /** The fields of the allocator as a value. */
  datatype State = State(maxIndex: map<Id, nat>, helper: map<Id, nat>, vars: map<Var, nat>, blocks: seq<Id>,
                         enclosed: seq<nat>)

  function Owner(v: Var): Id {
    v.id
  }

  predicate Opened(st: State) {
    st.blocks != [] && |st.enclosed| == |st.blocks| && TopId(st) in st.maxIndex
  }

  function TopId(st: State): Id
    requires st.blocks != []
  {
    st.blocks[|st.blocks| - 1]
  }

  function Top(st: State): Scope
    requires Opened(st)
  {
    Scope(st.maxIndex[TopId(st)],
          if TopId(st) in st.helper then Some(st.helper[TopId(st)]) else None,
          st.enclosed[|st.enclosed| - 1])
  }

  function LayoutOf(st: State): Layout {
    Layout(st.vars, st.helper)
  }

  /** Nothing has been recorded yet for the nodes `ids`. */
  ghost predicate Fresh(ids: set<Id>, st: State) {
    && (forall b :: b in st.blocks ==> b !in ids)
    && (forall b :: b in st.helper ==> b !in ids)
    && (forall v :: v in st.vars ==> Owner(v) !in ids)
  }

  ghost predicate Extends(a: Layout, b: Layout) {
    && (forall v :: v in a.vars ==> v in b.vars && b.vars[v] == a.vars[v])
    && (forall i :: i in a.helpers ==> i in b.helpers && b.helpers[i] == a.helpers[i])
  }

  /** From a to b only entries of the nodes `ids` and of the top block have been added. */
  ghost predicate Keeps(ids: set<Id>, a: State, b: State) {
    && Opened(a) && Opened(b) && Extends(LayoutOf(a), LayoutOf(b))
    && b.blocks == a.blocks && b.enclosed[..|b.enclosed| - 1] == a.enclosed[..|a.enclosed| - 1]
    && (forall v :: v in b.vars && v !in a.vars ==> Owner(v) in ids)
    && (forall i :: i in b.helper && i !in a.helper ==> i in ids + {TopId(a)})
    && (forall i :: i in a.maxIndex && i !in ids + {TopId(a)} ==> i in b.maxIndex && b.maxIndex[i] == a.maxIndex[i])
  }

  lemma {:induction false} KeepsBoth(ids1: set<Id>, ids2: set<Id>, a: State, b: State, c: State)
    requires Keeps(ids1, a, b) && Keeps(ids2, b, c)
    ensures Keeps(ids1 + ids2, a, c)
  {
  }

  lemma {:induction false} StillFresh(ids: set<Id>, other: set<Id>, a: State, b: State)
    requires Keeps(ids, a, b) && Fresh(other, a) && ids !! other
    ensures Fresh(other, b)
  {
    assert TopId(a) in a.blocks;
  }

  // ---- More entries never disturb what fits

  lemma {:induction false} FitsExtends(s: Stmt, top: Id, sc: Scope, a: Layout, b: Layout, ret: nat)
    requires Fits(s, top, sc, a, ret) && Extends(a, b)
    ensures Fits(s, top, sc, b, ret)
    decreases s, 2
  {
    match s
    case Local(_, _, _) =>
    case Block(_, _, _) => FitsBlockExtends(s, sc.next, a, b, ret);
    case If(_, _, t, e) =>
      FitsBlockExtends(t, sc.next, a, b, ret);
      if e.Some? { FitsBlockExtends(e.value, sc.next, a, b, ret); }
    case While(_, _, body) => FitsBlockExtends(body, sc.next, a, b, ret);
    case Do(_, body, _) => FitsBlockExtends(body, sc.next, a, b, ret);
    case For(_, init, _, _, body) =>
      FitsSeqExtends(init, top, sc, a, b, ret);
      FitsBlockExtends(body, NextSeq(init, sc, ret).next, a, b, ret);
    case Foreach(_, wide, isArray, _, body) =>
      FitsBlockExtends(body, sc.next + Width(wide) + ForeachHelperSize(isArray), a, b, ret);
    case Switch(_, bid, _, gs, _) => FitsGroupsExtends(gs, bid, Scope(sc.next, None, 0), a, b, ret);
    case Sync(_, _, body) => FitsBlockExtends(body, Reserve(sc, ret).next, a, b, ret);
    case Try(_, body, cs, f) =>
      if f.Some? { FitsBlockExtends(f.value, Reserve(sc, ret).next, a, b, ret); }
      FitsBlockExtends(body, TryStart(s, sc, ret), a, b, ret);
      FitsCatchesExtends(cs, TryStart(s, sc, ret), a, b, ret);
    case _ =>
  }

  lemma {:induction false} FitsBlockExtends(s: Stmt, m: nat, a: Layout, b: Layout, ret: nat)
    requires FitsBlock(s, m, a, ret) && Extends(a, b)
    ensures FitsBlock(s, m, b, ret)
    decreases s, 1
  {
    if s.Block? { FitsSeqExtends(s.stmts, s.id, Scope(m, None, 0), a, b, ret); }
  }

  lemma {:induction false} FitsSeqExtends(ss: seq<Stmt>, top: Id, sc: Scope, a: Layout, b: Layout, ret: nat)
    requires FitsSeq(ss, top, sc, a, ret) && Extends(a, b)
    ensures FitsSeq(ss, top, sc, b, ret)
    decreases ss, 0
  {
    if ss != [] {
      FitsExtends(ss[0], top, sc, a, b, ret);
      FitsSeqExtends(ss[1..], top, Next(ss[0], sc, ret), a, b, ret);
    }
  }

  lemma {:induction false} FitsGroupsExtends(gs: seq<Stmt>, top: Id, sc: Scope, a: Layout, b: Layout, ret: nat)
    requires FitsGroups(gs, top, sc, a, ret) && Extends(a, b)
    ensures FitsGroups(gs, top, sc, b, ret)
    decreases gs, 0
  {
    if gs != [] {
      FitsSeqExtends(gs[0].stmts, top, sc.(enclosed := 0), a, b, ret);
      FitsGroupsExtends(gs[1..], top, NextGroup(gs[0], sc, ret), a, b, ret);
    }
  }

  lemma {:induction false} FitsCatchesExtends(cs: seq<Catch>, m: nat, a: Layout, b: Layout, ret: nat)
    requires FitsCatches(cs, m, a, ret) && Extends(a, b)
    ensures FitsCatches(cs, m, b, ret)
    decreases cs, 0
  {
    if cs != [] {
      var c := cs[0];
      assert c.body < c;
      FitsBlockExtends(c.body, m + 1, a, b, ret);
      FitsCatchesExtends(cs[1..], m, a, b, ret);
    }
  }

  // ---- Sequences one element at a time

  lemma {:induction false} SeqGrows(ss: seq<Stmt>, k: nat, top: Id, sc: Scope, g: Layout, ret: nat)
    requires k < |ss|
    ensures NextSeq(ss[..k + 1], sc, ret) == Next(ss[k], NextSeq(ss[..k], sc, ret), ret)
    ensures FitsSeq(ss[..k], top, sc, g, ret) && Fits(ss[k], top, NextSeq(ss[..k], sc, ret), g, ret) ==>
              FitsSeq(ss[..k + 1], top, sc, g, ret)
    decreases k
  {
    if k == 0 {
      assert ss[..1] == [ss[0]] && ss[..1][1..] == [];
    } else {
      assert ss[..k][1..] == ss[1..][..k - 1] && ss[..k + 1][1..] == ss[1..][..k];
      SeqGrows(ss[1..], k - 1, top, Next(ss[0], sc, ret), g, ret);
    }
  }

  lemma {:induction false} GroupsGrow(gs: seq<Stmt>, k: nat, top: Id, sc: Scope, g: Layout, ret: nat)
    requires k < |gs| && gs[k].Block?
    ensures NextGroups(gs[..k + 1], sc, ret) == NextGroup(gs[k], NextGroups(gs[..k], sc, ret), ret)
    ensures && FitsGroups(gs[..k], top, sc, g, ret)
            && FitsSeq(gs[k].stmts, top, NextGroups(gs[..k], sc, ret).(enclosed := 0), g, ret) ==>
              FitsGroups(gs[..k + 1], top, sc, g, ret)
    decreases k
  {
    if k == 0 {
      assert gs[..1] == [gs[0]] && gs[..1][1..] == [];
    } else {
      assert gs[..k][1..] == gs[1..][..k - 1] && gs[..k + 1][1..] == gs[1..][..k];
      GroupsGrow(gs[1..], k - 1, top, NextGroup(gs[0], sc, ret), g, ret);
    }
  }

  lemma {:induction false} CatchesGrow(cs: seq<Catch>, k: nat, m: nat, sc: Scope, g: Layout, ret: nat)
    requires k < |cs|
    ensures NextCatches(cs[..k + 1], m, sc, ret) ==
            Enclose(NextCatches(cs[..k], m, sc, ret), BlockMax(cs[k].body, m + 1, ret))
    ensures (FitsCatches(cs[..k], m, g, ret) && VarAt(g, CatchParam(cs[k].body.id), m) &&
             FitsBlock(cs[k].body, m + 1, g, ret))
              ==> FitsCatches(cs[..k + 1], m, g, ret)
    decreases k
  {
    if k == 0 {
      assert cs[..1] == [cs[0]] && cs[..1][1..] == [];
    } else {
      assert cs[..k][1..] == cs[1..][..k - 1] && cs[..k + 1][1..] == cs[1..][..k];
      CatchesGrow(cs[1..], k - 1, m, Enclose(sc, BlockMax(cs[0].body, m + 1, ret)), g, ret);
    }
  }

  // ---- Steps of the allocator

  /** Statement s may be processed in state st. A loop stands alone in its block. */
  ghost predicate Ready(s: Stmt, st: State) {
    && Shape(s) && Unique(s) && Opened(st) && Fresh(Ids(s), st)
    && (IsLoop(s) ==> Top(st).helper.None?)
  }

  /** What processing s does to the state. */
  ghost predicate Processed(s: Stmt, a: State, b: State, ret: nat) {
    && Keeps(Ids(s), a, b)
    && Top(b) == Next(s, Top(a), ret)
    && Fits(s, TopId(a), Top(a), LayoutOf(b), ret)
  }

  /** Block b, its slots starting at m, has been processed and closed. */
  ghost predicate BlockProcessed(b: Stmt, m: nat, before: State, after: State, ret: nat) {
    && Keeps(Ids(b), before, after)
    && Top(after) == Enclose(Top(before), BlockMax(b, m, ret))
    && FitsBlock(b, m, LayoutOf(after), ret)
    && b.id in after.maxIndex && after.maxIndex[b.id] == BlockMax(b, m, ret)
  }

  ghost predicate SeqReady(ss: seq<Stmt>, st: State) {
    && UniqueAll(ss) && Opened(st) && Fresh(IdsOf(ss), st)
    && forall i :: 0 <= i < |ss| ==> Shape(ss[i]) && (IsLoop(ss[i]) ==> |ss| == 1 && Top(st).helper.None?)
  }

  ghost predicate SeqProcessed(ss: seq<Stmt>, a: State, b: State, ret: nat) {
    && Keeps(IdsOf(ss), a, b)
    && Top(b) == NextSeq(ss, Top(a), ret)
    && FitsSeq(ss, TopId(a), Top(a), LayoutOf(b), ret)
  }

  lemma {:induction false} IdsOfPrefix(ss: seq<Stmt>, k: nat)
    requires k < |ss| && UniqueAll(ss)
    ensures IdsOf(ss[..k + 1]) == IdsOf(ss[..k]) + Ids(ss[k]) && IdsOf(ss[..k]) !! Ids(ss[k])
    ensures IdsOf(ss[..k + 1]) <= IdsOf(ss) && Unique(ss[k])
    decreases k
  {
    if k == 0 {
      assert ss[..1] == [ss[0]] && ss[..1][1..] == [];
    } else {
      assert ss[..k][1..] == ss[1..][..k - 1] && ss[..k + 1][1..] == ss[1..][..k];
      IdsOfPrefix(ss[1..], k - 1);
    }
  }

  lemma {:induction false} SeqNextReady(ss: seq<Stmt>, k: nat, st: State, cur: State, ret: nat)
    requires k < |ss| && SeqReady(ss, st) && SeqProcessed(ss[..k], st, cur, ret)
    ensures Ready(ss[k], cur)
  {
    IdsOfPrefix(ss, k);
    assert Fresh(Ids(ss[k]), st);
    StillFresh(IdsOf(ss[..k]), Ids(ss[k]), st, cur);
    if IsLoop(ss[k]) { assert k == 0 && ss[..k] == []; }
  }

  lemma {:induction false} SeqStep(ss: seq<Stmt>, k: nat, st: State, cur: State, next: State, ret: nat)
    requires k < |ss| && SeqReady(ss, st) && SeqProcessed(ss[..k], st, cur, ret) && Processed(ss[k], cur, next, ret)
    ensures SeqProcessed(ss[..k + 1], st, next, ret)
  {
    IdsOfPrefix(ss, k);
    KeepsBoth(IdsOf(ss[..k]), Ids(ss[k]), st, cur, next);
    FitsSeqExtends(ss[..k], TopId(st), Top(st), LayoutOf(cur), LayoutOf(next), ret);
    SeqGrows(ss, k, TopId(st), Top(st), LayoutOf(next), ret);
  }

  /** Closing the top block. */
  function Closed(st: State): State
    requires Opened(st)
  {
    var id, max, rest := TopId(st), Reach(Top(st)), st.enclosed[..|st.enclosed| - 1];
    st.(maxIndex := st.maxIndex[id := max],
        blocks := st.blocks[..|st.blocks| - 1],
        enclosed := if rest == [] then [] else rest[|rest| - 1 := Max(rest[|rest| - 1], max)])
  }

  function Pushed(id: Id, st: State): State {
    st.(blocks := st.blocks + [id], enclosed := st.enclosed + [0])
  }

  /** Block b can be processed, in an open block or as the outermost one. */
  ghost predicate BlockReady(b: Stmt, st: State) {
    && b.Block? && Shape(b) && Unique(b) && |st.blocks| == |st.enclosed|
    && Fresh(IdsOf(b.stmts), st) && b.id !in st.blocks && b.id !in st.helper
  }

  lemma {:induction false} StillReady(b: Stmt, ids: set<Id>, a: State, c: State)
    requires BlockReady(b, a) && Keeps(ids, a, c) && ids !! Ids(b)
    ensures BlockReady(b, c)
    ensures b.id in a.maxIndex ==> b.id in c.maxIndex && c.maxIndex[b.id] == a.maxIndex[b.id]
  {
    StillFresh(ids, IdsOf(b.stmts), a, c);
    assert TopId(a) in a.blocks;
  }

  lemma {:induction false} PushedReady(b: Stmt, st: State)
    requires BlockReady(b, st) && b.id in st.maxIndex
    ensures SeqReady(b.stmts, Pushed(b.id, st)) && Top(Pushed(b.id, st)) == Scope(st.maxIndex[b.id], None, 0)
  {
  }

  lemma {:induction false} BlockStep(b: Stmt, st: State, inner: State, ret: nat)
    requires BlockReady(b, st) && b.id in st.maxIndex && Opened(st)
    requires SeqProcessed(b.stmts, Pushed(b.id, st), inner, ret)
    ensures BlockProcessed(b, st.maxIndex[b.id], st, Closed(inner), ret)
  {
    hide Shape, Unique, FitsSeq, NextSeq;
    PushedReady(b, st);
    assert Pushed(b.id, st).blocks[..|st.blocks|] == st.blocks;
    assert inner.enclosed[..|inner.enclosed| - 1] == st.enclosed;
    assert Closed(inner).enclosed[..|st.enclosed| - 1] == st.enclosed[..|st.enclosed| - 1];
    assert TopId(st) in st.blocks && TopId(st) != b.id;
  }

  lemma {:induction false} OutermostStep(b: Stmt, st: State, inner: State, ret: nat)
    requires BlockReady(b, st) && b.id in st.maxIndex && st.blocks == []
    requires SeqProcessed(b.stmts, Pushed(b.id, st), inner, ret)
    ensures FitsBlock(b, st.maxIndex[b.id], LayoutOf(Closed(inner)), ret)
    ensures Closed(inner).maxIndex[b.id] == BlockMax(b, st.maxIndex[b.id], ret)
  {
    PushedReady(b, st);
  }

  function WithVariable(v: Var, wide: bool, st: State): State
    requires Opened(st)
  {
    st.(vars := st.vars[v := Top(st).next], maxIndex := st.maxIndex[TopId(st) := Top(st).next + Width(wide)])
  }

  lemma {:induction false} VariableKeeps(v: Var, wide: bool, st: State)
    requires Opened(st) && v !in st.vars
    ensures Keeps({Owner(v)}, st, WithVariable(v, wide, st))
    ensures Top(WithVariable(v, wide, st)) == Top(st).(next := Top(st).next + Width(wide))
  {
  }

  function WithHelper(size: nat, st: State): State
    requires Opened(st)
  {
    st.(helper := st.helper[TopId(st) := Top(st).next], maxIndex := st.maxIndex[TopId(st) := Top(st).next + size])
  }

  lemma {:induction false} HelperKeeps(size: nat, st: State)
    requires Opened(st) && Top(st).helper.None?
    ensures Keeps({}, st, WithHelper(size, st))
    ensures Top(WithHelper(size, st)) == Top(st).(helper := Some(Top(st).next), next := Top(st).next + size)
  {
  }

  lemma {:induction false} StatementReady(s: Stmt, st: State)
    requires Ready(s, st)
    ensures Opened(st) && (s.Block? ==> BlockReady(s, st)) && (s.While? || s.Do? ==> BlockReady(s.body, st))
  {
  }

  /** A statement that consists of block b, or of a loop around it. */
  lemma {:induction false} PlainBlockEnd(s: Stmt, b: Stmt, st: State, end: State, ret: nat)
    requires (s.Block? && b == s) || ((s.While? || s.Do?) && b == s.body)
    requires Opened(st) && BlockProcessed(b, Top(st).next, st, end, ret)
    ensures Processed(s, st, end, ret)
  {
    hide FitsBlock, BlockMax;
    KeepsMore(Ids(b), Ids(s), st, end);
  }

  lemma {:induction false} NothingToDo(s: Stmt, st: State, ret: nat)
    requires Ready(s, st) && (s.Simple? || s.Break? || s.Continue? || s.Return? || s.Throw?)
    ensures Processed(s, st, st, ret)
  {
  }

  lemma {:induction false} IfOpens(s: Stmt, st: State)
    requires s.If? && Ready(s, st)
    ensures Opened(st) && BlockReady(s.thn, st)
  {
  }

  lemma {:induction false} ElseOpens(s: Stmt, st: State, mid: State, ret: nat)
    requires s.If? && s.els.Some? && Ready(s, st) && BlockProcessed(s.thn, Top(st).next, st, mid, ret)
    ensures Opened(mid) && BlockReady(s.els.value, mid)
  {
    StillFresh(Ids(s.thn), Ids(s.els.value), st, mid);
  }

  lemma {:induction false} IfEnd(s: Stmt, st: State, mid: State, end: State, ret: nat)
    requires s.If? && Ready(s, st) && BlockProcessed(s.thn, Top(st).next, st, mid, ret)
    requires if s.els.Some? then Opened(mid) && BlockProcessed(s.els.value, Top(mid).next, mid, end, ret)
             else end == mid
    ensures Processed(s, st, end, ret)
  {
    if s.els.Some? {
      KeepsBoth(Ids(s.thn), Ids(s.els.value), st, mid, end);
      FitsBlockExtends(s.thn, Top(st).next, LayoutOf(mid), LayoutOf(end), ret);
      hide Ready, FitsBlock, BlockMax;
    }
  }

  ghost predicate ForeachDeclared(s: Stmt, st: State, mid: State)
    requires s.Foreach?
  {
    && Keeps({s.id}, st, mid)
    && var h := Top(st).next + Width(s.wideIndex);
    && Top(mid) == Top(st).(helper := Some(h), next := h + ForeachHelperSize(s.isArray))
    && VarAt(LayoutOf(mid), ForeachVar(s.id), Top(st).next) && HelperAt(LayoutOf(mid), TopId(st), h)
  }

  lemma {:induction false} ForeachPlan(s: Stmt, st: State)
    requires s.Foreach? && Ready(s, st)
    ensures Opened(st) && Opened(WithVariable(ForeachVar(s.id), s.wideIndex, st))
    ensures ForeachDeclared(
              s, st, WithHelper(ForeachHelperSize(s.isArray), WithVariable(ForeachVar(s.id), s.wideIndex, st)))
  {
    var declared := WithVariable(ForeachVar(s.id), s.wideIndex, st);
    VariableKeeps(ForeachVar(s.id), s.wideIndex, st);
    HelperKeeps(ForeachHelperSize(s.isArray), declared);
    KeepsBoth({s.id}, {}, st, declared, WithHelper(ForeachHelperSize(s.isArray), declared));
    assert {s.id} + {} == {s.id};
  }

  lemma {:induction false} ForeachStep(s: Stmt, st: State, mid: State)
    requires s.Foreach? && Ready(s, st) && ForeachDeclared(s, st, mid)
    ensures BlockReady(s.body, mid) && Opened(mid)
  {
    StillFresh({s.id}, Ids(s.body), st, mid);
  }

  lemma {:induction false} ForeachEnd(s: Stmt, st: State, mid: State, end: State, ret: nat)
    requires s.Foreach? && ForeachDeclared(s, st, mid) && BlockProcessed(s.body, Top(mid).next, mid, end, ret)
    ensures Processed(s, st, end, ret)
  {
    KeepsBoth({s.id}, Ids(s.body), st, mid, end);
  }

  /** The first k declarators of declaration s have their slots. */
  ghost predicate LocalsAdded(s: Stmt, k: nat, st: State, cur: State)
    requires s.Local? && k <= |s.wide|
  {
    && Keeps({s.id}, st, cur)
    && Top(cur) == Top(st).(next := Top(st).next + Widths(s.wide[..k]))
    && (forall j :: 0 <= j < k ==> VarAt(LayoutOf(cur), LocalVar(s.id, j), Top(st).next + Widths(s.wide[..j])))
    && (forall v :: v in cur.vars && Owner(v) == s.id ==> v.LocalVar? && v.index < k)
  }

  lemma {:induction false} LocalsOpened(s: Stmt, k: nat, st: State, cur: State)
    requires s.Local? && k < |s.wide| && LocalsAdded(s, k, st, cur)
    ensures Opened(st) && Opened(cur) && LocalVar(s.id, k) !in cur.vars
  {
  }

  lemma {:induction false} VariableAdded(v: Var, wide: bool, st: State)
    requires Opened(st)
    ensures WithVariable(v, wide, st).vars == st.vars[v := Top(st).next]
  {
  }

  lemma {:induction false} LocalsStep(s: Stmt, k: nat, st: State, cur: State)
    requires s.Local? && k < |s.wide| && LocalsAdded(s, k, st, cur)
    ensures LocalsAdded(s, k + 1, st, WithVariable(LocalVar(s.id, k), s.wide[k], cur))
  {
    hide Keeps, Widths, WithVariable;
    LocalsOpened(s, k, st, cur);
    var v := LocalVar(s.id, k);
    var next := WithVariable(v, s.wide[k], cur);
    VariableKeeps(v, s.wide[k], cur);
    VariableAdded(v, s.wide[k], cur);
    KeepsBoth({s.id}, {s.id}, st, cur, next);
    assert {s.id} + {s.id} == {s.id};
    WidthsPrefix(s.wide, k);
  }

  // ---- Switch

  ghost predicate GroupReady(g: Stmt, st: State) {
    IsPlain(g) && Shape(g) && Unique(g) && Opened(st) && Fresh(Ids(g), st) && g.id != TopId(st)
  }

  ghost predicate GroupProcessed(g: Stmt, a: State, b: State, ret: nat) {
    && g.Block? && Keeps(Ids(g), a, b)
    && Top(b) == NextGroup(g, Top(a), ret)
    && FitsSeq(g.stmts, TopId(a), Top(a).(enclosed := 0), LayoutOf(b), ret)
  }

  ghost predicate GroupsReady(gs: seq<Stmt>, st: State) {
    && UniqueAll(gs) && Opened(st) && Fresh(IdsOf(gs), st)
    && forall i :: 0 <= i < |gs| ==> IsPlain(gs[i]) && Shape(gs[i])
  }

  ghost predicate GroupsProcessed(gs: seq<Stmt>, a: State, b: State, ret: nat) {
    && Keeps(IdsOf(gs), a, b)
    && Top(b) == NextGroups(gs, Top(a), ret)
    && FitsGroups(gs, TopId(a), Top(a), LayoutOf(b), ret)
  }

  function GroupOpened(g: Stmt, st: State): State
    requires Opened(st)
  {
    Pushed(TopId(st), st.(maxIndex := st.maxIndex[g.id := Top(st).next]))
  }

  function GroupClosed(g: Stmt, st: State): State
    requires |st.blocks| == |st.enclosed| >= 2 && g.id in st.maxIndex
  {
    var n := |st.blocks| - 1;
    var max := Max(st.maxIndex[g.id], st.enclosed[n]);
    st.(maxIndex := st.maxIndex[g.id := max], blocks := st.blocks[..n],
        enclosed := st.enclosed[..n][n - 1 := Max(st.enclosed[n - 1], max)])
  }

  lemma {:induction false} GroupOpens(g: Stmt, st: State)
    requires GroupReady(g, st)
    ensures SeqReady(g.stmts, GroupOpened(g, st)) && TopId(GroupOpened(g, st)) == TopId(st)
    ensures Top(GroupOpened(g, st)) == Top(st).(enclosed := 0)
  {
  }

  lemma {:induction false} GroupStep(g: Stmt, st: State, inner: State, ret: nat)
    requires GroupReady(g, st) && SeqProcessed(g.stmts, GroupOpened(g, st), inner, ret)
    ensures |inner.blocks| == |inner.enclosed| == |st.blocks| + 1 && g.id in inner.maxIndex
    ensures inner.maxIndex[g.id] == Top(st).next
    ensures GroupProcessed(g, st, GroupClosed(g, inner), ret)
  {
    GroupOpens(g, st);
    var opened_ := GroupOpened(g, st);
    assert inner.enclosed[..|inner.enclosed| - 1] == st.enclosed;
    assert opened_.blocks[..|st.blocks|] == st.blocks;
  }

  lemma {:induction false} GroupsNextReady(gs: seq<Stmt>, k: nat, st: State, cur: State, ret: nat)
    requires k < |gs| && GroupsReady(gs, st) && GroupsProcessed(gs[..k], st, cur, ret)
    ensures GroupReady(gs[k], cur)
  {
    IdsOfPrefix(gs, k);
    assert Fresh(Ids(gs[k]), st);
    StillFresh(IdsOf(gs[..k]), Ids(gs[k]), st, cur);
    assert TopId(st) in st.blocks;
  }

  lemma {:induction false} GroupsStep(gs: seq<Stmt>, k: nat, st: State, cur: State, next: State, ret: nat)
    requires k < |gs| && GroupsReady(gs, st)
    requires GroupsProcessed(gs[..k], st, cur, ret) && GroupProcessed(gs[k], cur, next, ret)
    ensures GroupsProcessed(gs[..k + 1], st, next, ret)
  {
    IdsOfPrefix(gs, k);
    KeepsBoth(IdsOf(gs[..k]), Ids(gs[k]), st, cur, next);
    FitsGroupsExtends(gs[..k], TopId(st), Top(st), LayoutOf(cur), LayoutOf(next), ret);
    GroupsGrow(gs, k, TopId(st), Top(st), LayoutOf(next), ret);
  }

  function SwitchOpened(s: Stmt, st: State): State
    requires s.Switch? && Opened(st)
  {
    Pushed(s.blockId, st.(maxIndex := st.maxIndex[s.blockId := Top(st).next]))
  }

  lemma {:induction false} SwitchOpens(s: Stmt, st: State)
    requires s.Switch? && Ready(s, st)
    ensures Opened(st) && Opened(SwitchOpened(s, st)) && GroupsReady(s.groups, SwitchOpened(s, st))
    ensures Top(SwitchOpened(s, st)) == Scope(Top(st).next, None, 0) && TopId(SwitchOpened(s, st)) == s.blockId
  {
  }

  lemma {:induction false} SwitchCloses(s: Stmt, st: State, inner: State)
    requires s.Switch? && Ready(s, st) && Keeps(IdsOf(s.groups), SwitchOpened(s, st), inner)
    ensures Opened(inner) && Keeps(Ids(s), st, Closed(inner)) && LayoutOf(Closed(inner)) == LayoutOf(inner)
    ensures Top(Closed(inner)) == Enclose(Top(st), Max(Top(inner).next, Top(inner).enclosed))
  {
    hide Shape, Unique;
    assert inner.enclosed[..|inner.enclosed| - 1] == st.enclosed;
    assert SwitchOpened(s, st).blocks[..|st.blocks|] == st.blocks;
    assert TopId(st) in st.blocks && TopId(st) != s.blockId;
  }

  lemma {:induction false} SwitchStep(s: Stmt, st: State, inner: State, ret: nat)
    requires s.Switch? && Ready(s, st) && GroupsProcessed(s.groups, SwitchOpened(s, st), inner, ret)
    ensures Opened(inner) && Processed(s, st, Closed(inner), ret)
  {
    hide Ready, Keeps, FitsGroups, NextGroups, Opened, Closed, SwitchOpened, Top, TopId;
    SwitchOpens(s, st);
    SwitchCloses(s, st, inner);
  }

  // ---- Synchronized and try

  lemma {:induction false} SyncStep(s: Stmt, st: State, mid: State)
    requires s.Sync? && Ready(s, st) && Keeps({}, st, mid)
    ensures BlockReady(s.body, mid) && Opened(mid)
  {
    StillReady(s.body, {}, st, mid);
  }

  lemma {:induction false} SyncEnd(s: Stmt, st: State, mid: State, end: State, ret: nat)
    requires s.Sync? && Keeps({}, st, mid) && Top(mid) == Reserve(Top(st), ret)
    requires BlockProcessed(s.body, Top(mid).next, mid, end, ret)
    ensures Processed(s, st, end, ret)
  {
    hide FitsBlock, BlockMax, Shape, Unique;
    KeepsBoth({}, Ids(s.body), st, mid, end);
  }

  ghost predicate FinallyProcessed(s: Stmt, start: nat, st: State, cur: State, ret: nat)
    requires s.Try?
  {
    && Keeps(if s.fin.Some? then Ids(s.fin.value) else {}, st, cur)
    && start == TryStart(s, Top(st), ret)
    && if s.fin.None? then Top(cur) == Top(st) else
         && Top(cur) == Enclose(Reserve(Top(st), ret), start)
         && HelperAt(LayoutOf(cur), TopId(st), Reserve(Top(st), ret).helper.value)
         && FitsBlock(s.fin.value, Reserve(Top(st), ret).next, LayoutOf(cur), ret)
  }

  lemma {:induction false} FinallyStep(s: Stmt, st: State, mid: State)
    requires s.Try? && s.fin.Some? && Ready(s, st) && Keeps({}, st, mid)
    ensures BlockReady(s.fin.value, mid) && Opened(mid)
  {
    StillReady(s.fin.value, {}, st, mid);
  }

  lemma {:induction false} FinallyEnd(s: Stmt, st: State, mid: State, end: State, ret: nat)
    requires s.Try? && s.fin.Some? && Keeps({}, st, mid) && Top(mid) == Reserve(Top(st), ret)
    requires BlockProcessed(s.fin.value, Top(mid).next, mid, end, ret)
    ensures s.fin.value.id in end.maxIndex && FinallyProcessed(s, end.maxIndex[s.fin.value.id], st, end, ret)
  {
    KeepsBoth({}, Ids(s.fin.value), st, mid, end);
    assert {} + Ids(s.fin.value) == Ids(s.fin.value);
  }

  lemma {:induction false} CatchesPrefix(cs: seq<Catch>, k: nat)
    requires k < |cs| && UniqueCatches(cs)
    ensures IdsOfCatches(cs[..k + 1]) == IdsOfCatches(cs[..k]) + Ids(cs[k].body)
    ensures IdsOfCatches(cs[..k]) !! Ids(cs[k].body) && IdsOfCatches(cs[..k + 1]) <= IdsOfCatches(cs)
    ensures Unique(cs[k].body)
    decreases k
  {
    if k == 0 {
      assert cs[..1] == [cs[0]] && cs[..1][1..] == [];
    } else {
      assert cs[..k][1..] == cs[1..][..k - 1] && cs[..k + 1][1..] == cs[1..][..k];
      CatchesPrefix(cs[1..], k - 1);
    }
  }

  ghost predicate CatchesFresh(cs: seq<Catch>, st: State) {
    && Opened(st) && UniqueCatches(cs) && Fresh(IdsOfCatches(cs), st)
    && forall i :: 0 <= i < |cs| ==> IsPlain(cs[i].body) && Shape(cs[i].body)
  }

  function BodyIds(cs: seq<Catch>): set<Id> {
    set c | c in cs :: c.body.id
  }

  ghost predicate ParametersDeclared(cs: seq<Catch>, start: nat, st: State, cur: State) {
    && Keeps(IdsOfCatches(cs), st, cur) && Top(cur) == Top(st) && cur.helper == st.helper
    && ParametersSet(cs, start, st, cur)
  }

  ghost predicate ParametersSet(cs: seq<Catch>, start: nat, st: State, cur: State) {
    && (forall v :: v in cur.vars && v !in st.vars ==> v.CatchParam? && v.id in BodyIds(cs))
    && forall i :: 0 <= i < |cs| ==> ParameterSet(cs[i], start, cur)
  }

  ghost predicate ParameterSet(c: Catch, start: nat, st: State) {
    && VarAt(LayoutOf(st), CatchParam(c.body.id), start)
    && c.body.id in st.maxIndex && st.maxIndex[c.body.id] == start + 1
  }

  function WithParameter(c: Catch, start: nat, st: State): State {
    st.(vars := st.vars[CatchParam(c.body.id) := start], maxIndex := st.maxIndex[c.body.id := start + 1])
  }

  lemma {:induction false} ParametersStep(cs: seq<Catch>, k: nat, start: nat, st: State, cur: State)
    requires k < |cs| && CatchesFresh(cs, st) && ParametersDeclared(cs[..k], start, st, cur)
    ensures ParametersDeclared(cs[..k + 1], start, st, WithParameter(cs[k], start, cur))
  {
    var ids := IdsOfCatches(cs[..k]);
    var next := WithParameter(cs[k], start, cur);
    CatchesPrefix(cs, k);
    StillFresh(ids, Ids(cs[k].body), st, cur);
    ParameterKeeps(cs[k], start, cur);
    KeepsBoth(ids, Ids(cs[k].body), st, cur, next);
    ParametersSetStep(cs, k, start, st, cur);
    hide Keeps, Fresh, Top, ParametersSet;
  }

  lemma {:induction false} ParametersSetStep(cs: seq<Catch>, k: nat, start: nat, st: State, cur: State)
    requires k < |cs| && UniqueCatches(cs) && ParametersSet(cs[..k], start, st, cur)
    ensures ParametersSet(cs[..k + 1], start, st, WithParameter(cs[k], start, cur))
  {
    hide UniqueCatches, BodyIds;
    BodyIdsGrow(cs, k);
    var next := WithParameter(cs[k], start, cur);
    assert forall v :: v in next.vars && v !in st.vars ==> v.CatchParam? && v.id in BodyIds(cs[..k + 1]);
    forall i | 0 <= i < k ensures ParameterSet(cs[i], start, next) {
      EarlierParameter(cs, i, k, start, st, cur);
    }
    assert ParameterSet(cs[k], start, next);
    hide ParameterSet, WithParameter;
  }

  lemma {:induction false} EarlierParameter(cs: seq<Catch>, i: nat, k: nat, start: nat, st: State, cur: State)
    requires i < k < |cs| && UniqueCatches(cs) && ParametersSet(cs[..k], start, st, cur)
    ensures ParameterSet(cs[i], start, WithParameter(cs[k], start, cur))
  {
    assert cs[..k][i] == cs[i];
    ClausesApart(cs, i, k);
  }

  lemma {:induction false} BodyIdsGrow(cs: seq<Catch>, k: nat)
    requires k < |cs|
    ensures BodyIds(cs[..k + 1]) == BodyIds(cs[..k]) + {cs[k].body.id}
  {
    assert cs[..k + 1] == cs[..k] + [cs[k]];
  }

  lemma {:induction false} ParameterKeeps(c: Catch, start: nat, st: State)
    requires Opened(st) && Fresh(Ids(c.body), st)
    ensures Keeps(Ids(c.body), st, WithParameter(c, start, st)) && Top(WithParameter(c, start, st)) == Top(st)
  {
    assert TopId(st) in st.blocks;
  }

  ghost predicate ClausesReady(cs: seq<Catch>, start: nat, st: State) {
    && Opened(st) && UniqueCatches(cs)
    && forall i :: 0 <= i < |cs| ==> BlockReady(cs[i].body, st) && ParameterSet(cs[i], start, st)
  }

  ghost predicate ClausesProcessed(cs: seq<Catch>, start: nat, a: State, b: State, ret: nat) {
    && Keeps(IdsOfCatches(cs), a, b)
    && Top(b) == NextCatches(cs, start, Top(a), ret)
    && FitsCatches(cs, start, LayoutOf(b), ret)
  }

  lemma {:induction false} ClausesNextReady(cs: seq<Catch>, k: nat, start: nat, st: State, cur: State, ret: nat)
    requires k < |cs| && ClausesReady(cs, start, st) && ClausesProcessed(cs[..k], start, st, cur, ret)
    ensures BlockReady(cs[k].body, cur) && Opened(cur)
    ensures ParameterSet(cs[k], start, cur)
  {
    CatchesPrefix(cs, k);
    StillReady(cs[k].body, IdsOfCatches(cs[..k]), st, cur);
  }

  lemma {:induction false} ClausesStep(cs: seq<Catch>, k: nat, start: nat, st: State, cur: State, next: State, ret: nat)
    requires k < |cs| && ClausesReady(cs, start, st) && ClausesProcessed(cs[..k], start, st, cur, ret)
    requires BlockProcessed(cs[k].body, start + 1, cur, next, ret)
    requires ParameterSet(cs[k], start, cur)
    ensures ClausesProcessed(cs[..k + 1], start, st, next, ret)
  {
    CatchesPrefix(cs, k);
    KeepsBoth(IdsOfCatches(cs[..k]), Ids(cs[k].body), st, cur, next);
    FitsCatchesExtends(cs[..k], start, LayoutOf(cur), LayoutOf(next), ret);
    CatchesGrow(cs, k, start, Top(st), LayoutOf(next), ret);
  }

  lemma {:induction false} ClausesApart(cs: seq<Catch>, i: nat, j: nat)
    requires UniqueCatches(cs) && i < j < |cs|
    ensures Ids(cs[i].body) !! Ids(cs[j].body)
  {
    CatchesPrefix(cs, j);
    InCatches(cs[..j], i);
  }

  lemma {:induction false} InCatches(cs: seq<Catch>, i: nat)
    requires i < |cs|
    ensures Ids(cs[i].body) <= IdsOfCatches(cs)
  {
    if i > 0 { InCatches(cs[1..], i - 1); }
  }

  lemma {:induction false} ParametersReady(cs: seq<Catch>, start: nat, st: State, cur: State)
    requires CatchesFresh(cs, st) && ParametersDeclared(cs, start, st, cur)
    ensures ClausesReady(cs, start, cur)
  {
    forall i | 0 <= i < |cs| ensures BlockReady(cs[i].body, cur) {
      ParameterReady(cs, start, i, st, cur);
    }
  }

  lemma {:induction false} ParameterReady(cs: seq<Catch>, start: nat, i: nat, st: State, cur: State)
    requires CatchesFresh(cs, st) && ParametersDeclared(cs, start, st, cur) && i < |cs|
    ensures BlockReady(cs[i].body, cur)
  {
    CatchesPrefix(cs, i);
    InCatches(cs, i);
    forall v | v in cur.vars && v !in st.vars ensures v.id !in IdsOf(cs[i].body.stmts) {
      assert v.id in BodyIds(cs);
      var c :| c in cs && v.id == c.body.id;
      var j :| 0 <= j < |cs| && cs[j] == c;
      if j < i { ClausesApart(cs, j, i); }
      if i < j { ClausesApart(cs, i, j); }
    }
  }

  function WithStart(b: Stmt, start: nat, st: State): State {
    st.(maxIndex := st.maxIndex[b.id := start])
  }

  function FinallyIds(s: Stmt): set<Id>
    requires s.Try?
  {
    if s.fin.Some? then Ids(s.fin.value) else {}
  }

  lemma {:induction false} TryParametersReady(s: Stmt, start: nat, st: State, st1: State, ret: nat)
    requires s.Try? && Ready(s, st) && FinallyProcessed(s, start, st, st1, ret)
    ensures CatchesFresh(s.catches, st1)
  {
    StillFresh(FinallyIds(s), IdsOfCatches(s.catches), st, st1);
  }

  lemma {:induction false} TryApart(s: Stmt, st: State)
    requires s.Try? && Ready(s, st)
    ensures Ids(s.body) !! IdsOfCatches(s.catches) && Ids(s.body) !! FinallyIds(s)
            && IdsOfCatches(s.catches) !! FinallyIds(s)
  {
    hide Ids, IdsOfCatches;
  }

  lemma {:induction false} TryBodyReady(s: Stmt, st: State)
    requires s.Try? && Ready(s, st)
    ensures BlockReady(s.body, st)
  {
    assert s.body.id in Ids(s.body);
  }

  lemma {:induction false} TryBlockReady(s: Stmt, start: nat, st: State, st1: State, st2: State, ret: nat)
    requires s.Try? && Ready(s, st) && FinallyProcessed(s, start, st, st1, ret)
    requires ParametersDeclared(s.catches, start, st1, st2)
    ensures var body := WithStart(s.body, start, st2);
            BlockReady(s.body, body) && Opened(body) && Keeps({s.body.id}, st2, body) && Top(body) == Top(st2)
  {
    hide Ready, Ids, IdsOfCatches, Fits, FitsBlock;
    TryApart(s, st);
    TryBodyReady(s, st);
    StillReady(s.body, FinallyIds(s), st, st1);
    StillReady(s.body, IdsOfCatches(s.catches), st1, st2);
    assert TopId(st2) in st2.blocks;
  }

  /** The try block, from where the parameters are declared. */
  lemma {:induction false} TryBlockKeeps(s: Stmt, start: nat, st2: State, st3: State, ret: nat)
    requires s.Try? && BlockProcessed(s.body, start, WithStart(s.body, start, st2), st3, ret)
    requires Keeps({s.body.id}, st2, WithStart(s.body, start, st2))
    ensures Keeps(Ids(s.body), st2, st3)
  {
    KeepsBoth({s.body.id}, Ids(s.body), st2, WithStart(s.body, start, st2), st3);
    assert {s.body.id} + Ids(s.body) == Ids(s.body);
  }

  lemma {:induction false} ClausesStillReady(cs: seq<Catch>, start: nat, ids: set<Id>, a: State, b: State)
    requires ClausesReady(cs, start, a) && Keeps(ids, a, b) && ids !! IdsOfCatches(cs)
    ensures ClausesReady(cs, start, b)
  {
    forall i | 0 <= i < |cs| ensures BlockReady(cs[i].body, b) && ParameterSet(cs[i], start, b) {
      InCatches(cs, i);
      StillReady(cs[i].body, ids, a, b);
    }
  }

  lemma {:induction false} TryClausesReady(s: Stmt, start: nat, st: State, st1: State, st2: State, st3: State, ret: nat)
    requires s.Try? && Ready(s, st) && FinallyProcessed(s, start, st, st1, ret)
    requires ParametersDeclared(s.catches, start, st1, st2)
    requires BlockProcessed(s.body, start, WithStart(s.body, start, st2), st3, ret)
    ensures ClausesReady(s.catches, start, st3)
  {
    hide *;
    TryApart(s, st);
    TryParametersReady(s, start, st, st1, ret);
    TryBlockReady(s, start, st, st1, st2, ret);
    ParametersReady(s.catches, start, st1, st2);
    TryBlockKeeps(s, start, st2, st3, ret);
    ClausesStillReady(s.catches, start, Ids(s.body), st2, st3);
  }

  lemma {:induction false} TryKeeps(s: Stmt, start: nat, st: State, st1: State, st2: State, st3: State, end: State,
                                    ret: nat)
    requires s.Try? && FinallyProcessed(s, start, st, st1, ret)
    requires Keeps(IdsOfCatches(s.catches), st1, st2) && Keeps(Ids(s.body), st2, st3)
    requires Keeps(IdsOfCatches(s.catches), st3, end)
    ensures Keeps(Ids(s), st, end) && Opened(st)
  {
    hide Keeps;
    KeepsBoth(FinallyIds(s), IdsOfCatches(s.catches), st, st1, st2);
    KeepsBoth(FinallyIds(s) + IdsOfCatches(s.catches), Ids(s.body), st, st2, st3);
    KeepsBoth(FinallyIds(s) + IdsOfCatches(s.catches) + Ids(s.body), IdsOfCatches(s.catches), st, st3, end);
    KeepsMore(FinallyIds(s) + IdsOfCatches(s.catches) + Ids(s.body) + IdsOfCatches(s.catches), Ids(s), st, end);
  }

  lemma {:induction false} KeepsMore(ids: set<Id>, more: set<Id>, a: State, b: State)
    requires Keeps(ids, a, b) && ids <= more
    ensures Keeps(more, a, b) && Opened(a)
  {
  }

  lemma {:induction false} TryFits(s: Stmt, start: nat, st: State, st1: State, st3: State, end: State, ret: nat)
    requires s.Try? && Opened(st) && FinallyProcessed(s, start, st, st1, ret)
    requires FitsBlock(s.body, start, LayoutOf(st3), ret) && FitsCatches(s.catches, start, LayoutOf(end), ret)
    requires Extends(LayoutOf(st1), LayoutOf(st3)) && Extends(LayoutOf(st3), LayoutOf(end))
    ensures Fits(s, TopId(st), Top(st), LayoutOf(end), ret)
  {
    hide FitsBlock, FitsCatches, Keeps;
    FitsBlockExtends(s.body, start, LayoutOf(st3), LayoutOf(end), ret);
    if s.fin.Some? {
      FitsBlockExtends(s.fin.value, Reserve(Top(st), ret).next, LayoutOf(st1), LayoutOf(end), ret);
    }
  }

  lemma {:induction false} TryEnd(s: Stmt, start: nat, st: State, st1: State, st2: State, st3: State, end: State,
                                  ret: nat)
    requires s.Try? && Ready(s, st) && FinallyProcessed(s, start, st, st1, ret)
    requires ParametersDeclared(s.catches, start, st1, st2)
    requires BlockProcessed(s.body, start, WithStart(s.body, start, st2), st3, ret)
    requires ClausesProcessed(s.catches, start, st3, end, ret)
    ensures Processed(s, st, end, ret)
  {
    hide Ready, Fits, FitsBlock, FitsCatches, BlockReady, BlockMax, NextCatches, Extends, Opened, Keeps, Ids,
      IdsOfCatches, FinallyIds;
    TryBlockReady(s, start, st, st1, st2, ret);
    TryBlockKeeps(s, start, st2, st3, ret);
    TryKeeps(s, start, st, st1, st2, st3, end, ret);
    TryExtends(st1, st2, st3, end, s);
    TryFits(s, start, st, st1, st3, end, ret);
  }

  lemma {:induction false} TryExtends(st1: State, st2: State, st3: State, end: State, s: Stmt)
    requires s.Try? && Keeps(IdsOfCatches(s.catches), st1, st2) && Keeps(Ids(s.body), st2, st3)
    requires Keeps(IdsOfCatches(s.catches), st3, end)
    ensures Extends(LayoutOf(st1), LayoutOf(st3)) && Extends(LayoutOf(st3), LayoutOf(end))
  {
  }

  class Allocator {
    /** Slots of a result of the method: none, one or two. */
    const ret: nat

    // max_variable_index and helper_variable_index of the blocks, the indices of the variables, the
    // stack of open blocks, and beside it the highest index enclosed in each.
    var maxIndex: map<Id, nat>
    var helper: map<Id, nat>
    var vars: map<Var, nat>
    var blocks: seq<Id>
    var enclosed: seq<nat>

    constructor (ret: nat)
      ensures this.ret == ret && Snap() == State(map[], map[], map[], [], [])
    {
      this.ret := ret;
      maxIndex, helper, vars, blocks, enclosed := map[], map[], map[], [], [];
    }

    ghost function Snap(): State
      reads this
    {
      State(maxIndex, helper, vars, blocks, enclosed)
    }

    // ---- Blocks

    /** Opens a block whose first free slot has been set. */
    method Push(id: Id)
      requires id in maxIndex
      modifies this`blocks, this`enclosed
      ensures blocks == old(blocks) + [id] && enclosed == old(enclosed) + [0]
    {
      blocks, enclosed := blocks + [id], enclosed + [0];
    }

    /** Takes the highest enclosed index into the block, closes it, and tells the enclosing block. */
    method Pop()
      requires Opened(Snap())
      modifies this`maxIndex, this`blocks, this`enclosed
      ensures Snap() == Closed(old(Snap()))
    {
      var n := |blocks| - 1;
      var id := blocks[n];
      if maxIndex[id] < enclosed[n] {
        maxIndex := maxIndex[id := enclosed[n]];
      }
      blocks, enclosed := blocks[..n], enclosed[..n];
      if n > 0 && enclosed[n - 1] < maxIndex[id] {
        enclosed := enclosed[n - 1 := maxIndex[id]];
      }
    }

    method ProcessInOrder(ss: seq<Stmt>)
      requires SeqReady(ss, Snap())
      modifies this
      ensures SeqProcessed(ss, old(Snap()), Snap(), ret)
      decreases ss, 0
    {
      ghost var st := Snap();
      assert ss[..0] == [];
      assert SeqProcessed(ss[..0], st, st, ret);
      hide SeqProcessed;
      hide SeqReady;
      for i := 0 to |ss|
        invariant SeqProcessed(ss[..i], st, Snap(), ret)
      {
        ghost var cur := Snap();
        SeqNextReady(ss, i, st, cur, ret);
        ProcessStatement(ss[i]);
        SeqStep(ss, i, st, cur, Snap(), ret);
      }
      assert ss[..|ss|] == ss;
    }

    /** A block whose first free slot has been set. */
    method EnterBlock(b: Stmt)
      requires BlockReady(b, Snap()) && b.id in maxIndex && Opened(Snap())
      modifies this
      ensures BlockProcessed(b, old(maxIndex)[b.id], old(Snap()), Snap(), ret)
      decreases b, 0
    {
      ghost var st := Snap();
      PushedReady(b, st);
      Push(b.id);
      assert Snap() == Pushed(b.id, st);
      ProcessInOrder(b.stmts);
      BlockStep(b, st, Snap(), ret);
      Pop();
    }

    /** A nested block starts at the next free slot of the block around it. */
    method ProcessBlock(b: Stmt)
      requires BlockReady(b, Snap()) && Opened(Snap())
      modifies this
      ensures BlockProcessed(b, Top(old(Snap())).next, old(Snap()), Snap(), ret)
      decreases b, 1
    {
      ghost var st := Snap();
      assert TopId(st) in st.blocks && TopId(st) != b.id;
      maxIndex := maxIndex[b.id := maxIndex[blocks[|blocks| - 1]]];
      EnterBlock(b);
    }

    method ProcessStatement(s: Stmt)
      requires Ready(s, Snap())
      modifies this
      ensures Processed(s, old(Snap()), Snap(), ret)
      decreases s, 9
    {
      hide Ready, Processed, BlockReady, BlockProcessed;
      ghost var st := Snap();
      StatementReady(s, st);
      match s
      case Local(_, _, _) => ProcessLocalVariable(s);
      case Block(_, _, _) =>
        ProcessBlock(s);
        PlainBlockEnd(s, s, st, Snap(), ret);
      case If(_, _, _, _) => ProcessIfStatement(s);
      case While(_, _, b) =>
        ProcessBlock(b);
        PlainBlockEnd(s, b, st, Snap(), ret);
      case Do(_, b, _) =>
        ProcessBlock(b);
        PlainBlockEnd(s, b, st, Snap(), ret);
      case For(_, _, _, _, _) => ProcessForStatement(s);
      case Foreach(_, _, _, _, _) => ProcessForeachStatement(s);
      case Switch(_, _, _, _, _) => ProcessSwitchStatement(s);
      case Sync(_, _, _) => ProcessSynchronizedStatement(s);
      case Try(_, _, _, _) => ProcessTryStatement(s);
      case _ => NothingToDo(s, st, ret);
    }

    /** The next free slot of the top block, and the one after it if the type is long or double. */
    method AddVariable(v: Var, wide: bool)
      requires Opened(Snap())
      modifies this`vars, this`maxIndex
      ensures Snap() == WithVariable(v, wide, old(Snap()))
    {
      var top := blocks[|blocks| - 1];
      vars := vars[v := maxIndex[top]];
      maxIndex := maxIndex[top := maxIndex[top] + 1];
      if wide {
        maxIndex := maxIndex[top := maxIndex[top] + 1];
      }
    }

    method ProcessLocalVariable(s: Stmt)
      requires s.Local? && Ready(s, Snap())
      modifies this`vars, this`maxIndex
      ensures Processed(s, old(Snap()), Snap(), ret)
    {
      ghost var st := Snap();
      assert s.wide[..0] == [];
      assert LocalsAdded(s, 0, st, Snap());
      for k := 0 to |s.wide|
        invariant LocalsAdded(s, k, st, Snap())
      {
        LocalsStep(s, k, st, Snap());
        AddVariable(LocalVar(s.id, k), s.wide[k]);
      }
      assert s.wide[..|s.wide|] == s.wide;
    }

    method ProcessIfStatement(s: Stmt)
      requires s.If? && Ready(s, Snap())
      modifies this
      ensures Processed(s, old(Snap()), Snap(), ret)
      decreases s, 8
    {
      hide Ready, Processed, BlockReady, BlockProcessed, Opened;
      ghost var st := Snap();
      IfOpens(s, st);
      ProcessBlock(s.thn);
      ghost var mid := Snap();
      if s.els.Some? {
        ElseOpens(s, st, mid, ret);
        ProcessBlock(s.els.value);
      }
      IfEnd(s, st, mid, Snap(), ret);
    }

    method ProcessForStatement(s: Stmt)
      requires s.For? && Ready(s, Snap())
      modifies this
      ensures Processed(s, old(Snap()), Snap(), ret)
      decreases s, 8
    {
      ghost var st := Snap();
      ProcessInOrder(s.init);
      ghost var mid := Snap();
      StillFresh(IdsOf(s.init), Ids(s.body), st, mid);
      ProcessBlock(s.body);
      KeepsBoth(IdsOf(s.init), Ids(s.body), st, mid, Snap());
      FitsSeqExtends(s.init, TopId(st), Top(st), LayoutOf(mid), LayoutOf(Snap()), ret);
    }

    method SetHelper(size: nat)
      requires Opened(Snap())
      modifies this`helper, this`maxIndex
      ensures Snap() == WithHelper(size, old(Snap()))
    {
      var top := blocks[|blocks| - 1];
      helper := helper[top := maxIndex[top]];
      maxIndex := maxIndex[top := maxIndex[top] + size];
    }

    /** The variable, and slots for the array, its length and a counter, or for the iterator. */
    method DeclareForeach(s: Stmt)
      requires s.Foreach? && Ready(s, Snap())
      modifies this
      ensures ForeachDeclared(s, old(Snap()), Snap())
    {
      hide Ready, WithVariable, WithHelper, ForeachDeclared, Opened;
      ForeachPlan(s, Snap());
      AddVariable(ForeachVar(s.id), s.wideIndex);
      SetHelper(ForeachHelperSize(s.isArray));
    }

    method ProcessForeachStatement(s: Stmt)
      requires s.Foreach? && Ready(s, Snap())
      modifies this
      ensures Processed(s, old(Snap()), Snap(), ret)
      decreases s, 8
    {
      hide Keeps, Ready;
      ghost var st := Snap();
      DeclareForeach(s);
      ghost var mid := Snap();
      ForeachStep(s, st, mid);
      ProcessBlock(s.body);
      ForeachEnd(s, st, mid, Snap(), ret);
    }

    method PopGroup(g: Stmt)
      requires |blocks| == |enclosed| >= 2 && g.id in maxIndex
      modifies this`maxIndex, this`blocks, this`enclosed
      ensures Snap() == GroupClosed(g, old(Snap()))
    {
      var n := |blocks| - 1;
      if maxIndex[g.id] < enclosed[n] {
        maxIndex := maxIndex[g.id := enclosed[n]];
      }
      blocks, enclosed := blocks[..n], enclosed[..n];
      if enclosed[n - 1] < maxIndex[g.id] {
        enclosed := enclosed[n - 1 := maxIndex[g.id]];
      }
    }

    /** A switch group shares the block of the switch on the stack, so that break finds it, but keeps an
        index of its own. */
    method ProcessGroup(g: Stmt)
      requires GroupReady(g, Snap())
      modifies this
      ensures GroupProcessed(g, old(Snap()), Snap(), ret)
      decreases g, 1
    {
      ghost var st := Snap();
      var top := blocks[|blocks| - 1];
      maxIndex := maxIndex[g.id := maxIndex[top]];
      Push(top);
      GroupOpens(g, st);
      assert Snap() == GroupOpened(g, st);
      hide GroupReady, SeqReady, Fresh, Keeps;
      ProcessInOrder(g.stmts);
      GroupStep(g, st, Snap(), ret);
      PopGroup(g);
    }

    method ProcessGroups(gs: seq<Stmt>)
      requires GroupsReady(gs, Snap())
      modifies this
      ensures GroupsProcessed(gs, old(Snap()), Snap(), ret)
      decreases gs, 0
    {
      ghost var st := Snap();
      assert gs[..0] == [];
      assert GroupsProcessed(gs[..0], st, st, ret);
      hide GroupsProcessed, GroupsReady, GroupReady, GroupProcessed;
      for i := 0 to |gs|
        invariant GroupsProcessed(gs[..i], st, Snap(), ret)
      {
        ghost var cur := Snap();
        GroupsNextReady(gs, i, st, cur, ret);
        ProcessGroup(gs[i]);
        GroupsStep(gs, i, st, cur, Snap(), ret);
      }
      assert gs[..|gs|] == gs;
    }

    method ProcessSwitchStatement(s: Stmt)
      requires s.Switch? && Ready(s, Snap())
      modifies this
      ensures Processed(s, old(Snap()), Snap(), ret)
      decreases s, 8
    {
      ghost var st := Snap();
      maxIndex := maxIndex[s.blockId := maxIndex[blocks[|blocks| - 1]]];
      Push(s.blockId);
      SwitchOpens(s, st);
      assert Snap() == SwitchOpened(s, st);
      hide Ready, GroupsReady, Keeps;
      ProcessGroups(s.groups);
      SwitchStep(s, st, Snap(), ret);
      Pop();
    }

    method ReserveHelper()
      requires Opened(Snap())
      modifies this`helper, this`maxIndex
      ensures Keeps({}, old(Snap()), Snap()) && Top(Snap()) == Reserve(Top(old(Snap())), ret)
    {
      if blocks[|blocks| - 1] !in helper {
        HelperKeeps(HelperSize(ret), Snap());
        SetHelper(HelperSize(ret));
      }
    }

    method ProcessSynchronizedStatement(s: Stmt)
      requires s.Sync? && Ready(s, Snap())
      modifies this
      ensures Processed(s, old(Snap()), Snap(), ret)
      decreases s, 8
    {
      ghost var st := Snap();
      ReserveHelper();
      ghost var mid := Snap();
      SyncStep(s, st, mid);
      hide Keeps, Ready;
      ProcessBlock(s.body);
      SyncEnd(s, st, mid, Snap(), ret);
    }

    /** A finally clause is processed first; the try block and the clauses start past its slots. */
    method ProcessFinally(s: Stmt) returns (start: nat)
      requires s.Try? && Ready(s, Snap())
      modifies this
      ensures FinallyProcessed(s, start, old(Snap()), Snap(), ret)
      decreases s, 2
    {
      ghost var st := Snap();
      start := maxIndex[blocks[|blocks| - 1]];
      if s.fin.Some? {
        ReserveHelper();
        ghost var mid := Snap();
        FinallyStep(s, st, mid);
        hide Keeps, Ready;
        ProcessBlock(s.fin.value);
        FinallyEnd(s, st, mid, Snap(), ret);
        start := maxIndex[s.fin.value.id];
      }
    }

    method DeclareParameter(c: Catch, start: nat)
      modifies this`maxIndex, this`vars
      ensures Snap() == WithParameter(c, start, old(Snap()))
    {
      maxIndex := maxIndex[c.body.id := start];
      vars := vars[CatchParam(c.body.id) := maxIndex[c.body.id]];
      maxIndex := maxIndex[c.body.id := maxIndex[c.body.id] + 1];
    }

    /** The first loop over the clauses: their parameters. */
    method DeclareParameters(cs: seq<Catch>, start: nat)
      requires CatchesFresh(cs, Snap())
      modifies this`maxIndex, this`vars
      ensures ParametersDeclared(cs, start, old(Snap()), Snap())
    {
      ghost var st := Snap();
      assert cs[..0] == [];
      assert ParametersDeclared(cs[..0], start, st, Snap());
      hide ParametersDeclared, CatchesFresh, WithParameter;
      for i := 0 to |cs|
        invariant ParametersDeclared(cs[..i], start, st, Snap())
      {
        ParametersStep(cs, i, start, st, Snap());
        DeclareParameter(cs[i], start);
      }
      assert cs[..|cs|] == cs;
    }

    /** The second loop over the clauses: their blocks. */
    method ProcessClauses(cs: seq<Catch>, start: nat)
      requires ClausesReady(cs, start, Snap())
      modifies this
      ensures ClausesProcessed(cs, start, old(Snap()), Snap(), ret)
      decreases cs, 0
    {
      ghost var st := Snap();
      assert cs[..0] == [];
      assert ClausesProcessed(cs[..0], start, st, st, ret);
      hide ClausesProcessed, ClausesReady;
      for i := 0 to |cs|
        invariant ClausesProcessed(cs[..i], start, st, Snap(), ret)
      {
        ghost var cur := Snap();
        ClausesNextReady(cs, i, start, st, cur, ret);
        assert cs[i].body < cs[i];
        EnterBlock(cs[i].body);
        ClausesStep(cs, i, start, st, cur, Snap(), ret);
      }
      assert cs[..|cs|] == cs;
    }

    method ProcessTryStatement(s: Stmt)
      requires s.Try? && Ready(s, Snap())
      modifies this
      ensures Processed(s, old(Snap()), Snap(), ret)
      decreases s, 8
    {
      hide Ready, Keeps, BlockReady, CatchesFresh, FinallyProcessed, ParametersDeclared, ClausesReady, BlockProcessed;
      ghost var st := Snap();
      var start := ProcessFinally(s);
      ghost var st1 := Snap();
      TryParametersReady(s, start, st, st1, ret);
      DeclareParameters(s.catches, start);
      ghost var st2 := Snap();
      TryBlockReady(s, start, st, st1, st2, ret);
      maxIndex := maxIndex[s.body.id := start];
      assert Snap() == WithStart(s.body, start, st2);
      EnterBlock(s.body);
      ghost var st3 := Snap();
      TryClausesReady(s, start, st, st1, st2, st3, ret);
      ProcessClauses(s.catches, start);
      TryEnd(s, start, st, st1, st2, st3, Snap(), ret);
    }

    /** The body of a method whose parameters, and `this`, take the slots below `params`. */
    method ProcessMethodBody(body: Stmt, params: nat)
      requires Snap() == State(map[], map[], map[], [], []) && body.Block? && Shape(body) && Unique(body)
      modifies this
      ensures FitsBlock(body, params, LayoutOf(Snap()), ret)
      ensures body.id in maxIndex && maxIndex[body.id] == BlockMax(body, params, ret)
    {
      maxIndex := maxIndex[body.id := params];
      ghost var st := Snap();
      Push(body.id);
      assert Snap() == Pushed(body.id, st);
      ProcessInOrder(body.stmts);
      OutermostStep(body, st, Snap(), ret);
      Pop();
    }
  }

  /** The slots of a whole method body: nothing live at the same time shares one, parameters included, and
      `count`, the size of the frame, exceeds them all. */
  method AllocateSlots(body: Stmt, params: nat, ret: nat)
    returns (count: nat, vars: map<Var, nat>, helpers: map<Id, nat>)
    requires IsPlain(body) && Shape(body) && Unique(body)
    ensures FitsBlock(body, params, Layout(vars, helpers), ret) && count == BlockMax(body, params, ret)
    ensures SafeBlock(body, Span(0, params), Layout(vars, helpers), ret)
    ensures forall x :: x in Span(0, params) + UsedBlock(body, Layout(vars, helpers), ret) ==> x < count
    ensures forall x: nat :: params <= x < count ==>
              SlotCount.Taken(UsedBlock(body, Layout(vars, helpers), ret), SlotCount.SyncBlocks(body, body.id),
                              Layout(vars, helpers), ret, x)
    ensures SlotReuse.TightBlock(body, Span(0, params), {}, Layout(vars, helpers), ret)
  {
    var a := new Allocator(ret);
    a.ProcessMethodBody(body, params);
    count, vars, helpers := a.maxIndex[body.id], a.vars, a.helper;
    MethodSlotsSafe(body, params, Layout(vars, helpers), ret);
    SlotReuse.MethodSlotsTight(body, params, Layout(vars, helpers), ret);
    forall x: nat | params <= x < count
      ensures SlotCount.Taken(UsedBlock(body, Layout(vars, helpers), ret), SlotCount.SyncBlocks(body, body.id),
                              Layout(vars, helpers), ret, x)
    {
      SlotCount.CountTaken(body, params, Layout(vars, helpers), ret, x);
    }
  }
}
