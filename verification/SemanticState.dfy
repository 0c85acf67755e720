/** The state of the statement analysis as a value, and what it takes to process a statement in it. */
module SemanticState {
  import opened Classes
  import opened JavaAst
  import opened Options
  import opened Flow
  import opened FlowBounds

  /** Flags of the nodes and the stacks of the analysis; the last element of a stack is its top.
      `labels` has one symbol table per scope, `thrown` one exception set per try block. */
  datatype State = State(
    h: Hierarchy,
    ctx: Context,
    reachable: set<Id>,
    canComplete: set<Id>,
    labels: seq<map<string, LabelInfo>>,
    blocks: seq<Id>,
    breakables: seq<Target>,
    continuables: seq<Target>,
    abrupts: seq<nat>,
    tries: seq<Frame>,
    thrown: seq<set<Class>>,
    errors: set<Error>)

  function Top<T>(s: seq<T>): Option<T> {
    if s == [] then None else Some(s[|s| - 1])
  }

  function Pop<T>(s: seq<T>): seq<T> {
    if s == [] then [] else s[..|s| - 1]
  }

  /** What a lookup finds in a stack of symbol tables. */
  function Merge(tables: seq<map<string, LabelInfo>>): map<string, LabelInfo> {
    if tables == [] then map[] else Merge(Pop(tables)) + tables[|tables| - 1]
  }

  function EnvOf(st: State): Env {
    Env(st.h, st.ctx, |st.blocks|, if st.blocks == [] then 0 else st.blocks[|st.blocks| - 1],
        Merge(st.labels), Top(st.breakables), Top(st.continuables),
        if st.abrupts == [] then 0 else st.abrupts[|st.abrupts| - 1], st.tries)
  }

  lemma {:induction false} LevelOf(st: State)
    ensures EnvOf(st).level == |st.blocks|
  {
  }

  /** Exceptions go to the innermost set, if there is one. */
  function Record(thrown: seq<set<Class>>, exc: set<Class>): seq<set<Class>> {
    if thrown == [] then [] else Pop(thrown) + [thrown[|thrown| - 1] + exc]
  }

  /** The state after effects f: all stacks are as before. */
  function Apply(st: State, f: Fx): State {
    st.(reachable := st.reachable + f.reach, canComplete := st.canComplete + f.done,
        thrown := Record(st.thrown, f.exc), errors := st.errors + f.errs)
  }

  lemma {:induction false} RecordTwice(thrown: seq<set<Class>>, a: set<Class>, b: set<Class>)
    ensures Record(Record(thrown, a), b) == Record(thrown, a + b)
  {
    if thrown != [] {
      var t := thrown[|thrown| - 1];
      assert t + a + b == t + (a + b);
      assert Pop(Record(thrown, a)) == Pop(thrown);
    }
  }

  lemma {:induction false} ApplyThen(st: State, f: Fx, g: Fx)
    ensures Apply(Apply(st, f), g) == Apply(st, f.Then(g))
  {
    RecordTwice(st.thrown, f.exc, g.exc);
    assert st.reachable + f.reach + g.reach == st.reachable + (f.reach + g.reach);
    assert st.canComplete + f.done + g.done == st.canComplete + (f.done + g.done);
    assert st.errors + f.errs + g.errs == st.errors + (f.errs + g.errs);
  }

  lemma {:induction false} ThenAssociative(f: Fx, g: Fx, k: Fx)
    ensures f.Then(g).Then(k) == f.Then(g.Then(k))
  {
    assert f.reach + g.reach + k.reach == f.reach + (g.reach + k.reach);
    assert f.done + g.done + k.done == f.done + (g.done + k.done);
    assert f.exc + g.exc + k.exc == f.exc + (g.exc + k.exc);
    assert f.errs + g.errs + k.errs == f.errs + (g.errs + k.errs);
  }

  lemma {:induction false} ApplyNothing(st: State, completes: bool)
    ensures Apply(st, Fx({}, {}, {}, {}, completes)) == st
  {
    RecordNothing(st.thrown);
  }

  // ---- Fresh nodes

  /** The node of s itself that jumps may lead to: a block, or the body of a loop. */
  function Own(s: Stmt): set<Id> {
    if s.Block? then {s.id} else if IsLoop(s) then {s.body.id} else {}
  }

  /** s was not processed before, save that its own reachable flag is set; jumps from within s
      lead outside s, or to Own(s); the block around a loop is not marked yet. */
  ghost predicate Ready(s: Stmt, st: State) {
    && Shape(s) && Unique(s) && st.blocks != [] && EnvOf(st).top !in Ids(s)
    && Ids(s) !! st.canComplete && (Ids(s) - {s.id}) !! st.reachable
    && Outer(EnvOf(st)) * Ids(s) <= Own(s)
    && (IsLoop(s) ==> EnvOf(st).top !in st.canComplete)
  }

  /** The same for statements in sequence, none of them processed. */
  ghost predicate SeqReady(ss: seq<Stmt>, st: State) {
    && UniqueAll(ss) && st.blocks != [] && EnvOf(st).top !in IdsOf(ss)
    && IdsOf(ss) !! st.canComplete && IdsOf(ss) !! st.reachable
    && (forall i :: 0 <= i < |ss| ==> Shape(ss[i]) && Outer(EnvOf(st)) * Ids(ss[i]) <= Own(ss[i]))
    && (forall i :: 0 <= i < |ss| ==>
          if IsLoop(ss[i]) then |ss| == 1 && EnvOf(st).top !in st.canComplete
          else Outer(EnvOf(st)) !! Ids(ss[i]))
  }

  lemma {:induction false} SeqReadyParts(ss: seq<Stmt>, st: State)
    requires SeqReady(ss, st)
    ensures st.blocks != [] && EnvOf(st).top == st.blocks[|st.blocks| - 1] && EnvOf(st).level > 0
  {
  }

  lemma {:induction false} BlockReadyParts(s: Stmt, st: State)
    requires BlockReady(s, st)
    ensures s.Block?
  {
  }

  lemma {:induction false} LoopReadyParts(s: Stmt, st: State)
    requires IsLoop(s) && Ready(s, st)
    ensures st.blocks != [] && s.body.Block? && Shape(s.body) && EnvOf(st).top == st.blocks[|st.blocks| - 1]
    ensures EnvOf(st).level > 0
  {
  }

  lemma {:induction false} IdsMember(ss: seq<Stmt>, i: nat)
    requires i < |ss|
    ensures Ids(ss[i]) <= IdsOf(ss)
  {
    if i > 0 {
      IdsMember(ss[1..], i - 1);
    }
  }

  lemma {:induction false} IdsOfUnder(ss: seq<Stmt>, ids: set<Id>)
    requires forall i :: 0 <= i < |ss| ==> ids !! Ids(ss[i])
    ensures ids !! IdsOf(ss)
  {
    if ss != [] {
      forall i | 0 <= i < |ss[1..]| ensures ids !! Ids(ss[1..][i]) {
        assert ss[1..][i] == ss[i + 1];
      }
      IdsOfUnder(ss[1..], ids);
    }
  }

  /** The first statement is ready once its flag is set. */
  lemma {:induction false} FirstReady(ss: seq<Stmt>, st: State, r: bool)
    requires ss != [] && SeqReady(ss, st)
    ensures Ready(ss[0], st.(reachable := st.reachable + If1(r, ss[0].id)))
  {
    IdsMember(ss, 0);
    assert EnvOf(st.(reachable := st.reachable + If1(r, ss[0].id))) == EnvOf(st);
  }

  /** Processing the first statement leaves the others untouched. */
  lemma {:induction false} RestReady(ss: seq<Stmt>, st: State, f: Fx)
    requires ss != [] && SeqReady(ss, st)
    requires Bounded(f, Ids(ss[0]), EnvOf(st))
    ensures SeqReady(ss[1..], Apply(st, f))
  {
    assert EnvOf(Apply(st, f)) == EnvOf(st);
    forall i | 0 <= i < |ss[1..]| ensures Outer(EnvOf(st)) !! Ids(ss[1..][i]) {
      assert ss[1..][i] == ss[i + 1];
    }
    IdsOfUnder(ss[1..], Outer(EnvOf(st)));
  }

  lemma {:induction false} IfFlag(s: Stmt, r: bool, env: Env)
    requires s.If? && env.level > 0 && Shape(s) && Unique(s) && Outer(env) * Ids(s) <= Own(s)
    ensures s.id in Analyze(s, r, env).done <==> Analyze(s, r, env).completes
  {
    assert Analyze(s, r, env) == AnalyzeIf(s, r, env);
    hide Analyze;
    AnalyzeBounded(s.thn, r, env);
    if s.els.Some? { AnalyzeBounded(s.els.value, r, env); }
  }

  lemma {:induction false} ForFlag(s: Stmt, r: bool, env: Env)
    requires s.For? && env.level > 0 && Shape(s) && Unique(s) && Outer(env) * Ids(s) <= Own(s)
    ensures s.id in AnalyzeFor(s, r, env).done <==> AnalyzeFor(s, r, env).completes
  {
    hide Analyze, AnalyzeHeaders;
    var c := ForCondition(s.end);
    HeadersBounded(s.init, env);
    HeadersBounded(s.update, env);
    LoopFlag(s, AnalyzeHeaders(s.init, env).Then(Eval(s.id, c.throws, env)), s.body, r, CanBe(c, true),
             r && CanBe(c, false), env);
  }

  lemma {:induction false} BlockFlag(s: Stmt, r: bool, env: Env)
    requires s.Block?
    ensures var f := AnalyzeBlock(s.id, s.tag, s.stmts, r, env); s.id in f.done <==> f.completes
  {
    hide Analyze, AnalyzeSeq, GapErrors;
  }

  lemma {:induction false} WhileFlag(s: Stmt, r: bool, env: Env)
    requires s.While? && env.level > 0 && Shape(s) && Unique(s) && Outer(env) * Ids(s) <= Own(s)
    ensures s.id in Analyze(s, r, env).done <==> Analyze(s, r, env).completes
  {
    var c := s.cond;
    LoopFlag(s, Eval(s.id, c.throws, env), s.body, r, CanBe(c, true), r && CanBe(c, false), env);
  }

  lemma {:induction false} BodyFlag(s: Stmt, r: bool, env: Env)
    requires s.Do? || s.Foreach? || s.Sync?
    requires env.level > 0 && Shape(s) && Unique(s) && Outer(env) * Ids(s) <= Own(s)
    ensures s.id in Analyze(s, r, env).done <==> Analyze(s, r, env).completes
  {
    AnalyzeBounded(s.body, r, if s.Sync? then env else EnterLoop(s.body.id, env));
    assert s.body.id in Ids(s.body);
  }

  lemma {:induction false} SwitchFlag(s: Stmt, r: bool, env: Env)
    requires s.Switch? && env.level > 0 && Shape(s) && Unique(s) && Outer(env) * Ids(s) <= Own(s)
    ensures s.id in Analyze(s, r, env).done <==> Analyze(s, r, env).completes
  {
    hide AnalyzeGroups;
    GroupsBounded(s.groups, r, false, EnterSwitch(s.blockId, env));
  }

  lemma {:induction false} LeafFlag(s: Stmt, r: bool, env: Env)
    requires IsLeaf(s) && env.level > 0 && Outer(env) * Ids(s) <= Own(s)
    ensures s.id in Analyze(s, r, env).done <==> Analyze(s, r, env).completes
  {
  }

  /** The flag a statement ends up with is the completion the analysis computes. */
  lemma {:induction false} FlagTells(s: Stmt, r: bool, env: Env)
    requires env.level > 0 && Shape(s) && Unique(s) && Outer(env) * Ids(s) <= Own(s)
    ensures s.id in Analyze(s, r, env).done <==> Analyze(s, r, env).completes
  {
    hide Ids, Unique, Shape, Outer, Own, AnalyzeBlock, AnalyzeFor, AnalyzeTry, Eval;
    match s
    case Block(id, tag, ss) =>
      assert Analyze(s, r, env) == AnalyzeBlock(id, tag, ss, r, env);
      BlockFlag(s, r, env);
    case If(_, _, _, _) => IfFlag(s, r, env);
    case While(_, _, _) => WhileFlag(s, r, env);
    case Do(_, _, _) => BodyFlag(s, r, env);
    case For(_, _, _, _, _) =>
      assert Analyze(s, r, env) == AnalyzeFor(s, r, env);
      ForFlag(s, r, env);
    case Foreach(_, _, _, _, _) => BodyFlag(s, r, env);
    case Switch(_, _, _, _, _) => SwitchFlag(s, r, env);
    case Sync(_, _, _) => BodyFlag(s, r, env);
    case Try(_, _, _, _) =>
      assert Analyze(s, r, env) == AnalyzeTry(s, r, env);
      TryFlag(s, r, env);
    case _ => LeafFlag(s, r, env);
  }

  lemma {:induction false} ReachesBlock(s: Stmt, env: Env)
    requires s.Block?
    ensures s.id in AnalyzeBlock(s.id, s.tag, s.stmts, true, env).reach
  {
    hide Analyze, AnalyzeSeq, GapErrors;
  }

  lemma {:induction false} ReachesIf(s: Stmt, env: Env)
    requires s.If? && env.level > 0
    ensures s.id in AnalyzeIf(s, true, env).reach
  {
    hide Analyze;
  }

  lemma {:induction false} ReachesLoop(id: Id, head: Fx, b: Stmt, enters: bool, exits: bool, env: Env)
    requires env.level > 0
    ensures id in AnalyzeLoop(id, head, b, true, enters, exits, env).reach
  {
    hide Analyze;
  }

  lemma {:induction false} ReachesFor(s: Stmt, env: Env)
    requires s.For? && env.level > 0
    ensures s.id in AnalyzeFor(s, true, env).reach
  {
    hide Analyze, AnalyzeHeaders;
  }

  lemma {:induction false} ReachesTry(s: Stmt, env: Env)
    requires s.Try? && env.level > 0
    ensures s.id in AnalyzeTry(s, true, env).reach
  {
    hide Analyze, AnalyzeCatches;
  }

  /** A statement that is reachable is among what its analysis marks. */
  lemma {:induction false} ReachesItself(s: Stmt, env: Env)
    requires env.level > 0
    ensures s.id in Analyze(s, true, env).reach
  {
    hide AnalyzeBlock, AnalyzeIf, AnalyzeLoop, AnalyzeFor, AnalyzeTry, AnalyzeGroups, Eval;
    match s
    case Block(id, tag, ss) =>
      assert Analyze(s, true, env) == AnalyzeBlock(id, tag, ss, true, env);
      ReachesBlock(s, env);
    case If(_, _, _, _) =>
      assert Analyze(s, true, env) == AnalyzeIf(s, true, env);
      ReachesIf(s, env);
    case While(id, c, b) =>
      ReachesLoop(id, Eval(id, c.throws, env), b, CanBe(c, true), true && CanBe(c, false), env);
    case For(_, _, _, _, _) =>
      assert Analyze(s, true, env) == AnalyzeFor(s, true, env);
      ReachesFor(s, env);
    case Try(_, _, _, _) =>
      assert Analyze(s, true, env) == AnalyzeTry(s, true, env);
      ReachesTry(s, env);
    case _ =>
  }

  lemma {:induction false} LoopFlag(s: Stmt, head: Fx, b: Stmt, r: bool, enters: bool, exits: bool, env: Env)
    requires IsLoop(s) && b == s.body && env.level > 0 && Shape(s) && Unique(s) && Outer(env) * Ids(s) <= Own(s)
    requires head.reach == {} && head.done == {} && s.id !in Ids(b)
    ensures var f := AnalyzeLoop(s.id, head, b, r, enters, exits, env); s.id in f.done <==> f.completes
  {
    hide Analyze;
    AnalyzeBounded(b, r && enters, EnterLoop(b.id, env));
    assert b.id in Ids(b) && s.id in Ids(s);
  }

  lemma {:induction false} TryFlag(s: Stmt, r: bool, env: Env)
    requires s.Try? && env.level > 0 && Shape(s) && Unique(s) && Outer(env) * Ids(s) <= Own(s)
    ensures s.id in AnalyzeTry(s, r, env).done <==> AnalyzeTry(s, r, env).completes
  {
    hide Analyze, AnalyzeCatches;
    var Try(id, b, cs, f) := s;
    var ff := if f.Some? then Analyze(f.value, r, env) else Fx({}, {}, {}, {}, true);
    if f.Some? { AnalyzeBounded(f.value, r, env); }
    var env1, env2 := EnterTry(env, !ff.completes, CatchTypes(cs)), EnterTry(env, !ff.completes, []);
    AnalyzeBounded(b, r, env1);
    CatchesBounded(cs, [], Analyze(b, r, env1).exc + {ERROR, RUNTIME_EXCEPTION}, env2);
    TryOuter(env, !ff.completes, CatchTypes(cs));
    TryOuter(env, !ff.completes, []);
    assert id in Ids(s);
  }

  // ---- Blocks

  /** What processing the statements of an open block adds. */
  function BlockFx(s: Stmt, r: bool, topReachable: bool, env: Env): Fx
    requires s.Block? && env.level > 0
  {
    var f := AnalyzeSeq(s.stmts, r, env);
    var ok := f.completes || s.id in f.done;
    f.Then(Fx({}, If1(ok, s.id), {}, GapErrors(s.stmts, r, topReachable, env), ok))
  }

  /** A block is ready, whether or not another is open. */
  ghost predicate BlockReady(s: Stmt, st: State) {
    && s.Block? && Shape(s) && Unique(s)
    && Ids(s) !! st.canComplete && (Ids(s) - {s.id}) !! st.reachable
    && Outer(EnvOf(st)) * Ids(s) <= {s.id}
  }

  lemma {:induction false} SeqInBlock(s: Stmt, st: State, st': State)
    requires BlockReady(s, st) && st'.reachable == st.reachable && st'.canComplete == st.canComplete
    requires EnvOf(st') == EnterBlock(s.id, s.tag, s.stmts, EnvOf(st)) && st'.blocks != []
    ensures SeqReady(s.stmts, st') && s.id !in st'.canComplete && s.id !in IdsOf(s.stmts)
  {
    var ss := s.stmts;
    BlockOuter(s.id, s.tag, ss, EnvOf(st));
    forall i | 0 <= i < |ss|
      ensures Ids(ss[i]) <= IdsOf(ss)
      ensures if IsLoop(ss[i]) then |ss| == 1 && Outer(EnvOf(st')) * Ids(ss[i]) <= {ss[i].body.id}
              else Outer(EnvOf(st')) !! Ids(ss[i])
    {
      IdsMember(ss, i);
      BlockInnerOuter(s, EnvOf(st), i);
    }
  }

  lemma {:induction false} BlockInnerOuter(s: Stmt, env: Env, i: nat)
    requires s.Block? && Shape(s) && Unique(s) && i < |s.stmts|
    requires Outer(env) * Ids(s) <= {s.id} && Ids(s.stmts[i]) <= IdsOf(s.stmts)
    ensures var inner := EnterBlock(s.id, s.tag, s.stmts, env);
            if IsLoop(s.stmts[i]) then |s.stmts| == 1 && Outer(inner) * Ids(s.stmts[i]) <= {s.stmts[i].body.id}
            else Outer(inner) !! Ids(s.stmts[i])
  {
    var inner := EnterBlock(s.id, s.tag, s.stmts, env);
    assert Outer(inner) <= {s.id} + Outer(env)
           + (if LoopBodyOf(s.stmts).Some? then {LoopBodyOf(s.stmts).value} else {});
    assert LoopBodyOf(s.stmts).Some? ==> IsLoop(s.stmts[0]) && |s.stmts| == 1;
  }

  /** Opening the scope of a block, its label entered unless it is known already. */
  lemma {:induction false} PushBlock(s: Stmt, st: State, st': State, table: map<string, LabelInfo>)
    requires s.Block?
    requires st' == st.(errors := st'.errors, labels := st.labels + [table], blocks := st.blocks + [s.id])
    requires table == if s.tag.Some? && s.tag.value !in EnvOf(st).labels
                      then map[s.tag.value := LabelInfo(Target(s.id, |st.blocks|), LoopBodyOf(s.stmts))] else map[]
    ensures EnvOf(st') == EnterBlock(s.id, s.tag, s.stmts, EnvOf(st))
  {
    assert Pop(st'.labels) == st.labels;
    assert Merge(st'.labels) == Merge(st.labels) + table;
  }

  /** The state after processing s. */
  function After(s: Stmt, st: State): State
    requires st.blocks != []
  {
    Apply(st, Analyze(s, s.id in st.reachable, EnvOf(st)))
  }

  function AfterBlock(s: Stmt, st: State): State
    requires s.Block?
  {
    Apply(st, AnalyzeBlock(s.id, s.tag, s.stmts, s.id in st.reachable, EnvOf(st)))
  }

  /** The state after processing the statements of block s in the block open innermost. */
  function AfterStatements(s: Stmt, st: State): State
    requires s.Block? && st.blocks != []
  {
    Apply(st, BlockFx(s, s.id in st.reachable, EnvOf(st).top in st.reachable, EnvOf(st)))
  }

  /** Setting the reachable flag of a statement and processing it adds just its effects. */
  lemma {:induction false} AfterMarked(s: Stmt, st: State, r: bool)
    requires st.blocks != [] && s.id !in st.reachable
    ensures After(s, st.(reachable := st.reachable + If1(r, s.id))) == Apply(st, Analyze(s, r, EnvOf(st)))
  {
    hide Analyze;
    var f := Analyze(s, r, EnvOf(st));
    assert EnvOf(st.(reachable := st.reachable + If1(r, s.id))) == EnvOf(st);
    if r {
      ReachesItself(s, EnvOf(st));
    }
    assert st.reachable + If1(r, s.id) + f.reach == st.reachable + f.reach;
  }

  lemma {:induction false} AfterBlockMarked(s: Stmt, st: State, r: bool)
    requires s.Block? && s.id !in st.reachable
    ensures AfterBlock(s, st.(reachable := st.reachable + If1(r, s.id))) ==
            Apply(st, AnalyzeBlock(s.id, s.tag, s.stmts, r, EnvOf(st)))
  {
    var f := AnalyzeBlock(s.id, s.tag, s.stmts, r, EnvOf(st));
    assert EnvOf(st.(reachable := st.reachable + If1(r, s.id))) == EnvOf(st);
    assert st.reachable + If1(r, s.id) + f.reach == st.reachable + f.reach;
  }

  /** Stacks are left as they were. */
  ghost predicate SameStacks(st: State, st': State) {
    && st'.h == st.h && st'.ctx == st.ctx
    && st'.labels == st.labels && st'.blocks == st.blocks && st'.breakables == st.breakables
    && st'.continuables == st.continuables && st'.abrupts == st.abrupts && st'.tries == st.tries
  }

  lemma {:induction false} ApplyKeepsStacks(st: State, f: Fx)
    ensures SameStacks(st, Apply(st, f)) && EnvOf(Apply(st, f)) == EnvOf(st)
  {
  }

  lemma {:induction false} AfterStatementsKeepsStacks(s: Stmt, st: State)
    requires s.Block? && st.blocks != []
    ensures SameStacks(st, AfterStatements(s, st))
  {
  }

  lemma {:induction false} LeaveBlockScope(s: Stmt, st: State, st1: State)
    requires s.Block? && st1.blocks != []
    requires EnvOf(st1) == EnterBlock(s.id, s.tag, s.stmts, EnvOf(st))
    requires st1 == st.(errors := st.errors + LabelErrors(s.id, s.tag, EnvOf(st)), labels := st1.labels,
                        blocks := st1.blocks)
    ensures AfterStatements(s, st1).(labels := st.labels, blocks := st.blocks) == AfterBlock(s, st)
  {
    var env, r := EnvOf(st), s.id in st.reachable;
    var inner := EnterBlock(s.id, s.tag, s.stmts, env);
    var f, g := BlockFx(s, r, r, inner), AnalyzeBlock(s.id, s.tag, s.stmts, r, env);
    assert st.reachable + f.reach == st.reachable + g.reach;
    assert f.done == g.done && f.exc == g.exc;
    assert st1.errors + f.errs == st.errors + g.errs;
  }

  // ---- Statements in sequence

  /** i statements were processed, with effects acc so far; `first` is the first unreachable one met. */
  ghost predicate SeqProgress(s: Stmt, i: nat, st: State, acc: Fx, first: Option<Id>, now: State)
    requires s.Block? && i <= |s.stmts| && st.blocks != []
  {
    var ss, r, env := s.stmts, s.id in st.reachable, EnvOf(st);
    && now == Apply(st, acc) && SeqReady(ss[i..], now)
    && acc.Then(AnalyzeSeq(ss[i..], acc.completes, env)) == AnalyzeSeq(ss, r, env)
    && FirstUnreachable(ss, r, env) == if first.Some? then first else FirstUnreachable(ss[i..], acc.completes, env)
  }

  lemma {:induction false} SeqStart(s: Stmt, st: State)
    requires s.Block? && SeqReady(s.stmts, st)
    ensures SeqProgress(s, 0, st, Fx({}, {}, {}, {}, s.id in st.reachable), None, st)
  {
    hide Analyze, AnalyzeSeq, FirstUnreachable, SeqReady, EnvOf, Apply;
    var r := s.id in st.reachable;
    SeqReadyParts(s.stmts, st);
    ApplyNothing(st, r);
    assert s.stmts[0..] == s.stmts;
    var f := AnalyzeSeq(s.stmts, r, EnvOf(st));
    assert Fx({}, {}, {}, {}, r).Then(f) == f;
  }

  /** Marking and processing the next statement. */
  lemma {:induction false} SeqStep(s: Stmt, i: nat, st: State, acc: Fx, first: Option<Id>, now: State)
    requires s.Block? && i < |s.stmts| && st.blocks != [] && SeqProgress(s, i, st, acc, first, now)
    ensures var s0, ok := s.stmts[i], acc.completes;
            var marked := now.(reachable := now.reachable + If1(ok, s0.id));
            var f := Analyze(s0, ok, EnvOf(st));
            && s0.id !in now.reachable && Ready(s0, marked)
            && SeqProgress(s, i + 1, st, acc.Then(f), if !ok && first.None? then Some(s0.id) else first,
                           After(s0, marked))
            && (s0.id in After(s0, marked).canComplete <==> f.completes)
  {
    hide Analyze;
    var ss, env, ok := s.stmts, EnvOf(st), acc.completes;
    var s0 := ss[i];
    var f := Analyze(s0, ok, env);
    assert ss[i..][0] == s0 && ss[i..][1..] == ss[i + 1..];
    IdsMember(ss[i..], 0);
    assert s0.id in Ids(s0);
    SeqStepReady(ss[i..], now, f, ok);
    ApplyThen(st, acc, f);
    ThenAssociative(acc, f, AnalyzeSeq(ss[i + 1..], f.completes, env));
  }

  lemma {:induction false} SeqStepReady(ss: seq<Stmt>, now: State, f: Fx, ok: bool)
    requires ss != [] && SeqReady(ss, now) && f == Analyze(ss[0], ok, EnvOf(now)) && ss[0].id in IdsOf(ss)
    ensures Ready(ss[0], now.(reachable := now.reachable + If1(ok, ss[0].id)))
    ensures After(ss[0], now.(reachable := now.reachable + If1(ok, ss[0].id))) == Apply(now, f)
    ensures SeqReady(ss[1..], Apply(now, f))
    ensures ss[0].id in Apply(now, f).canComplete <==> f.completes
  {
    FirstReady(ss, now, ok);
    AfterMarked(ss[0], now, ok);
    AnalyzeBounded(ss[0], ok, EnvOf(now));
    RestReady(ss, now, f);
    FlagTells(ss[0], ok, EnvOf(now));
  }

  /** All statements processed: what is left is the flag of the block and the report. */
  lemma {:induction false} SeqEnd(s: Stmt, st: State, acc: Fx, first: Option<Id>, now: State)
    requires s.Block? && st.blocks != [] && SeqProgress(s, |s.stmts|, st, acc, first, now)
    requires s.id !in st.canComplete && s.id !in IdsOf(s.stmts) && SeqReady(s.stmts, st)
    ensures SameStacks(st, now) && (EnvOf(st).top in now.reachable <==> EnvOf(st).top in st.reachable)
    ensures acc.completes == AnalyzeSeq(s.stmts, s.id in st.reachable, EnvOf(st)).completes
    ensures var gap := first.Some? && EnvOf(st).top in now.reachable;
            AfterStatements(s, st) ==
            now.(canComplete := now.canComplete + If1(acc.completes, s.id))
               .(errors := now.errors + If1(gap, UnreachableStatement(if gap then first.value else 0)))
  {
    hide Analyze, FirstUnreachable, AnalyzeSeq, Outer;
    var r, env := s.id in st.reachable, EnvOf(st);
    assert s.stmts[|s.stmts|..] == [];
    var f := AnalyzeSeq(s.stmts, r, env);
    var none := Fx({}, {}, {}, {}, acc.completes);
    assert AnalyzeSeq([], acc.completes, env) == none && FirstUnreachable([], acc.completes, env) == None by {
      SeqEmpty(acc.completes, env);
    }
    assert acc.Then(none) == acc;
    SeqBounded(s.stmts, r, env);
    ApplyThen(st, f, Fx({}, If1(f.completes || s.id in f.done, s.id), {},
              GapErrors(s.stmts, r, env.top in st.reachable, env),
                        f.completes || s.id in f.done));
    RecordNothing(now.thrown);
    assert now.canComplete + If1(acc.completes || s.id in now.canComplete, s.id) ==
           now.canComplete + If1(acc.completes, s.id);
  }

  lemma {:induction false} SeqEmpty(r: bool, env: Env)
    requires env.level > 0
    ensures AnalyzeSeq([], r, env) == Fx({}, {}, {}, {}, r) && FirstUnreachable([], r, env) == None
  {
  }

  lemma {:induction false} RecordNothing(thrown: seq<set<Class>>)
    ensures Record(thrown, {}) == thrown
  {
    if thrown != [] {
      var t := thrown[|thrown| - 1];
      assert t + {} == t && Pop(thrown) + [t] == thrown;
    }
  }

  // ---- Parts of statements

  /** Block b was not processed, nor was its reachable flag set. */
  ghost predicate Untouched(b: Stmt, st: State) {
    && b.Block? && Shape(b) && Unique(b) && st.blocks != []
    && Ids(b) !! st.canComplete && Ids(b) !! st.reachable
    && Outer(EnvOf(st)) * Ids(b) <= {b.id}
  }

  lemma {:induction false} ProcessUntouched(b: Stmt, st: State, r: bool)
    requires Untouched(b, st)
    ensures var marked := st.(reachable := st.reachable + If1(r, b.id));
            var f := Analyze(b, r, EnvOf(st));
            && b.id !in st.reachable && BlockReady(b, marked)
            && AfterBlock(b, marked) == Apply(st, f)
            && (b.id in Apply(st, f).canComplete <==> f.completes)
            && Bounded(f, Ids(b), EnvOf(st))
  {
    var marked, f := st.(reachable := st.reachable + If1(r, b.id)), Analyze(b, r, EnvOf(st));
    assert b.id in Ids(b);
    assert EnvOf(marked) == EnvOf(st);
    AfterBlockMarked(b, st, r);
    assert f == AnalyzeBlock(b.id, b.tag, b.stmts, r, EnvOf(st));
    FlagTells(b, r, EnvOf(st));
    AnalyzeBounded(b, r, EnvOf(st));
  }

  /** Effects elsewhere leave b untouched. */
  lemma {:induction false} StillUntouched(b: Stmt, st: State, f: Fx, ids: set<Id>, env: Env)
    requires Untouched(b, st) && Bounded(f, ids, env) && ids !! Ids(b) && Outer(env) !! Ids(b)
    ensures Untouched(b, Apply(st, f))
  {
    assert EnvOf(Apply(st, f)) == EnvOf(st);
  }

  lemma {:induction false} EvalMarksNothing(id: Id, throws: seq<Class>, env: Env)
    ensures Eval(id, throws, env).reach == {} && Eval(id, throws, env).done == {}
  {
  }

  lemma {:induction false} EvalElsewhere(id: Id, throws: seq<Class>, env: Env, env': Env)
    requires env.h == env'.h && env.ctx == env'.ctx && env.tries == env'.tries
    ensures Eval(id, throws, env) == Eval(id, throws, env')
  {
  }

  /** The last step of a statement: its own flag. */
  lemma {:induction false} FinishStatement(st: State, f: Fx, s: Stmt, ok: bool)
    requires st.blocks != []
    requires var r := s.id in st.reachable;
             Analyze(s, r, EnvOf(st)) == f.Then(Fx(If1(r, s.id), If1(ok, s.id), {}, {}, ok))
    ensures After(s, st) == Apply(st, f).(canComplete := Apply(st, f).canComplete + If1(ok, s.id))
  {
    hide Analyze;
    FinishFlags(st, f, s.id, ok);
  }

  /** Effects so far are f; those of the part b, processed next, are g. */
  lemma {:induction false} NextPart(st: State, f: Fx, b: Stmt, r: bool)
    requires Untouched(b, Apply(st, f))
    ensures EnvOf(Apply(st, f)) == EnvOf(st)
    ensures Apply(Apply(st, f), Analyze(b, r, EnvOf(st))) == Apply(st, f.Then(Analyze(b, r, EnvOf(st))))
  {
    hide Analyze;
    ApplyThen(st, f, Analyze(b, r, EnvOf(st)));
  }

  lemma {:induction false} EvalLeavesUntouched(b: Stmt, st: State, id: Id, throws: seq<Class>, env: Env)
    requires Untouched(b, st)
    ensures Untouched(b, Apply(st, Eval(id, throws, env)))
  {
    assert EnvOf(Apply(st, Eval(id, throws, env))) == EnvOf(st);
  }

  lemma {:induction false} IfParts(s: Stmt, st: State, f: Fx, r: bool)
    requires s.If? && Ready(s, st) && f == Eval(s.id, s.cond.throws, EnvOf(st))
    ensures Untouched(s.thn, Apply(st, f))
    ensures s.els.Some? ==> Untouched(s.els.value, Apply(st, f.Then(Analyze(s.thn, r, EnvOf(st)))))
  {
    assert EnvOf(Apply(st, f)) == EnvOf(st);
    assert Untouched(s.thn, st);
    EvalLeavesUntouched(s.thn, st, s.id, s.cond.throws, EnvOf(st));
    if s.els.Some? {
      EvalLeavesUntouched(s.els.value, st, s.id, s.cond.throws, EnvOf(st));
      AnalyzeBounded(s.thn, r, EnvOf(st));
      hide Analyze;
      StillUntouched(s.els.value, Apply(st, f), Analyze(s.thn, r, EnvOf(st)), Ids(s.thn), EnvOf(st));
      NextPart(st, f, s.thn, r);
    }
  }

  lemma {:induction false} SyncParts(s: Stmt, st: State, f: Fx)
    requires s.Sync? && Ready(s, st) && f == Eval(s.id, s.e.throws, EnvOf(st))
    ensures Untouched(s.body, Apply(st, f))
  {
    assert Untouched(s.body, st);
    EvalLeavesUntouched(s.body, st, s.id, s.e.throws, EnvOf(st));
  }

  // ---- Loops

  /** BreakableStatementStack and ContinuableStatementStack inside a loop. */
  function InLoop(st: State, body: Id): State
    requires st.blocks != []
  {
    var level := |st.blocks| - 1;
    st.(breakables := st.breakables + [Target(st.blocks[level], level)],
        continuables := st.continuables + [Target(body, level)])
  }

  function OutOfLoop(st: State): State {
    st.(breakables := Pop(st.breakables), continuables := Pop(st.continuables))
  }

  lemma {:induction false} LoopScope(st: State, body: Id, f: Fx)
    requires st.blocks != []
    ensures EnvOf(InLoop(st, body)) == EnterLoop(body, EnvOf(st))
    ensures OutOfLoop(Apply(InLoop(st, body), f)) == Apply(st, f)
    ensures Apply(InLoop(st, body), f).breakables != [] && Apply(InLoop(st, body), f).continuables != []
  {
    var inner := InLoop(st, body);
    assert Pop(inner.breakables) == st.breakables && Pop(inner.continuables) == st.continuables;
  }

  lemma {:induction false} LoopBodyParts(s: Stmt)
    requires IsLoop(s) && Shape(s) && Unique(s)
    ensures Ids(s.body) <= Ids(s) && s.id !in Ids(s.body) && s.body.id in Ids(s.body)
    ensures s.body.Block? && Shape(s.body) && Unique(s.body)
  {
  }

  lemma {:induction false} LoopKeepsFlags(st: State, body: Id)
    requires st.blocks != []
    ensures InLoop(st, body).reachable == st.reachable && InLoop(st, body).canComplete == st.canComplete
    ensures InLoop(st, body).blocks == st.blocks
  {
  }

  lemma {:induction false} EnteredOuter(body: Id, env: Env)
    requires env.level > 0
    ensures Outer(EnterLoop(body, env)) <= Outer(env) + {body, env.top}
  {
  }

  /** Inside a loop that is ready, its body is untouched. */
  lemma {:induction false} LoopBodyUntouched(s: Stmt, st: State)
    requires IsLoop(s) && Ready(s, st)
    ensures Untouched(s.body, InLoop(st, s.body.id)) && s.id !in Ids(s.body)
  {
    hide Ids, Unique, Shape, InLoop, Outer;
    LoopReadyParts(s, st);
    LoopBodyParts(s);
    LoopKeepsFlags(st, s.body.id);
    LoopScope(st, s.body.id, Fx({}, {}, {}, {}, false));
    EnteredOuter(s.body.id, EnvOf(st));
  }

  lemma {:induction false} LoopEval(s: Stmt, st: State, throws: seq<Class>)
    requires IsLoop(s) && Ready(s, st)
    ensures var inner := InLoop(st, s.body.id);
            var f := Eval(s.id, throws, EnvOf(st));
            && f == Eval(s.id, throws, EnvOf(inner)) && Untouched(s.body, Apply(inner, f))
  {
    var inner := InLoop(st, s.body.id);
    LoopBodyUntouched(s, st);
    EvalElsewhere(s.id, throws, EnvOf(st), EnvOf(inner));
    EvalLeavesUntouched(s.body, inner, s.id, throws, EnvOf(inner));
  }

  /** The block around the loop is marked after the body iff a jump in the body marked it. */
  lemma {:induction false} LoopMark(s: Stmt, st: State, f: Fx)
    requires IsLoop(s) && Ready(s, st)
    ensures EnvOf(st).top in Apply(InLoop(st, s.body.id), f).canComplete <==> EnvOf(st).top in f.done
    ensures Apply(InLoop(st, s.body.id), f).blocks == st.blocks
  {
  }

  // ---- For headers

  /** Simple statements that jumps cannot lead to, their flags not set. */
  ghost predicate HeadersReady(ss: seq<Stmt>, st: State) {
    st.blocks != [] &&
    forall k :: 0 <= k < |ss| ==>
      && IsHeader(ss[k]) && ss[k].id !in st.reachable && ss[k].id !in st.canComplete
      && ss[k].id !in Outer(EnvOf(st))
  }

  lemma {:induction false} HeaderReady(h: Stmt, st: State)
    requires IsHeader(h) && h.id !in st.reachable && h.id !in st.canComplete && st.blocks != []
    requires h.id !in Outer(EnvOf(st))
    ensures Ready(h, st) && After(h, st) == Apply(st, Analyze(h, false, EnvOf(st)))
    ensures Analyze(h, false, EnvOf(st)).reach == {} && Analyze(h, false, EnvOf(st)).done == {}
  {
    assert Ids(h) == {h.id};
  }

  lemma {:induction false} HeaderStep(ss: seq<Stmt>, k: nat, st: State, acc: Fx)
    requires k < |ss| && HeadersReady(ss, st) && acc.reach == {} && acc.done == {}
    requires acc.Then(AnalyzeHeaders(ss[k..], EnvOf(st))) == AnalyzeHeaders(ss, EnvOf(st))
    ensures var now, f := Apply(st, acc), Analyze(ss[k], false, EnvOf(st));
            && Ready(ss[k], now) && After(ss[k], now) == Apply(st, acc.Then(f))
            && f.reach == {} && f.done == {}
            && acc.Then(f).Then(AnalyzeHeaders(ss[k + 1..], EnvOf(st))) == AnalyzeHeaders(ss, EnvOf(st))
  {
    var now, f := Apply(st, acc), Analyze(ss[k], false, EnvOf(st));
    assert ss[k..][0] == ss[k] && ss[k..][1..] == ss[k + 1..];
    ApplyKeepsStacks(st, acc);
    HeaderReady(ss[k], now);
    hide Analyze;
    hide Outer;
    hide Ready;
    hide After;
    hide EnvOf;
    hide HeadersReady;
    ApplyThen(st, acc, f);
    ThenAssociative(acc, f, AnalyzeHeaders(ss[k + 1..], EnvOf(st)));
  }

  lemma {:induction false} NothingThen(f: Fx)
    ensures Fx({}, {}, {}, {}, false).Then(f) == f
    ensures f.Then(Fx({}, {}, {}, {}, f.completes)) == f
  {
  }

  lemma {:induction false} HeadersElsewhere(ss: seq<Stmt>, env: Env, env': Env)
    requires env.level > 0 && env'.level > 0 && env.h == env'.h && env.ctx == env'.ctx && env.tries == env'.tries
    requires forall i :: 0 <= i < |ss| ==> IsHeader(ss[i])
    ensures AnalyzeHeaders(ss, env) == AnalyzeHeaders(ss, env')
  {
    if ss != [] {
      EvalElsewhere(ss[0].id, ss[0].e.throws, env, env');
      HeadersElsewhere(ss[1..], env, env');
    }
  }

  // ---- While and for

  /** Effects of a while or for statement after the initialisers. */
  function LoopRest(s: Stmt, c: Expr, update: seq<Stmt>, r: bool, env: Env): Fx
    requires IsLoop(s) && env.level > 0
  {
    AnalyzeHeaders(update, env)
      .Then(AnalyzeLoop(s.id, Eval(s.id, c.throws, env), s.body, r, CanBe(c, true), r && CanBe(c, false), env))
  }

  lemma {:induction false} WhileIsLoopRest(s: Stmt, st: State)
    requires s.While? && st.blocks != []
    ensures After(s, st) == Apply(st, LoopRest(s, s.cond, [], s.id in st.reachable, EnvOf(st)))
  {
    var r, env := s.id in st.reachable, EnvOf(st);
    NothingThen(AnalyzeLoop(s.id, Eval(s.id, s.cond.throws, env), s.body, r, CanBe(s.cond, true),
                            r && CanBe(s.cond, false), env));
    assert AnalyzeHeaders([], env) == Fx({}, {}, {}, {}, false);
  }

  lemma {:induction false} ForIsLoopRest(s: Stmt, st: State)
    requires s.For? && st.blocks != []
    ensures var env, r := EnvOf(st), s.id in st.reachable;
            After(s, st) ==
            Apply(Apply(st, AnalyzeHeaders(s.init, env)), LoopRest(s, ForCondition(s.end), s.update, r, env))
  {
    var env, r, c := EnvOf(st), s.id in st.reachable, ForCondition(s.end);
    assert Analyze(s, r, env) == AnalyzeFor(s, r, env);
    hide Analyze;
    hide AnalyzeHeaders;
    var fi, fu, fe := AnalyzeHeaders(s.init, env), AnalyzeHeaders(s.update, env), Eval(s.id, c.throws, env);
    var loop := AnalyzeLoop(s.id, fe, s.body, r, CanBe(c, true), r && CanBe(c, false), env);
    LoopHead(s.id, fi, fe, s.body, r, CanBe(c, true), r && CanBe(c, false), env);
    ThenSwap(fu, fi, loop);
    ApplyThen(st, fi, fu.Then(loop));
  }

  lemma {:induction false} LoopHead(id: Id, f: Fx, head: Fx, b: Stmt, r: bool, enters: bool, exits: bool, env: Env)
    requires env.level > 0
    ensures AnalyzeLoop(id, f.Then(head), b, r, enters, exits, env) ==
            f.Then(AnalyzeLoop(id, head, b, r, enters, exits, env))
  {
    hide Analyze;
    var fb := Analyze(b, r && enters, EnterLoop(b.id, env));
    var ok := exits || env.top in fb.done;
    var last := Fx(If1(r, id), If1(ok, id), {}, If1(r && !enters, UnreachableStatement(b.id)), ok);
    ThenAssociative(f, head, fb);
    ThenAssociative(f, head.Then(fb), last);
  }

  lemma {:induction false} ThenSwap(f: Fx, g: Fx, k: Fx)
    ensures f.Then(g.Then(k)) == g.Then(f.Then(k))
  {
    assert f.reach + (g.reach + k.reach) == g.reach + (f.reach + k.reach);
    assert f.done + (g.done + k.done) == g.done + (f.done + k.done);
    assert f.exc + (g.exc + k.exc) == g.exc + (f.exc + k.exc);
    assert f.errs + (g.errs + k.errs) == g.errs + (f.errs + k.errs);
  }

  /** A loop is still ready after its initialisers, which set no flag. */
  lemma {:induction false} ReadyAfterHeaders(s: Stmt, st: State, f: Fx)
    requires Ready(s, st) && f.reach == {} && f.done == {}
    ensures Ready(s, Apply(st, f)) && EnvOf(Apply(st, f)) == EnvOf(st)
  {
    hide EnvOf, Ids, Shape, Unique, Outer, Own;
    ApplyKeepsStacks(st, f);
    assert Apply(st, f).reachable == st.reachable && Apply(st, f).canComplete == st.canComplete;
  }

  lemma {:induction false} ForHeadersReady(s: Stmt, st: State)
    requires s.For? && Ready(s, st)
    ensures HeadersReady(s.init, st) && HeadersReady(s.update, st)
    ensures forall k :: 0 <= k < |s.update| ==> s.update[k].id !in Ids(s.body) && s.update[k].id != s.id
  {
    forall k | 0 <= k < |s.init| ensures s.init[k].id in IdsOf(s.init) { IdsMember(s.init, k); }
    forall k | 0 <= k < |s.update| ensures s.update[k].id in IdsOf(s.update) { IdsMember(s.update, k); }
    assert s.body.id in Ids(s.body);
  }

  /** After the body, the updates are still ready. */
  lemma {:induction false} UpdatesReady(s: Stmt, st: State, update: seq<Stmt>, f: Fx)
    requires IsLoop(s) && Ready(s, st) && HeadersReady(update, st)
    requires forall k :: 0 <= k < |update| ==> update[k].id !in Ids(s.body)
    requires Bounded(f, Ids(s.body), EnvOf(InLoop(st, s.body.id)))
    ensures HeadersReady(update, Apply(InLoop(st, s.body.id), f))
  {
    assert st.blocks != [] && EnvOf(st).level > 0;
    hide Outer, EnvOf, Ready, Ids;
    LoopScope(st, s.body.id, f);
    ApplyKeepsStacks(InLoop(st, s.body.id), f);
    LoopOuter(s, EnvOf(st));
  }

  lemma {:induction false} LoopOuter(s: Stmt, env: Env)
    requires IsLoop(s) && env.level > 0
    ensures Outer(EnterLoop(s.body.id, env)) <= Outer(env) + Ids(s.body)
  {
    assert s.body.id in Ids(s.body);
  }

  lemma {:induction false} FinishFlags(st: State, f: Fx, id: Id, ok: bool)
    ensures var r := id in st.reachable;
            Apply(st, f.Then(Fx(If1(r, id), If1(ok, id), {}, {}, ok))) ==
            Apply(st, f).(canComplete := Apply(st, f).canComplete + If1(ok, id))
  {
    var r, now := id in st.reachable, Apply(st, f);
    ApplyThen(st, f, Fx(If1(r, id), If1(ok, id), {}, {}, ok));
    RecordNothing(now.thrown);
    assert now.reachable + If1(r, id) == now.reachable;
    assert now.errors + {} == now.errors;
  }

  lemma {:induction false} OnlyBodyDone(fe: Fx, fb: Fx, report: Fx, fu: Fx)
    requires fe.done == report.done == fu.done == {}
    ensures fe.Then(fb).Then(report).Then(fu).done == fb.done
  {
  }

  lemma {:induction false} ReportThen(errs: set<Error>, f: Fx)
    requires f.errs == {}
    ensures Fx({}, {}, {}, errs, false).Then(f) == f.(errs := errs)
  {
  }

  /** The pieces of a loop, in the order they are processed, make up its effects. */
  lemma {:induction false} LoopPieces(s: Stmt, st: State, c: Expr, update: seq<Stmt>, fe: Fx, fb: Fx, report: Fx,
                                      fu: Fx)
    requires IsLoop(s) && st.blocks != [] && fu.done == {}
    requires var r, env := s.id in st.reachable, EnvOf(st);
             && fu == AnalyzeHeaders(update, env) && fe == Eval(s.id, c.throws, env)
             && fb == Analyze(s.body, r && CanBe(c, true), EnterLoop(s.body.id, env))
             && report == Fx({}, {}, {}, If1(r && !CanBe(c, true), UnreachableStatement(s.body.id)), false)
    ensures var r, env, f := s.id in st.reachable, EnvOf(st), fe.Then(fb).Then(report).Then(fu);
            var ok := (r && CanBe(c, false)) || env.top in f.done;
            Apply(st, LoopRest(s, c, update, r, env)) ==
            Apply(st, f).(canComplete := Apply(st, f).canComplete + If1(ok, s.id))
  {
    hide Analyze, AnalyzeHeaders, EnterLoop, Apply, EnvOf;
    var r, env, f := s.id in st.reachable, EnvOf(st), fe.Then(fb).Then(report).Then(fu);
    var ok := (r && CanBe(c, false)) || env.top in f.done;
    OnlyBodyDone(fe, fb, report, fu);
    var flags := Fx(If1(r, s.id), If1(ok, s.id), {}, {}, ok);
    ReportThen(report.errs, flags);
    ThenAssociative(fe.Then(fb), report, flags);
    ThenSwap(fu, fe.Then(fb).Then(report), flags);
    ThenAssociative(fe.Then(fb).Then(report), fu, flags);
    FinishFlags(st, f, s.id, ok);
  }

  /** What the condition and the body of a loop need, in order. */
  lemma {:induction false} LoopSteps(s: Stmt, st: State, c: Expr, fe: Fx, fb: Fx)
    requires IsLoop(s) && Ready(s, st) && fe == Eval(s.id, c.throws, EnvOf(st))
    ensures var inner := InLoop(st, s.body.id);
            && EnvOf(inner) == EnterLoop(s.body.id, EnvOf(st))
            && fe == Eval(s.id, c.throws, EnvOf(inner)) && Untouched(s.body, Apply(inner, fe))
            && EnvOf(Apply(inner, fe)) == EnvOf(inner)
            && Apply(Apply(inner, fe), fb) == Apply(inner, fe.Then(fb))
  {
    var inner := InLoop(st, s.body.id);
    LoopEval(s, st, c.throws);
    LoopScope(st, s.body.id, fe);
    ApplyKeepsStacks(inner, fe);
    ApplyThen(inner, fe, fb);
  }

  lemma {:induction false} ApplyReport(st: State, f: Fx, errs: set<Error>)
    ensures Apply(st, f.Then(Fx({}, {}, {}, errs, false))) == Apply(st, f).(errors := Apply(st, f).errors + errs)
  {
    ApplyThen(st, f, Fx({}, {}, {}, errs, false));
    RecordNothing(Apply(st, f).thrown);
  }

  /** What the updates need after that. */
  lemma {:induction false} UpdateStep(s: Stmt, st: State, update: seq<Stmt>, fe: Fx, fb: Fx, report: Fx, fu: Fx)
    requires IsLoop(s) && Ready(s, st) && HeadersReady(update, st)
    requires forall k :: 0 <= k < |update| ==> update[k].id !in Ids(s.body)
    requires Bounded(fb, Ids(s.body), EnvOf(InLoop(st, s.body.id))) && fu == AnalyzeHeaders(update, EnvOf(st))
    requires fe.reach == {} && fe.done == {} && report.reach == {} && report.done == {}
    ensures var inner, f := InLoop(st, s.body.id), fe.Then(fb).Then(report);
            && HeadersReady(update, Apply(inner, f)) && fu == AnalyzeHeaders(update, EnvOf(Apply(inner, f)))
            && Apply(Apply(inner, f), fu) == Apply(inner, f.Then(fu)) && fu.done == {}
  {
    var inner, f := InLoop(st, s.body.id), fe.Then(fb).Then(report);
    HeadersBounded(update, EnvOf(st));
    UpdatesReadyAfter(s, st, update, fe, fb, report);
    LoopScope(st, s.body.id, f);
    ApplyKeepsStacks(inner, f);
    HeadersElsewhere(update, EnvOf(st), EnvOf(inner));
    ApplyThen(inner, f, fu);
  }

  /** The states a while or for loop goes through: condition, body, report, updates; then its own flag. */
  ghost predicate LoopPlan(s: Stmt, st: State, c: Expr, update: seq<Stmt>, s1: State, s2: State, s3: State, s4: State)
    requires IsLoop(s) && st.blocks != []
  {
    var inner, r, enters := InLoop(st, s.body.id), s.id in st.reachable, CanBe(c, true);
    && s1 == Apply(inner, Eval(s.id, c.throws, EnvOf(inner)))
    && Untouched(s.body, s1) && s2 == Apply(s1, Analyze(s.body, r && enters, EnvOf(s1)))
    && s3 == s2.(errors := s2.errors + If1(r && !enters, UnreachableStatement(s.body.id)))
    && HeadersReady(update, s3) && s4 == Apply(s3, AnalyzeHeaders(update, EnvOf(s3)))
    && s4.breakables != [] && s4.continuables != []
    && OutOfLoop(s4.(canComplete := s4.canComplete +
                                    If1((r && CanBe(c, false)) || EnvOf(st).top in s4.canComplete, s.id)))
       == Apply(st, LoopRest(s, c, update, r, EnvOf(st)))
  }

  lemma {:induction false} LoopPlanned(s: Stmt, st: State, c: Expr, update: seq<Stmt>)
    returns (s1: State, s2: State, s3: State, s4: State)
    requires IsLoop(s) && Ready(s, st) && HeadersReady(update, st)
    requires forall k :: 0 <= k < |update| ==> update[k].id !in Ids(s.body)
    ensures st.blocks != [] && LoopPlan(s, st, c, update, s1, s2, s3, s4)
  {
    hide Analyze, AnalyzeHeaders, Ready, HeadersReady, Untouched, Eval, LoopRest, Outer, Ids, Shape, Apply, EnvOf,
      InLoop;
    LoopReadyParts(s, st);
    var r, env, enters, inner := s.id in st.reachable, EnvOf(st), CanBe(c, true), InLoop(st, s.body.id);
    var fe, fb := Eval(s.id, c.throws, env), Analyze(s.body, r && enters, EnterLoop(s.body.id, env));
    var report := Fx({}, {}, {}, If1(r && !enters, UnreachableStatement(s.body.id)), false);
    var fu := AnalyzeHeaders(update, env);
    var f := fe.Then(fb).Then(report).Then(fu);
    LoopSteps(s, st, c, fe, fb);
    ApplyReport(inner, fe.Then(fb), report.errs);
    AnalyzeBounded(s.body, r && enters, EnvOf(inner));
    EvalMarksNothing(s.id, c.throws, env);
    UpdateStep(s, st, update, fe, fb, report, fu);
    LoopPieces(s, st, c, update, fe, fb, report, fu);
    LoopMark(s, st, f);
    LoopScope(st, s.body.id, f);
    s1, s2, s3, s4 := Apply(inner, fe), Apply(inner, fe.Then(fb)), Apply(inner, fe.Then(fb).Then(report)),
      Apply(inner, f);
  }

  lemma {:induction false} UpdatesReadyAfter(s: Stmt, st: State, update: seq<Stmt>, fe: Fx, fb: Fx, report: Fx)
    requires IsLoop(s) && Ready(s, st) && HeadersReady(update, st)
    requires forall k :: 0 <= k < |update| ==> update[k].id !in Ids(s.body)
    requires Bounded(fb, Ids(s.body), EnvOf(InLoop(st, s.body.id)))
    requires fe.reach == {} && fe.done == {} && report.reach == {} && report.done == {}
    ensures HeadersReady(update, Apply(InLoop(st, s.body.id), fe.Then(fb).Then(report)))
  {
    UpdatesReady(s, st, update, fe.Then(fb).Then(report));
  }

  // ---- Jumps

  lemma {:induction false} EvalConcat(id: Id, a: seq<Class>, b: seq<Class>, env: Env)
    ensures Eval(id, a + b, env) == Eval(id, a, env).Then(Eval(id, b, env))
  {
    assert ElementsOf(a + b) == ElementsOf(a) + ElementsOf(b);
    assert UncaughtErrors(id, a + b, env) == UncaughtErrors(id, a, env) + UncaughtErrors(id, b, env);
  }

  /** A statement that cannot complete normally and marks nothing else. */
  lemma {:induction false} JumpAway(s: Stmt, st: State, f: Fx)
    requires st.blocks != []
    requires Analyze(s, s.id in st.reachable, EnvOf(st)) ==
             f.Then(Fx(If1(s.id in st.reachable, s.id), {}, {}, {}, false))
    ensures After(s, st) == Apply(st, f)
  {
    hide Analyze;
    FinishFlags(st, f, s.id, false);
    assert Apply(st, f).canComplete + {} == Apply(st, f).canComplete;
  }

  /** A break or continue: its target marked, or an error. */
  lemma {:induction false} JumpTo(s: Stmt, st: State, marks: set<Id>, errs: set<Error>)
    requires st.blocks != []
    requires Analyze(s, s.id in st.reachable, EnvOf(st)) == Fx(If1(s.id in st.reachable, s.id), marks, {}, errs, false)
    ensures After(s, st) == st.(canComplete := st.canComplete + marks, errors := st.errors + errs)
  {
    hide Analyze;
    RecordNothing(st.thrown);
    assert st.reachable + If1(s.id in st.reachable, s.id) == st.reachable;
  }

  // ---- Switch

  function InSwitch(st: State, blockId: Id): State {
    st.(labels := st.labels + [map[]], blocks := st.blocks + [blockId],
        breakables := st.breakables + [Target(blockId, |st.blocks|)])
  }

  function OutOfSwitch(st: State): State {
    st.(labels := Pop(st.labels), blocks := Pop(st.blocks), breakables := Pop(st.breakables))
  }

  lemma {:induction false} MergeEmpty(tables: seq<map<string, LabelInfo>>)
    ensures Merge(tables + [map[]]) == Merge(tables)
  {
    assert Pop(tables + [map[]]) == tables;
    assert Merge(tables) + map[] == Merge(tables);
  }

  lemma {:induction false} SwitchScope(st: State, blockId: Id, f: Fx)
    ensures EnvOf(InSwitch(st, blockId)) == EnterSwitch(blockId, EnvOf(st))
    ensures OutOfSwitch(Apply(InSwitch(st, blockId), f)) == Apply(st, f)
    ensures Apply(InSwitch(st, blockId), f).breakables != [] && Apply(InSwitch(st, blockId), f).labels != []
    ensures Apply(InSwitch(st, blockId), f).blocks != []
  {
    var inner := InSwitch(st, blockId);
    MergeEmpty(st.labels);
    assert Pop(inner.labels) == st.labels && Pop(inner.blocks) == st.blocks && Pop(inner.breakables) == st.breakables;
  }

  lemma {:induction false} TopIsOuter(st: State)
    requires st.blocks != []
    ensures EnvOf(st).top in Outer(EnvOf(st))
  {
  }

  /** A group has its own symbol table but is opened on the block of the switch once more. */
  function InGroup(st: State): State
    requires st.blocks != []
  {
    st.(labels := st.labels + [map[]], blocks := st.blocks + [st.blocks[|st.blocks| - 1]])
  }

  lemma {:induction false} GroupPops(st: State, after: State)
    requires st.blocks != [] && SameStacks(InGroup(st), after)
    ensures after.labels != [] && after.blocks != []
    ensures Pop(after.labels) == st.labels && Pop(after.blocks) == st.blocks
  {
  }

  lemma {:induction false} GroupScope(st: State)
    requires st.blocks != []
    ensures EnvOf(InGroup(st)) == EnvOf(st).(level := |st.blocks| + 1)
  {
    MergeEmpty(st.labels);
  }

  ghost predicate GroupsReady(gs: seq<Stmt>, st: State) {
    && st.blocks != [] && UniqueAll(gs)
    && (forall i :: 0 <= i < |gs| ==> IsPlain(gs[i]) && gs[i].stmts != [] && Shape(gs[i]))
    && IdsOf(gs) !! st.canComplete && IdsOf(gs) !! st.reachable && IdsOf(gs) !! Outer(EnvOf(st))
  }

  ghost predicate GroupReady(g: Stmt, st: State) {
    && st.blocks != [] && Unique(g) && IsPlain(g) && g.stmts != [] && Shape(g)
    && Ids(g) !! st.canComplete && Ids(g) !! st.reachable && Ids(g) !! Outer(EnvOf(st))
  }

  /** The effects of one group. */
  function GroupFx(g: Stmt, r: bool, env: Env): Fx
    requires g.Block?
  {
    var inner := env.(level := env.level + 1);
    var f := AnalyzeSeq(g.stmts, r, inner);
    f.Then(Fx(If1(r, g.id), If1(f.completes, g.id), {}, GapErrors(g.stmts, r, r, inner), f.completes))
  }

  lemma {:induction false} GroupOpens(g: Stmt, now: State, r: bool)
    requires GroupReady(g, now)
    ensures var inside := InGroup(now.(reachable := now.reachable + If1(r, g.id)));
            && SeqReady(g.stmts, inside) && g.id !in inside.canComplete && g.id !in IdsOf(g.stmts)
            && EnvOf(inside) == EnvOf(now).(level := EnvOf(now).level + 1) && g.id !in now.reachable
  {
    var marked := now.(reachable := now.reachable + If1(r, g.id));
    GroupScope(marked);
    assert EnvOf(marked) == EnvOf(now);
    var inside := InGroup(marked);
    LevelOuter(EnvOf(now));
    assert Ids(g) == {g.id} + IdsOf(g.stmts);
    forall i | 0 <= i < |g.stmts| ensures Outer(EnvOf(inside)) !! Ids(g.stmts[i]) {
      IdsMember(g.stmts, i);
    }
  }

  /** No jump leads to a group. */
  lemma {:induction false} GroupUnmarked(g: Stmt, now: State, r: bool)
    requires GroupReady(g, now)
    ensures var env := EnvOf(now); g.id !in AnalyzeSeq(g.stmts, r, env.(level := env.level + 1)).done
    ensures g.id in Ids(g) && EnvOf(now).top != g.id
  {
    LevelOuter(EnvOf(now));
    SeqBounded(g.stmts, r, EnvOf(now).(level := EnvOf(now).level + 1));
    TopIsOuter(now);
  }

  lemma {:induction false} GroupCloses(g: Stmt, now: State, r: bool)
    requires GroupReady(g, now) && (r <==> EnvOf(now).top in now.reachable)
    ensures var inside := InGroup(now.(reachable := now.reachable + If1(r, g.id)));
            AfterStatements(g, inside).(labels := now.labels, blocks := now.blocks) ==
            Apply(now, GroupFx(g, r, EnvOf(now)))
  {
    var inside := InGroup(now.(reachable := now.reachable + If1(r, g.id)));
    GroupOpens(g, now, r);
    GroupUnmarked(g, now, r);
    hide Analyze;
    hide SeqReady;
    hide GroupReady;
    hide Outer;
    hide GapErrors;
    hide AnalyzeSeq;
    var inner := EnvOf(inside);
    var f, b := GroupFx(g, r, EnvOf(now)), BlockFx(g, r, r, inner);
    assert AfterStatements(g, inside) == Apply(inside, b);
    assert inside.reachable + b.reach == now.reachable + f.reach;
    assert b.done == f.done;
  }

  lemma {:induction false} GroupCompletes(g: Stmt, now: State, r: bool)
    requires GroupReady(g, now)
    ensures var inside := InGroup(now.(reachable := now.reachable + If1(r, g.id)));
            && EnvOf(inside).level > 0
            && AnalyzeSeq(g.stmts, g.id in inside.reachable, EnvOf(inside)).completes ==
               GroupFx(g, r, EnvOf(now)).completes
  {
    hide AnalyzeSeq;
    GroupOpens(g, now, r);
  }

  lemma {:induction false} GroupBounds(g: Stmt, r: bool, env: Env)
    requires env.level > 0 && g.Block? && Shape(g)
    ensures Bounded(GroupFx(g, r, env), Ids(g), env)
  {
    hide Analyze, Shape, AnalyzeSeq, Outer, FirstUnreachable;
    GroupBounded(g, r, env.(level := env.level + 1));
    LevelOuter(env);
  }

  /** Processing the first group leaves the others ready. */
  lemma {:induction false} GroupStep(gs: seq<Stmt>, now: State, r: bool)
    requires gs != [] && GroupsReady(gs, now) && (r <==> EnvOf(now).top in now.reachable)
    ensures GroupReady(gs[0], now)
    ensures var next := Apply(now, GroupFx(gs[0], r, EnvOf(now)));
            GroupsReady(gs[1..], next) && (r <==> EnvOf(now).top in next.reachable)
  {
    hide Analyze, EnvOf, AnalyzeSeq, GapErrors, Shape, Unique, Ids, Outer, GroupFx;
    LevelOf(now);
    var next := Apply(now, GroupFx(gs[0], r, EnvOf(now)));
    IdsMember(gs, 0);
    GroupBounds(gs[0], r, EnvOf(now));
    ApplyKeepsStacks(now, GroupFx(gs[0], r, EnvOf(now)));
    assert forall i :: 0 <= i < |gs| - 1 ==> gs[1..][i] == gs[i + 1];
    assert EnvOf(now).top in Outer(EnvOf(now)) by { TopIsOuter(now); }
  }

  /** i groups were processed, with effects acc so far. */
  ghost predicate GroupsProgress(gs: seq<Stmt>, i: nat, st: State, r: bool, acc: Fx, now: State)
    requires i <= |gs|
  {
    && now == Apply(st, acc) && GroupsReady(gs[i..], now) && (r <==> EnvOf(st).top in now.reachable)
    && acc.Then(AnalyzeGroups(gs[i..], r, acc.completes, EnvOf(st))) == AnalyzeGroups(gs, r, false, EnvOf(st))
  }

  lemma {:induction false} GroupsStart(gs: seq<Stmt>, st: State, r: bool)
    requires GroupsReady(gs, st) && (r <==> EnvOf(st).top in st.reachable)
    ensures GroupsProgress(gs, 0, st, r, Fx({}, {}, {}, {}, false), st)
  {
    ApplyNothing(st, false);
    NothingThen(AnalyzeGroups(gs, r, false, EnvOf(st)));
    assert gs[0..] == gs;
  }

  lemma {:induction false} GroupsEnd(gs: seq<Stmt>, st: State, r: bool, acc: Fx, now: State)
    requires GroupsProgress(gs, |gs|, st, r, acc, now)
    ensures now == Apply(st, AnalyzeGroups(gs, r, false, EnvOf(st)))
    ensures acc.completes == AnalyzeGroups(gs, r, false, EnvOf(st)).completes
  {
    assert gs[|gs|..] == [];
    NothingThen(acc);
  }

  lemma {:induction false} GroupsProgressStep(gs: seq<Stmt>, i: nat, st: State, r: bool, acc: Fx, now: State)
    requires i < |gs| && GroupsProgress(gs, i, st, r, acc, now)
    ensures GroupReady(gs[i], now) && EnvOf(now) == EnvOf(st) && (r <==> EnvOf(now).top in now.reachable)
    ensures var f := GroupFx(gs[i], r, EnvOf(st));
            GroupsProgress(gs, i + 1, st, r, acc.Then(f), Apply(now, f))
  {
    hide Analyze, EnvOf, AnalyzeSeq;
    var f := GroupFx(gs[i], r, EnvOf(st));
    assert gs[i..][0] == gs[i] && gs[i..][1..] == gs[i + 1..];
    ApplyKeepsStacks(st, acc);
    GroupStep(gs[i..], now, r);
    ApplyThen(st, acc, f);
    ThenAssociative(acc, f, AnalyzeGroups(gs[i + 1..], r, f.completes, EnvOf(st)));
    assert AnalyzeGroups(gs[i..], r, acc.completes, EnvOf(st)) ==
           f.Then(AnalyzeGroups(gs[i + 1..], r, f.completes, EnvOf(st)));
  }

  /** The groups stand in the block of the switch, which is not marked yet. */
  lemma {:induction false} SwitchReady(s: Stmt, st: State)
    requires s.Switch? && Ready(s, st)
    ensures UniqueAll(s.groups) && s.blockId !in st.reachable
    ensures forall i :: 0 <= i < |s.groups| ==> IsPlain(s.groups[i]) && s.groups[i].stmts != [] && Shape(s.groups[i])
    ensures IdsOf(s.groups) !! st.canComplete && IdsOf(s.groups) !! st.reachable + {s.blockId}
    ensures IdsOf(s.groups) !! Outer(EnterSwitch(s.blockId, EnvOf(st)))
  {
    hide EnvOf;
    assert s.blockId in Ids(s) && IdsOf(s.groups) <= Ids(s);
    assert Outer(EnterSwitch(s.blockId, EnvOf(st))) <= Outer(EnvOf(st)) + {s.blockId};
  }

  lemma {:induction false} SwitchSteps(s: Stmt, st: State)
    requires s.Switch? && Ready(s, st)
    ensures var r, inner, fe := s.id in st.reachable, InSwitch(st, s.blockId), Eval(s.id, s.e.throws, EnvOf(st));
            var marked := Apply(inner, fe).(reachable := Apply(inner, fe).reachable + If1(r, s.blockId));
            && fe == Eval(s.id, s.e.throws, EnvOf(inner))
            && GroupsReady(s.groups, marked) && EnvOf(marked) == EnterSwitch(s.blockId, EnvOf(st))
            && (r <==> s.blockId in marked.reachable) && s.blockId !in Apply(inner, fe).reachable
  {
    hide Ready, Shape, Unique, UniqueAll, Ids, IdsOf, Outer;
    var inner, fe := InSwitch(st, s.blockId), Eval(s.id, s.e.throws, EnvOf(st));
    SwitchReady(s, st);
    SwitchScope(st, s.blockId, fe);
    ApplyKeepsStacks(inner, fe);
    EvalElsewhere(s.id, s.e.throws, EnvOf(st), EnvOf(inner));
  }

  /** All flags of a switch at once, as the last step after f. */
  lemma {:induction false} SwitchFlags(st: State, f: Fx, g: Fx, id: Id, blockId: Id, ok: bool)
    ensures var r := id in st.reachable;
            var marked := Apply(st, f).(reachable := Apply(st, f).reachable + If1(r, blockId));
            Apply(marked, g).(canComplete := Apply(marked, g).canComplete + If1(ok, id)) ==
            Apply(st, f.Then(g).Then(Fx(If1(r, id) + If1(r, blockId), If1(ok, id), {}, {}, ok)))
  {
    var r := id in st.reachable;
    var own := Fx(If1(r, id) + If1(r, blockId), If1(ok, id), {}, {}, ok);
    ApplyThen(st, f, g);
    ApplyThen(st, f.Then(g), own);
    RecordNothing(Apply(st, f.Then(g)).thrown);
    assert st.reachable + f.reach + If1(r, blockId) + g.reach == st.reachable + f.reach + g.reach + own.reach;
  }

  lemma {:induction false} SwitchFinish(s: Stmt, st: State)
    requires s.Switch? && Ready(s, st)
    ensures var r, inner, fe := s.id in st.reachable, InSwitch(st, s.blockId), Eval(s.id, s.e.throws, EnvOf(st));
            var fg := AnalyzeGroups(s.groups, r, false, EnterSwitch(s.blockId, EnvOf(st)));
            var marked := Apply(inner, fe).(reachable := Apply(inner, fe).reachable + If1(r, s.blockId));
            var ok := s.blockId in fg.done || !s.hasDefault || fg.completes;
            var done := Apply(marked, fg).(canComplete := Apply(marked, fg).canComplete + If1(ok, s.id));
            && OutOfSwitch(done) == After(s, st)
            && (s.blockId in Apply(marked, fg).canComplete <==> s.blockId in fg.done)
            && done.labels != [] && done.blocks != [] && done.breakables != []
  {
    var r, env, inner := s.id in st.reachable, EnvOf(st), InSwitch(st, s.blockId);
    var fe, fg := Eval(s.id, s.e.throws, env), AnalyzeGroups(s.groups, r, false, EnterSwitch(s.blockId, env));
    var ok := s.blockId in fg.done || !s.hasDefault || fg.completes;
    assert s.blockId in Ids(s);
    var own := Fx(If1(r, s.id) + If1(r, s.blockId), If1(ok, s.id), {}, {}, ok);
    assert Analyze(s, r, env) == fe.Then(fg).Then(own);
    hide Analyze;
    hide AnalyzeGroups;
    hide Eval;
    hide Shape;
    SwitchScope(st, s.blockId, fe.Then(fg).Then(own));
    SwitchFlags(inner, fe, fg, s.id, s.blockId, ok);
  }

  // ---- Catch clauses

  function Join(f: Fx, g: Fx): Fx {
    f.Then(g).(completes := f.completes || g.completes)
  }

  lemma {:induction false} JoinAssociative(f: Fx, g: Fx, k: Fx)
    ensures Join(Join(f, g), k) == Join(f, Join(g, k))
  {
    ThenAssociative(f, g, k);
  }

  ghost predicate ClausesReady(cs: seq<Catch>, st: State) {
    && st.blocks != [] && UniqueCatches(cs)
    && (forall i :: 0 <= i < |cs| ==> IsPlain(cs[i].body) && Shape(cs[i].body))
    && IdsOfCatches(cs) !! st.canComplete && IdsOfCatches(cs) !! st.reachable && IdsOfCatches(cs) !! Outer(EnvOf(st))
  }

  /** The effects of one clause. */
  function ClauseFx(c: Catch, before: seq<Class>, found: set<Class>, env: Env): Fx
    requires env.level > 0
  {
    if !CatchReachable(env.h, found, c.cls) then
      Fx({c.body.id}, {}, {}, {UnreachableCatch(c.body.id)}, false)
    else if Covers(env.h, before, c.cls) then
      Fx({c.body.id}, {}, {}, {BlockedCatch(c.body.id)}, false)
    else
      Analyze(c.body, true, env)
  }

  /** A clause that is reported: its block is marked reachable all the same. */
  lemma {:induction false} ReportedClause(st: State, id: Id, error: Error)
    requires id !in st.reachable
    ensures Apply(st, Fx({id}, {}, {}, {error}, false)) ==
            st.(reachable := st.reachable + If1(true, id)).(errors := st.errors + If1(true, error))
  {
    RecordNothing(st.thrown);
  }

  ghost predicate ClausesProgress(cs: seq<Catch>, i: nat, found: set<Class>, st: State, acc: Fx, now: State)
    requires i <= |cs| && st.blocks != []
  {
    && now == Apply(st, acc) && ClausesReady(cs[i..], now)
    && Join(acc, AnalyzeCatches(cs[i..], CatchTypes(cs)[..i], found, EnvOf(st))) ==
       AnalyzeCatches(cs, [], found, EnvOf(st))
  }

  lemma {:induction false} ClausesStart(cs: seq<Catch>, found: set<Class>, st: State)
    requires ClausesReady(cs, st)
    ensures ClausesProgress(cs, 0, found, st, Fx({}, {}, {}, {}, false), st)
  {
    ApplyNothing(st, false);
    NothingThen(AnalyzeCatches(cs, [], found, EnvOf(st)));
    assert cs[0..] == cs && CatchTypes(cs)[..0] == [];
  }

  lemma {:induction false} ClausesEnd(cs: seq<Catch>, found: set<Class>, st: State, acc: Fx, now: State)
    requires st.blocks != [] && ClausesProgress(cs, |cs|, found, st, acc, now)
    ensures now == Apply(st, AnalyzeCatches(cs, [], found, EnvOf(st)))
    ensures acc.completes == AnalyzeCatches(cs, [], found, EnvOf(st)).completes
  {
    assert cs[|cs|..] == [];
    NothingThen(acc);
  }

  lemma {:induction false} OwnId(s: Stmt)
    ensures s.id in Ids(s)
  {
  }

  lemma {:induction false} FirstClause(cs: seq<Catch>, now: State, before: seq<Class>, found: set<Class>)
    requires cs != [] && ClausesReady(cs, now)
    ensures Untouched(cs[0].body, now) && cs[0].body.id !in now.reachable
    ensures ClausesReady(cs[1..], Apply(now, ClauseFx(cs[0], before, found, EnvOf(now))))
  {
    hide Analyze, EnvOf, Shape, Unique, Ids, Outer, CatchReachable, Covers;
    LevelOf(now);
    var c, f := cs[0], ClauseFx(cs[0], before, found, EnvOf(now));
    OwnId(c.body);
    assert Ids(c.body) <= IdsOfCatches(cs);
    AnalyzeBounded(c.body, true, EnvOf(now));
    ApplyKeepsStacks(now, f);
    assert forall i :: 0 <= i < |cs| - 1 ==> cs[1..][i] == cs[i + 1];
  }

  lemma {:induction false} ClausesStep(cs: seq<Catch>, i: nat, found: set<Class>, st: State, acc: Fx, now: State)
    requires i < |cs| && st.blocks != [] && ClausesProgress(cs, i, found, st, acc, now)
    ensures var f := ClauseFx(cs[i], CatchTypes(cs)[..i], found, EnvOf(st));
            && Untouched(cs[i].body, now) && cs[i].body.id !in now.reachable && EnvOf(now) == EnvOf(st)
            && ClausesProgress(cs, i + 1, found, st, Join(acc, f), Apply(now, f))
  {
    hide Analyze, ClausesReady, CatchReachable, Covers, Untouched;
    var f, types := ClauseFx(cs[i], CatchTypes(cs)[..i], found, EnvOf(st)), CatchTypes(cs);
    assert cs[i..][0] == cs[i] && cs[i..][1..] == cs[i + 1..];
    assert types[..i] + [cs[i].cls] == types[..i + 1];
    ApplyKeepsStacks(st, acc);
    FirstClause(cs[i..], now, types[..i], found);
    ApplyThen(st, acc, f);
    var rest := AnalyzeCatches(cs[i + 1..], types[..i + 1], found, EnvOf(st));
    assert AnalyzeCatches(cs[i..], types[..i], found, EnvOf(st)) == Join(f, rest);
    JoinAssociative(acc, f, rest);
  }

  // ---- Try

  /** Once the finally clause, with effects ff, is processed: an abrupt one gets a set of its own to drop
      exceptions in, and a level that jumps are checked against. */
  function WithFinally(st: State, ff: Fx, abrupt: bool): State {
    var st1 := Apply(st, ff);
    if abrupt then st1.(thrown := st1.thrown + [{}], abrupts := st1.abrupts + [|st1.blocks|]) else st1
  }

  /** While the try block is processed. */
  function InTryBlock(st: State, abrupt: bool, types: seq<Class>): State {
    st.(tries := st.tries + [Frame(abrupt, types)], thrown := st.thrown + [{}])
  }

  /** While the clauses are processed, the try block having effects fb. */
  function InClauses(st: State, abrupt: bool, fb: Fx): State {
    Apply(st, fb).(tries := st.tries + [Frame(abrupt, [])], thrown := st.thrown)
  }

  /** After the clauses: what was not caught goes to the enclosing try statement. */
  function OutOfTry(st: State, abrupt: bool, left: set<Class>): State {
    var st1 := st.(tries := Pop(st.tries), thrown := Record(st.thrown, left));
    if abrupt then st1.(thrown := Pop(st1.thrown), abrupts := Pop(st1.abrupts)) else st1
  }

  lemma {:induction false} TryBlockScopes(st: State, abrupt: bool, types: seq<Class>, fb: Fx)
    ensures var after := Apply(InTryBlock(st, abrupt, types), fb);
            && after.tries == st.tries + [Frame(abrupt, types)] && after.thrown == st.thrown + [fb.exc]
            && after.(tries := st.tries + [Frame(abrupt, [])], thrown := st.thrown) == InClauses(st, abrupt, fb)
  {
    var b := InTryBlock(st, abrupt, types);
    assert Pop(b.thrown) == st.thrown && {} + fb.exc == fb.exc;
  }

  lemma {:induction false} TryScopes(st: State, ff: Fx, abrupt: bool, types: seq<Class>, fb: Fx)
    ensures var a := WithFinally(st, ff, abrupt);
            && EnvOf(InTryBlock(a, abrupt, types)) == EnterTry(EnvOf(st), abrupt, types)
            && EnvOf(InClauses(a, abrupt, fb)) == EnterTry(EnvOf(st), abrupt, [])
  {
  }

  function FinallyFx(fin: Option<Stmt>, r: bool, env: Env): Fx
    requires env.level > 0
  {
    if fin.Some? then Analyze(fin.value, r, env) else Fx({}, {}, {}, {}, true)
  }

  lemma {:induction false} FinallyBounded(s: Stmt, r: bool, env: Env)
    requires s.Try? && Shape(s) && env.level > 0
    ensures Bounded(FinallyFx(s.fin, r, env), if s.fin.Some? then Ids(s.fin.value) else {}, env)
  {
    if s.fin.Some? {
      AnalyzeBounded(s.fin.value, r, env);
    }
  }

  lemma {:induction false} BodyBounded(s: Stmt, r: bool, env: Env, abrupt: bool, types: seq<Class>)
    requires s.Try? && Shape(s) && env.level > 0
    ensures Bounded(Analyze(s.body, r, EnterTry(env, abrupt, types)), Ids(s.body), env)
  {
    AnalyzeBounded(s.body, r, EnterTry(env, abrupt, types));
    TryOuter(env, abrupt, types);
  }

  lemma {:induction false} FinallyUntouched(s: Stmt, st: State)
    requires s.Try? && Ready(s, st) && s.fin.Some?
    ensures Untouched(s.fin.value, st) && Outer(EnvOf(st)) !! Ids(s)
  {
  }

  lemma {:induction false} TryBlockUntouched(s: Stmt, st: State, ff: Fx, abrupt: bool, types: seq<Class>)
    requires s.Try? && Ready(s, st)
    requires Bounded(ff, if s.fin.Some? then Ids(s.fin.value) else {}, EnvOf(st))
    ensures Untouched(s.body, InTryBlock(WithFinally(st, ff, abrupt), abrupt, types))
  {
    hide Outer, EnvOf;
    TryScopes(st, ff, abrupt, types, ff);
    TryOuter(EnvOf(st), abrupt, types);
    TryIds(s);
  }

  lemma {:induction false} TryClausesReady(s: Stmt, st: State, ff: Fx, abrupt: bool, fb: Fx)
    requires s.Try? && Ready(s, st)
    requires Bounded(ff, if s.fin.Some? then Ids(s.fin.value) else {}, EnvOf(st))
    requires Bounded(fb, Ids(s.body), EnvOf(st))
    ensures ClausesReady(s.catches, InClauses(WithFinally(st, ff, abrupt), abrupt, fb))
  {
    hide Outer, EnvOf;
    TryScopes(st, ff, abrupt, [], fb);
    TryOuter(EnvOf(st), abrupt, []);
    TryIds(s);
  }

  lemma {:induction false} ClauseStacks(a: State, abrupt: bool, fb: Fx, fc: Fx)
    ensures Apply(InClauses(a, abrupt, fb), fc).tries != []
    ensures Apply(InClauses(a, abrupt, fb), fc).abrupts == a.abrupts
    ensures a.thrown != [] ==> Apply(InClauses(a, abrupt, fb), fc).thrown != []
  {
  }

  lemma {:induction false} LeaveTryScopes(st: State, ff: Fx, abrupt: bool, fb: Fx, fc: Fx, left: set<Class>)
    ensures var end := OutOfTry(Apply(InClauses(WithFinally(st, ff, abrupt), abrupt, fb), fc), abrupt, left);
            && SameStacks(st, end)
            && end.reachable == st.reachable + ff.reach + fb.reach + fc.reach
            && end.canComplete == st.canComplete + ff.done + fb.done + fc.done
            && end.errors == st.errors + ff.errs + fb.errs + fc.errs
            && end.thrown == Record(st.thrown, ff.exc + if abrupt then {} else fc.exc + left)
  {
    var a := WithFinally(st, ff, abrupt);
    var c := Apply(InClauses(a, abrupt, fb), fc);
    assert Pop(c.tries) == st.tries;
    RecordTwice(a.thrown, fc.exc, left);
    if abrupt {
      assert Pop(a.abrupts) == st.abrupts;
      assert Pop(Record(a.thrown, fc.exc + left)) == Pop(a.thrown) == Record(st.thrown, ff.exc);
      assert ff.exc + {} == ff.exc;
    } else {
      RecordTwice(st.thrown, ff.exc, fc.exc + left);
    }
  }

  lemma {:induction false} TryPieces(st: State, end: State, f: Fx, ff: Fx, fb: Fx, fc: Fx, exc: set<Class>, id: Id,
                                     ok: bool)
    requires SameStacks(st, end)
    requires end.reachable == st.reachable + ff.reach + fb.reach + fc.reach
    requires end.canComplete == st.canComplete + ff.done + fb.done + fc.done
    requires end.errors == st.errors + ff.errs + fb.errs + fc.errs
    requires end.thrown == Record(st.thrown, exc)
    requires f.reach == ff.reach + fb.reach + fc.reach + If1(id in st.reachable, id)
    requires f.done == ff.done + fb.done + fc.done + If1(ok, id)
    requires f.errs == ff.errs + fb.errs + fc.errs && f.exc == exc
    ensures Apply(st, f) == end.(canComplete := end.canComplete + If1(ok, id))
  {
    assert st.reachable + f.reach == end.reachable;
    assert st.canComplete + f.done == end.canComplete + If1(ok, id);
    assert st.errors + f.errs == end.errors;
  }

  /** The pieces of a try statement, in the order they are processed, make up its effects. */
  lemma {:induction false} OfTry(s: Stmt, r: bool, env: Env)
    requires s.Try? && env.level > 0
    ensures Analyze(s, r, env) == AnalyzeTry(s, r, env)
  {
    hide AnalyzeTry;
  }

  lemma {:induction false} TryEffects(s: Stmt, r: bool, env: Env, ff: Fx, fb: Fx, fc: Fx)
    requires s.Try? && env.level > 0 && ff == FinallyFx(s.fin, r, env)
    requires fb == Analyze(s.body, r, EnterTry(env, !ff.completes, CatchTypes(s.catches)))
    requires fc == AnalyzeCatches(s.catches, [], fb.exc + {ERROR, RUNTIME_EXCEPTION}, EnterTry(env, !ff.completes, []))
    ensures var f, left := Analyze(s, r, env),
            NotCaught(env.h, fb.exc + {ERROR, RUNTIME_EXCEPTION}, CatchTypes(s.catches));
            var ok := (fb.completes || fc.completes) && ff.completes;
            && f.reach == ff.reach + fb.reach + fc.reach + If1(r, s.id)
            && f.done == ff.done + fb.done + fc.done + If1(ok, s.id)
            && f.exc == ff.exc + (if ff.completes then fc.exc + left else {})
            && f.errs == ff.errs + fb.errs + fc.errs && f.completes == ok
  {
    hide Analyze, AnalyzeCatches, NotCaught;
    OfTry(s, r, env);
  }

  lemma {:induction false} TryFinish(s: Stmt, st: State, ff: Fx, fb: Fx, fc: Fx)
    requires s.Try? && st.blocks != []
    requires var r, env, abrupt := s.id in st.reachable, EnvOf(st), !ff.completes;
             && ff == FinallyFx(s.fin, r, env)
             && fb == Analyze(s.body, r, EnterTry(env, abrupt, CatchTypes(s.catches)))
             && fc == AnalyzeCatches(s.catches, [], fb.exc + {ERROR, RUNTIME_EXCEPTION}, EnterTry(env, abrupt, []))
    ensures var abrupt := !ff.completes;
            var left := NotCaught(st.h, fb.exc + {ERROR, RUNTIME_EXCEPTION}, CatchTypes(s.catches));
            var end := OutOfTry(Apply(InClauses(WithFinally(st, ff, abrupt), abrupt, fb), fc), abrupt, left);
            var ok := (fb.completes || fc.completes) && !abrupt;
            end.(canComplete := end.canComplete + If1(ok, s.id)) == After(s, st)
  {
    hide Analyze, AnalyzeTry, AnalyzeCatches, WithFinally, InClauses, OutOfTry, NotCaught, EnterTry, CatchTypes,
      FinallyFx;
    var r, env, abrupt := s.id in st.reachable, EnvOf(st), !ff.completes;
    var left := NotCaught(st.h, fb.exc + {ERROR, RUNTIME_EXCEPTION}, CatchTypes(s.catches));
    var end := OutOfTry(Apply(InClauses(WithFinally(st, ff, abrupt), abrupt, fb), fc), abrupt, left);
    LeaveTryScopes(st, ff, abrupt, fb, fc, left);
    var f, ok := Analyze(s, r, env), (fb.completes || fc.completes) && !abrupt;
    var exc := ff.exc + if abrupt then {} else fc.exc + left;
    TryEffects(s, r, env, ff, fb, fc);
    TryPieces(st, end, f, ff, fb, fc, exc, s.id, ok);
  }

  /** What each step of a try statement needs. */
  lemma {:induction false} TryPlan(s: Stmt, st: State, types: seq<Class>, r: bool)
    requires s.Try? && Ready(s, st)
    ensures var env := EnvOf(st);
            var ff := FinallyFx(s.fin, r, env);
            var abrupt := !ff.completes;
            var a := WithFinally(st, ff, abrupt);
            var fb := Analyze(s.body, r, EnterTry(env, abrupt, types));
            && (s.fin.Some? ==> Untouched(s.fin.value, st))
            && a.blocks != [] && Untouched(s.body, InTryBlock(a, abrupt, types))
            && EnvOf(InTryBlock(a, abrupt, types)) == EnterTry(env, abrupt, types)
            && ClausesReady(s.catches, InClauses(a, abrupt, fb))
            && EnvOf(InClauses(a, abrupt, fb)) == EnterTry(env, abrupt, [])
            && (abrupt ==> a.thrown != [] && a.abrupts != [])
  {
    hide Analyze;
    var env := EnvOf(st);
    var ff := FinallyFx(s.fin, r, env);
    var abrupt := !ff.completes;
    var fb := Analyze(s.body, r, EnterTry(env, abrupt, types));
    if s.fin.Some? {
      FinallyUntouched(s, st);
    }
    FinallyBounded(s, r, env);
    BodyBounded(s, r, env, abrupt, types);
    TryScopes(st, ff, abrupt, types, fb);
    TryBlockUntouched(s, st, ff, abrupt, types);
    TryClausesReady(s, st, ff, abrupt, fb);
  }
}
