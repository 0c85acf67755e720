/** The one-pass statement analysis: it sets flags of nodes, some of them far away, and pushes and
    pops stacks as it goes down the tree. */
module Semantic {
  import opened Classes
  import opened JavaAst
  import opened Options
  import opened Flow
  import opened FlowBounds
  import opened SemanticState
  import opened Runs
  import opened FlowSound
  import opened MethodBodies
  import opened ClauseReports
  import Causes
  import Completion
  import Embeddings
  import Gaps
  import Naming
  import NodeRuns

  class Analyzer {
    const h: Hierarchy
    const ctx: Context

    // Flags of the nodes.
    var reachable: set<Id>
    var canComplete: set<Id>

    // LocalSymbolTable (labels only), LocalBlockStack, BreakableStatementStack,
    // ContinuableStatementStack, AbruptFinallyStack, TryStatementStack, TryExceptionTableStack.
    var labels: seq<map<string, LabelInfo>>
    var blocks: seq<Id>
    var breakables: seq<Target>
    var continuables: seq<Target>
    var abrupts: seq<nat>
    var tries: seq<Frame>
    var thrown: seq<set<Class>>

    var errors: set<Error>

    constructor (h: Hierarchy, ctx: Context)
      ensures this.h == h && this.ctx == ctx
      ensures Snap() == State(h, ctx, {}, {}, [], [], [], [], [], [], [], {})
    {
      this.h, this.ctx := h, ctx;
      reachable, canComplete, errors := {}, {}, {};
      labels, blocks, breakables, continuables, abrupts, tries, thrown := [], [], [], [], [], [], [];
    }

    ghost function Snap(): State
      reads this
    {
      State(h, ctx, reachable, canComplete, labels, blocks, breakables, continuables, abrupts, tries, thrown, errors)
    }

    // ---- Exceptions

    method AnyCovers(types: seq<Class>, c: Class) returns (found: bool)
      ensures found == Covers(h, types, c)
    {
      for k := 0 to |types|
        invariant forall j :: 0 <= j < k ==> !IsSubclass(h, c, types[j])
      {
        if IsSubclass(h, c, types[k]) {
          return true;
        }
      }
      return false;
    }

    /** UncaughtException: the try statements from the innermost out, then the throws clauses. */
    method IsUncaught(c: Class) returns (uncaught: bool)
      ensures uncaught <==> Checked(h, c) && !Causes.Handled(h, tries, c) && !Causes.Announced(h, ctx, c)
      ensures uncaught == Uncaught(EnvOf(Snap()), c)
    {
      Causes.CaughtExact(h, tries, c);
      Causes.DeclaredIs(h, ctx, c);
      if !Checked(h, c) {
        return false;
      }
      var i := |tries|;
      assert tries[..i] == tries;
      while 0 < i
        invariant 0 <= i <= |tries|
        invariant CaughtByTries(h, tries, c) == CaughtByTries(h, tries[..i], c)
      {
        i := i - 1;
        assert tries[..i + 1][..i] == tries[..i];
        if tries[i].abrupt {
          return false;
        }
        var caught := AnyCovers(tries[i].catching, c);
        if caught {
          return false;
        }
      }
      match ctx
      case InMethod(throws) =>
        var declared := AnyCovers(throws, c);
        return !declared;
      case InInitializer(ctors) =>
        for k := 0 to |ctors|
          invariant forall j :: 0 <= j < k ==> Covers(h, ctors[j], c)
        {
          var declared := AnyCovers(ctors[k], c);
          if !declared {
            return true;
          }
        }
        return false;
    }

    /** One exception: it goes to the innermost set and is checked. */
    method ProcessThrown(id: Id, c: Class)
      modifies this`thrown, this`errors
      ensures Snap() == Apply(old(Snap()), ThrownFx(id, c, EnvOf(old(Snap()))))
    {
      ghost var st := Snap();
      if thrown != [] {
        thrown := thrown[..|thrown| - 1] + [thrown[|thrown| - 1] + {c}];
      }
      var uncaught := IsUncaught(c);
      assert uncaught == Uncaught(EnvOf(st), c);
      if uncaught {
        errors := errors + {UncaughtException(id, c)};
      }
    }

    /** A call or throw in node `id` that declares these exceptions. */
    method ProcessThrows(id: Id, throws: seq<Class>)
      modifies this`thrown, this`errors
      ensures Snap() == Apply(old(Snap()), Eval(id, throws, EnvOf(old(Snap()))))
    {
      hide Apply, Eval, ThrownFx;
      ghost var st, env := Snap(), EnvOf(Snap());
      EvalNothing(id, throws, env);
      ApplyNothing(st, false);
      for k := 0 to |throws|
        invariant Snap() == Apply(st, Eval(id, throws[..k], env)) && EnvOf(Snap()) == env
      {
        ProcessThrown(id, throws[k]);
        EvalExtends(id, throws, k, env);
        ApplyThen(st, Eval(id, throws[..k], env), ThrownFx(id, throws[k], env));
      }
      assert throws[..|throws|] == throws;
    }

    // ---- Flags

    method SetReachable(id: Id, value: bool)
      modifies this`reachable
      ensures reachable == if value then old(reachable) + {id} else old(reachable) - {id}
      ensures id !in old(reachable) ==> Snap() == old(Snap()).(reachable := old(reachable) + If1(value, id))
    {
      reachable := if value then reachable + {id} else reachable - {id};
    }

    method SetComplete(id: Id, value: bool)
      modifies this`canComplete
      ensures canComplete == if value then old(canComplete) + {id} else old(canComplete) - {id}
      ensures id !in old(canComplete) ==> Snap() == old(Snap()).(canComplete := old(canComplete) + If1(value, id))
    {
      canComplete := if value then canComplete + {id} else canComplete - {id};
    }

    /** Marks a node able to complete normally, on this condition. */
    method MarkComplete(id: Id, condition: bool)
      modifies this`canComplete
      ensures Snap() == old(Snap()).(canComplete := old(canComplete) + If1(condition, id))
    {
      if condition {
        canComplete := canComplete + {id};
      }
      assert canComplete == old(canComplete) + If1(condition, id);
    }

    /** ReportSemError, on this condition. */
    method Report(error: Error, condition: bool)
      modifies this`errors
      ensures Snap() == old(Snap()).(errors := old(errors) + If1(condition, error))
    {
      if condition {
        errors := errors + {error};
      }
      assert errors == old(errors) + If1(condition, error);
    }

    /** LabelSymbol lookup, innermost table first. */
    method FindLabel(name: string) returns (found: Option<LabelInfo>)
      ensures found == if name in Merge(labels) then Some(Merge(labels)[name]) else None
    {
      var i := |labels|;
      assert labels[..i] == labels;
      while 0 < i
        invariant 0 <= i <= |labels|
        invariant name in Merge(labels) <==> name in Merge(labels[..i])
        invariant name in Merge(labels) ==> Merge(labels)[name] == Merge(labels[..i])[name]
      {
        i := i - 1;
        assert labels[..i + 1][..i] == labels[..i];
        if name in labels[i] {
          return Some(labels[i][name]);
        }
      }
      return None;
    }

    // ---- Statements

    method ProcessStatement(s: Stmt)
      requires Ready(s, Snap())
      modifies this
      ensures Snap() == After(s, old(Snap()))
      decreases s, 5
    {
      match s
      case Simple(_, _) => ProcessPlainStatement(s);
      case Local(_, _, _) => ProcessPlainStatement(s);
      case Block(_, _, _) => ProcessBlock(s);
      case If(_, _, _, _) => ProcessIfStatement(s);
      case While(_, _, _) => ProcessWhileStatement(s);
      case Do(_, _, _) => ProcessDoStatement(s);
      case For(_, _, _, _, _) => ProcessForStatement(s);
      case Foreach(_, _, _, _, _) => ProcessForeachStatement(s);
      case Switch(_, _, _, _, _) => ProcessSwitchStatement(s);
      case Break(_, _) => ProcessBreakStatement(s);
      case Continue(_, _) => ProcessContinueStatement(s);
      case Return(_, _) => ProcessReturnStatement(s);
      case Throw(_, _, _) => ProcessThrowStatement(s);
      case Try(_, _, _, _) => ProcessTryStatement(s);
      case Sync(_, _, _) => ProcessSynchronizedStatement(s);
    }

    /** Local variable, expression, assert and empty statements: each can complete normally iff it is
        reachable. */
    method ProcessPlainStatement(s: Stmt)
      requires (s.Simple? || s.Local?) && Ready(s, Snap())
      modifies this
      ensures Snap() == After(s, old(Snap()))
    {
      ghost var st, r := Snap(), s.id in reachable;
      ProcessThrows(s.id, s.e.throws);
      SetComplete(s.id, s.id in reachable);
      ApplyThen(st, Eval(s.id, s.e.throws, EnvOf(st)), Fx(If1(r, s.id), If1(r, s.id), {}, {}, r));
      ApplyFlags(Apply(st, Eval(s.id, s.e.throws, EnvOf(st))), s.id, r);
    }

    /** Each statement is reachable iff the one before it can complete normally. */
    method ProcessInOrder(s: Stmt) returns (ok: bool, first: Option<Id>, ghost acc: Fx)
      requires s.Block? && SeqReady(s.stmts, Snap())
      modifies this
      ensures SeqProgress(s, |s.stmts|, old(Snap()), acc, first, Snap()) && acc.completes == ok
      ensures s.stmts != [] ==> (s.stmts[|s.stmts| - 1].id in canComplete <==> ok)
      decreases s, 0
    {
      ghost var st := Snap();
      SeqStart(s, st);
      hide Analyze;
      hide SeqProgress;
      hide SeqReady;
      hide Ready;
      hide After;
      var ss := s.stmts;
      ok, first := s.id in reachable, None;
      acc := Fx({}, {}, {}, {}, ok);
      for i := 0 to |ss|
        invariant SeqProgress(s, i, st, acc, first, Snap()) && acc.completes == ok
        invariant i > 0 ==> (ss[i - 1].id in canComplete <==> ok)
      {
        SeqStep(s, i, st, acc, first, Snap());
        SetReachable(ss[i].id, ok);
        first := if !ok && first.None? then Some(ss[i].id) else first;
        ProcessStatement(ss[i]);
        acc := acc.Then(Analyze(ss[i], ok, EnvOf(st)));
        ok := ss[i].id in canComplete;
      }
    }

    /** The statements of the block just opened, which is s itself or, for a switch group, the block of
        the switch. */
    method ProcessBlockStatements(s: Stmt)
      requires s.Block? && SeqReady(s.stmts, Snap()) && s.id !in canComplete && s.id !in IdsOf(s.stmts)
      modifies this
      ensures Snap() == AfterStatements(s, old(Snap()))
      ensures s.stmts != [] ==>
                (s.stmts[|s.stmts| - 1].id in canComplete <==>
                 AnalyzeSeq(s.stmts, s.id in old(reachable), EnvOf(old(Snap()))).completes)
      decreases s, 1
    {
      hide AfterStatements, SeqProgress, SeqReady, AnalyzeSeq, IdsOf, Ids, EnvOf;
      ghost var st := Snap();
      SeqReadyParts(s.stmts, st);
      var ok, first, acc := ProcessInOrder(s);
      SeqEnd(s, st, acc, first, Snap());
      if s.stmts != [] {
        IdsMember(s.stmts, |s.stmts| - 1);
      }
      MarkComplete(s.id, ok);
      var gap := first.Some? && blocks[|blocks| - 1] in reachable;
      Report(UnreachableStatement(if gap then first.value else 0), gap);
    }

    /** Opens block s: its label, if new, goes to a symbol table of its own. */
    method PushLabelled(s: Stmt)
      requires s.Block?
      modifies this`labels, this`blocks, this`errors
      ensures blocks == old(blocks) + [s.id] && |labels| == |old(labels)| + 1 && labels[..|old(labels)|] == old(labels)
      ensures errors == old(errors) + LabelErrors(s.id, s.tag, EnvOf(old(Snap())))
      ensures EnvOf(Snap()) == EnterBlock(s.id, s.tag, s.stmts, EnvOf(old(Snap())))
    {
      ghost var st := Snap();
      var table: map<string, LabelInfo> := map[];
      if s.tag.Some? {
        var known := FindLabel(s.tag.value);
        if known.Some? {
          errors := errors + {DuplicateLabel(s.id)};
        } else {
          table := map[s.tag.value := LabelInfo(Target(s.id, |blocks|), LoopBodyOf(s.stmts))];
        }
      }
      labels := labels + [table];
      blocks := blocks + [s.id];
      PushBlock(s, st, Snap(), table);
    }

    method ProcessBlock(s: Stmt)
      requires BlockReady(s, Snap())
      modifies this
      ensures Snap() == AfterBlock(s, old(Snap()))
      decreases s, 2
    {
      hide BlockReady, SeqReady, AfterStatements, AfterBlock, EnvOf, EnterBlock, LabelErrors, IdsOf;
      ghost var st := Snap();
      BlockReadyParts(s, st);
      PushLabelled(s);
      ghost var st1 := Snap();
      SeqInBlock(s, st, st1);
      AfterStatementsKeepsStacks(s, st1);
      LeaveBlockScope(s, st, st1);
      ProcessBlockStatements(s);
      assert Pop(labels) == st.labels && Pop(blocks) == st.blocks;
      PopBlock();
    }

    /** Block b, reachable on this condition. */
    method ProcessPart(b: Stmt, r: bool)
      requires Untouched(b, Snap())
      modifies this
      ensures Snap() == Apply(old(Snap()), Analyze(b, r, EnvOf(old(Snap()))))
      ensures b.id in canComplete <==> Analyze(b, r, EnvOf(old(Snap()))).completes
      decreases b, 3
    {
      hide Analyze, BlockReady, AfterBlock;
      ProcessUntouched(b, Snap(), r);
      SetReachable(b.id, r);
      ProcessBlock(b);
    }

    method ProcessIfStatement(s: Stmt)
      requires s.If? && Ready(s, Snap())
      modifies this
      ensures Snap() == After(s, old(Snap()))
      decreases s, 3
    {
      ghost var st, env := Snap(), EnvOf(Snap());
      var r := s.id in reachable;
      ghost var f := Eval(s.id, s.cond.throws, env);
      ghost var ft := Analyze(s.thn, r, env);
      IfParts(s, st, f, r);
      assert Analyze(s, r, env) == AnalyzeIf(s, r, env);
      hide Analyze;
      hide Ready;
      hide Untouched;
      hide Eval;
      ProcessThrows(s.id, s.cond.throws);
      NextPart(st, f, s.thn, r);
      ProcessPart(s.thn, r);
      f := f.Then(ft);
      var ok := r;
      if s.els.Some? {
        ok := s.thn.id in canComplete;
        NextPart(st, f, s.els.value, r);
        ProcessPart(s.els.value, r);
        f := f.Then(Analyze(s.els.value, r, env));
        ok := ok || s.els.value.id in canComplete;
      }
      FinishStatement(st, f, s, ok);
      hide After;
      hide Apply;
      MarkComplete(s.id, ok);
    }

    method ProcessSynchronizedStatement(s: Stmt)
      requires s.Sync? && Ready(s, Snap())
      modifies this
      ensures Snap() == After(s, old(Snap()))
      decreases s, 3
    {
      hide Ready, Untouched, Eval, After, Apply;
      ghost var st, env := Snap(), EnvOf(Snap());
      var r := s.id in reachable;
      ghost var f := Eval(s.id, s.e.throws, env);
      SyncParts(s, st, f);
      ProcessThrows(s.id, s.e.throws);
      NextPart(st, f, s.body, r);
      ProcessPart(s.body, r);
      f := f.Then(Analyze(s.body, r, env));
      var ok := s.body.id in canComplete;
      FinishStatement(st, f, s, ok);
      MarkComplete(s.id, ok);
    }

    // ---- Loops

    method PushLoop(body: Id)
      requires blocks != []
      modifies this`breakables, this`continuables
      ensures Snap() == InLoop(old(Snap()), body)
    {
      var level := |blocks| - 1;
      breakables := breakables + [Target(blocks[level], level)];
      continuables := continuables + [Target(body, level)];
    }

    method PopLoop()
      requires breakables != [] && continuables != []
      modifies this`breakables, this`continuables
      ensures Snap() == OutOfLoop(old(Snap()))
    {
      breakables := breakables[..|breakables| - 1];
      continuables := continuables[..|continuables| - 1];
    }

    /** A foreach statement can complete normally iff it is reachable. */
    method ProcessForeachStatement(s: Stmt)
      requires s.Foreach? && Ready(s, Snap())
      modifies this
      ensures Snap() == After(s, old(Snap()))
      decreases s, 3
    {
      ghost var st, env := Snap(), EnvOf(Snap());
      var r := s.id in reachable;
      ghost var f := Eval(s.id, s.e.throws, env);
      ghost var inner := InLoop(st, s.body.id);
      LoopEval(s, st, s.e.throws);
      LoopScope(st, s.body.id, f);
      ghost var fb := f.Then(Analyze(s.body, r, EnterLoop(s.body.id, env)));
      FinishStatement(st, fb, s, r);
      hide Analyze;
      hide Ready;
      hide Untouched;
      hide Eval;
      PushLoop(s.body.id);
      ProcessThrows(s.id, s.e.throws);
      NextPart(inner, f, s.body, r);
      ProcessPart(s.body, r);
      LoopScope(st, s.body.id, fb);
      hide After;
      MarkComplete(s.id, r);
      PopLoop();
    }

    /** The loop condition comes after the body. */
    method ProcessDoStatement(s: Stmt)
      requires s.Do? && Ready(s, Snap())
      modifies this
      ensures Snap() == After(s, old(Snap()))
      decreases s, 3
    {
      ghost var st, env := Snap(), EnvOf(Snap());
      var r, top := s.id in reachable, blocks[|blocks| - 1];
      ghost var inner := InLoop(st, s.body.id);
      ghost var fb := Analyze(s.body, r, EnterLoop(s.body.id, env));
      ghost var fe := Eval(s.id, s.cond.throws, env);
      LoopBodyUntouched(s, st);
      LoopScope(st, s.body.id, fb.Then(fe));
      LoopMark(s, st, fb.Then(fe));
      EvalElsewhere(s.id, s.cond.throws, env, EnvOf(inner));
      ApplyThen(inner, fb, fe);
      ApplyKeepsStacks(inner, fb);
      FinishStatement(st, fb.Then(fe), s, (fb.completes && CanBe(s.cond, false)) || top in fb.done);
      hide Analyze;
      hide Ready;
      hide Untouched;
      hide Eval;
      PushLoop(s.body.id);
      ProcessPart(s.body, r);
      var body := s.body.id in canComplete;
      ProcessThrows(s.id, s.cond.throws);
      hide After;
      MarkComplete(s.id, (body && CanBe(s.cond, false)) || top in canComplete);
      PopLoop();
    }

    /** Initialisers or updates, whose reachable flags nobody sets. */
    method ProcessHeaders(ss: seq<Stmt>)
      requires HeadersReady(ss, Snap())
      modifies this
      ensures Snap() == Apply(old(Snap()), AnalyzeHeaders(ss, EnvOf(old(Snap()))))
    {
      ghost var st, acc := Snap(), Fx({}, {}, {}, {}, false);
      ApplyNothing(st, false);
      NothingThen(AnalyzeHeaders(ss, EnvOf(st)));
      assert ss[0..] == ss;
      for k := 0 to |ss|
        invariant Snap() == Apply(st, acc) && acc.reach == {} && acc.done == {}
        invariant acc.Then(AnalyzeHeaders(ss[k..], EnvOf(st))) == AnalyzeHeaders(ss, EnvOf(st))
      {
        HeaderStep(ss, k, st, acc);
        hide *;
        ProcessPlainStatement(ss[k]);
        acc := acc.Then(Analyze(ss[k], false, EnvOf(st)));
      }
      assert ss[|ss|..] == [] && acc.Then(Fx({}, {}, {}, {}, false)) == AnalyzeHeaders(ss, EnvOf(st));
      assert Apply(st, acc) == Apply(st, acc.Then(Fx({}, {}, {}, {}, false)));
    }

    /** While and for statements after the initialisers: condition, body, updates. A constant true
        condition cannot end the loop, a constant false one cannot enter the body. */
    method ProcessLoop(s: Stmt, c: Expr, update: seq<Stmt>)
      requires IsLoop(s) && Ready(s, Snap()) && HeadersReady(update, Snap())
      requires forall k :: 0 <= k < |update| ==> update[k].id !in Ids(s.body)
      modifies this
      ensures Snap() == Apply(old(Snap()), LoopRest(s, c, update, s.id in old(reachable), EnvOf(old(Snap()))))
      decreases s, 3
    {
      hide Analyze, AnalyzeHeaders, Ready, HeadersReady, Untouched, Eval, LoopRest, Ids, Shape, Apply, EnvOf, InLoop,
        OutOfLoop;
      LoopReadyParts(s, Snap());
      ghost var s1, s2, s3, s4 := LoopPlanned(s, Snap(), c, update);
      var r, top, enters := s.id in reachable, blocks[|blocks| - 1], CanBe(c, true);
      PushLoop(s.body.id);
      ProcessThrows(s.id, c.throws);
      ProcessPart(s.body, r && enters);
      Report(UnreachableStatement(s.body.id), r && !enters);
      ProcessHeaders(update);
      MarkComplete(s.id, (r && CanBe(c, false)) || top in canComplete);
      PopLoop();
    }

    method ProcessWhileStatement(s: Stmt)
      requires s.While? && Ready(s, Snap())
      modifies this
      ensures Snap() == After(s, old(Snap()))
      decreases s, 4
    {
      hide After;
      WhileIsLoopRest(s, Snap());
      ProcessLoop(s, s.cond, []);
    }

    method ProcessForStatement(s: Stmt)
      requires s.For? && Ready(s, Snap())
      modifies this
      ensures Snap() == After(s, old(Snap()))
      decreases s, 4
    {
      ghost var st := Snap();
      ghost var fi := AnalyzeHeaders(s.init, EnvOf(st));
      ForHeadersReady(s, st);
      ForIsLoopRest(s, st);
      HeadersBounded(s.init, EnvOf(st));
      ReadyAfterHeaders(s, st, fi);
      hide After;
      hide Ready;
      hide LoopRest;
      ProcessHeaders(s.init);
      assert s.id in reachable <==> s.id in st.reachable;
      ProcessLoop(s, ForCondition(s.end), s.update);
    }

    // ---- Switch

    method PushGroup()
      requires blocks != []
      modifies this`labels, this`blocks
      ensures Snap() == InGroup(old(Snap()))
    {
      labels := labels + [map[]];
      blocks := blocks + [blocks[|blocks| - 1]];
    }

    method PopBlock()
      requires labels != [] && blocks != []
      modifies this`labels, this`blocks
      ensures Snap() == old(Snap()).(labels := Pop(old(labels)), blocks := Pop(old(blocks)))
    {
      blocks := blocks[..|blocks| - 1];
      labels := labels[..|labels| - 1];
    }

    /** One group, in the innermost block, that of the switch; `last` is the flag of its last statement. */
    method ProcessGroup(g: Stmt, r: bool) returns (last: bool)
      requires GroupReady(g, Snap()) && (r <==> EnvOf(Snap()).top in reachable)
      modifies this
      ensures Snap() == Apply(old(Snap()), GroupFx(g, r, EnvOf(old(Snap()))))
      ensures last == GroupFx(g, r, EnvOf(old(Snap()))).completes
      decreases g, 2
    {
      ghost var now := Snap();
      assert g.Block? && g.stmts != [] && now.blocks != [];
      hide GroupReady;
      hide SeqReady;
      hide AfterStatements;
      hide AnalyzeSeq;
      hide Apply;
      hide EnvOf;
      ghost var marked := now.(reachable := now.reachable + If1(r, g.id));
      ghost var inside := InGroup(marked);
      GroupOpens(g, now, r);
      GroupCloses(g, now, r);
      GroupCompletes(g, now, r);
      AfterStatementsKeepsStacks(g, inside);
      GroupPops(marked, AfterStatements(g, inside));
      hide InGroup;
      hide GroupFx;
      hide IdsOf;
      SetReachable(g.id, r);
      PushGroup();
      ProcessBlockStatements(g);
      last := g.stmts[|g.stmts| - 1].id in canComplete;
      PopBlock();
    }

    /** The groups of the switch whose block was opened last; `last` is the flag of the last statement of
        the last group. */
    method ProcessGroups(gs: seq<Stmt>, r: bool) returns (last: bool)
      requires GroupsReady(gs, Snap()) && (r <==> EnvOf(Snap()).top in reachable)
      modifies this
      ensures Snap() == Apply(old(Snap()), AnalyzeGroups(gs, r, false, EnvOf(old(Snap()))))
      ensures last == AnalyzeGroups(gs, r, false, EnvOf(old(Snap()))).completes
      decreases gs, 0
    {
      ghost var st := Snap();
      ghost var acc := Fx({}, {}, {}, {}, false);
      GroupsStart(gs, st, r);
      hide GroupReady;
      hide GroupsReady;
      hide AnalyzeGroups;
      hide GroupFx;
      hide Apply;
      last := false;
      for i := 0 to |gs|
        invariant GroupsProgress(gs, i, st, r, acc, Snap()) && last == acc.completes
      {
        GroupsProgressStep(gs, i, st, r, acc, Snap());
        hide GroupsProgress;
        last := ProcessGroup(gs[i], r);
        acc := acc.Then(GroupFx(gs[i], r, EnvOf(st)));
      }
      GroupsEnd(gs, st, r, acc, Snap());
    }

    method ProcessSwitchStatement(s: Stmt)
      requires s.Switch? && Ready(s, Snap())
      modifies this
      ensures Snap() == After(s, old(Snap()))
      decreases s, 3
    {
      hide Analyze, AnalyzeGroups, GroupsReady, Ready, Eval, After, Apply;
      ghost var st := Snap();
      var r := s.id in reachable;
      SwitchSteps(s, st);
      SwitchFinish(s, st);
      PushSwitch(s.blockId);
      ProcessThrows(s.id, s.e.throws);
      SetReachable(s.blockId, r);
      var last := ProcessGroups(s.groups, r);
      MarkComplete(s.id, s.blockId in canComplete || !s.hasDefault || last);
      PopSwitch();
    }

    method PushSwitch(blockId: Id)
      modifies this`labels, this`blocks, this`breakables
      ensures Snap() == InSwitch(old(Snap()), blockId)
    {
      labels := labels + [map[]];
      breakables := breakables + [Target(blockId, |blocks|)];
      blocks := blocks + [blockId];
    }

    method PopSwitch()
      requires labels != [] && blocks != [] && breakables != []
      modifies this`labels, this`blocks, this`breakables
      ensures Snap() == OutOfSwitch(old(Snap()))
    {
      breakables := breakables[..|breakables| - 1];
      blocks := blocks[..|blocks| - 1];
      labels := labels[..|labels| - 1];
    }

    // ---- Try

    /** The exceptions found that are subclasses of cls, and whether any is a subclass or superclass. */
    method Classify(found: set<Class>, cls: Class) returns (caught: set<Class>, any: bool)
      ensures caught == set x | x in found && IsSubclass(h, x, cls)
      ensures any == CatchReachable(h, found, cls)
    {
      var rest := found;
      caught, any := {}, false;
      while rest != {}
        invariant rest <= found
        invariant caught == set x | x in found - rest && IsSubclass(h, x, cls)
        invariant any == CatchReachable(h, found - rest, cls)
      {
        var x :| x in rest;
        if IsSubclass(h, x, cls) {
          caught, any := caught + {x}, true;
        } else if IsSubclass(h, cls, x) {
          any := true;
        }
        assert found - (rest - {x}) == found - rest + {x};
        rest := rest - {x};
      }
      assert found - rest == found;
    }

    /** A clause after those with the types `before`. Only one that can catch something and is not blocked
        is processed, but the block of each is marked reachable. */
    method ProcessClause(c: Catch, before: seq<Class>, found: set<Class>) returns (done: bool, caught: set<Class>)
      requires Untouched(c.body, Snap()) && c.body.id !in reachable
      modifies this
      ensures Snap() == Apply(old(Snap()), ClauseFx(c, before, found, EnvOf(old(Snap()))))
      ensures done == ClauseFx(c, before, found, EnvOf(old(Snap()))).completes
      ensures caught == set x | x in found && IsSubclass(h, x, c.cls)
      decreases c
    {
      hide Analyze, Untouched, CatchReachable, Covers;
      var any, blocked;
      caught, any := Classify(found, c.cls);
      blocked := AnyCovers(before, c.cls);
      done := false;
      ReportedClause(Snap(), c.body.id, UnreachableCatch(c.body.id));
      ReportedClause(Snap(), c.body.id, BlockedCatch(c.body.id));
      if !any {
        SetReachable(c.body.id, true);
        Report(UnreachableCatch(c.body.id), true);
      } else if blocked {
        SetReachable(c.body.id, true);
        Report(BlockedCatch(c.body.id), true);
      } else {
        assert c.body < c;
        ProcessPart(c.body, true);
        done := c.body.id in canComplete;
      }
    }

    /** The clauses in order; `catchable` collects what they definitely catch. */
    method ProcessClauses(cs: seq<Catch>, found: set<Class>) returns (done: bool, catchable: set<Class>)
      requires ClausesReady(cs, Snap())
      modifies this
      ensures Snap() == Apply(old(Snap()), AnalyzeCatches(cs, [], found, EnvOf(old(Snap()))))
      ensures done == AnalyzeCatches(cs, [], found, EnvOf(old(Snap()))).completes
      ensures catchable == set x | x in found && Covers(h, CatchTypes(cs), x)
      decreases cs, 4
    {
      ghost var st, acc, env := Snap(), Fx({}, {}, {}, {}, false), EnvOf(Snap());
      assert st.blocks != [] && env.level > 0;
      ClausesStart(cs, found, st);
      hide ClausesReady;
      hide ClausesProgress;
      hide Analyze;
      hide AnalyzeCatches;
      hide ClauseFx;
      hide Untouched;
      hide Apply;
      hide EnvOf;
      hide Covers;
      var types := CatchTypes(cs);
      done, catchable := false, {};
      for i := 0 to |cs|
        invariant ClausesProgress(cs, i, found, st, acc, Snap()) && done == acc.completes
        invariant catchable == set x | x in found && Covers(h, types[..i], x)
      {
        ClausesStep(cs, i, found, st, acc, Snap());
        CoversNext(h, types, i, found);
        var completes, caught := ProcessClause(cs[i], types[..i], found);
        acc := Join(acc, ClauseFx(cs[i], types[..i], found, env));
        done, catchable := done || completes, catchable + caught;
      }
      ClausesEnd(cs, found, st, acc, Snap());
      assert types[..|cs|] == types;
    }

    /** If the finally clause cannot complete normally, it drops the exceptions and jumps of the try block
        and the clauses. */
    method ProcessFinally(fin: Option<Stmt>, r: bool) returns (abrupt: bool)
      requires blocks != [] && (fin.Some? ==> Untouched(fin.value, Snap()))
      modifies this
      ensures var ff := FinallyFx(fin, r, EnvOf(old(Snap())));
              abrupt == !ff.completes && Snap() == WithFinally(old(Snap()), ff, abrupt)
      decreases fin, 4
    {
      hide Analyze, Untouched;
      abrupt := false;
      ApplyNothing(Snap(), true);
      if fin.Some? {
        ProcessPart(fin.value, r);
        abrupt := fin.value.id !in canComplete;
        if abrupt {
          thrown := thrown + [{}];
          abrupts := abrupts + [|blocks|];
        }
      }
    }

    /** The try block, its exceptions collected in a set of their own. */
    method ProcessTryBlock(b: Stmt, abrupt: bool, types: seq<Class>, r: bool) returns (done: bool, found: set<Class>)
      requires blocks != [] && Untouched(b, InTryBlock(Snap(), abrupt, types))
      modifies this
      ensures var fb := Analyze(b, r, EnvOf(InTryBlock(old(Snap()), abrupt, types)));
              && Snap() == InClauses(old(Snap()), abrupt, fb)
              && done == fb.completes && found == fb.exc + {ERROR, RUNTIME_EXCEPTION}
      decreases b, 4
    {
      hide Analyze, Untouched, EnvOf, Apply;
      ghost var st := Snap();
      LevelOf(InTryBlock(st, abrupt, types));
      ghost var fb := Analyze(b, r, EnvOf(InTryBlock(st, abrupt, types)));
      TryBlockScopes(st, abrupt, types, fb);
      tries := tries + [Frame(abrupt, types)];
      thrown := thrown + [{}];
      ProcessPart(b, r);
      done := b.id in canComplete;
      tries := tries[..|tries| - 1] + [Frame(abrupt, [])];
      found := thrown[|thrown| - 1] + {ERROR, RUNTIME_EXCEPTION};
      thrown := thrown[..|thrown| - 1];
    }

    /** The finally clause comes first, then the try block, then the clauses. */
    method ProcessTryStatement(s: Stmt)
      requires s.Try? && Ready(s, Snap())
      modifies this
      ensures Snap() == After(s, old(Snap()))
      decreases s, 4
    {
      ghost var st, env := Snap(), EnvOf(Snap());
      var r, types := s.id in reachable, CatchTypes(s.catches);
      assert st.blocks != [] && env.level > 0;
      hide Ready;
      hide Analyze;
      hide AnalyzeCatches;
      hide FinallyFx;
      hide WithFinally;
      hide InTryBlock;
      hide InClauses;
      hide OutOfTry;
      hide EnvOf;
      hide Untouched;
      hide ClausesReady;
      hide Apply;
      hide After;
      hide EnterTry;
      hide Covers;
      hide NotCaught;
      hide CatchTypes;
      TryPlan(s, st, types, r);
      ghost var ff := FinallyFx(s.fin, r, env);
      ghost var a := WithFinally(st, ff, !ff.completes);
      ghost var fb := Analyze(s.body, r, EnterTry(env, !ff.completes, types));
      var abrupt := ProcessFinally(s.fin, r);
      var ok, found := ProcessTryBlock(s.body, abrupt, types, r);
      var done, catchable := ProcessClauses(s.catches, found);
      ghost var fc := AnalyzeCatches(s.catches, [], found, EnterTry(env, abrupt, []));
      TryFinish(s, st, ff, fb, fc);
      ClauseStacks(a, abrupt, fb, fc);
      LeftIsNotCaught(h, found, types, catchable);
      LeaveTry(abrupt, found - catchable);
      MarkComplete(s.id, (ok || done) && !abrupt);
    }

    /** What the clauses leave uncaught goes to the enclosing try statement. */
    method LeaveTry(abrupt: bool, left: set<Class>)
      requires tries != [] && (abrupt ==> thrown != [] && abrupts != [])
      modifies this`tries, this`thrown, this`abrupts
      ensures Snap() == OutOfTry(old(Snap()), abrupt, left)
    {
      tries := tries[..|tries| - 1];
      if thrown != [] {
        thrown := thrown[..|thrown| - 1] + [thrown[|thrown| - 1] + left];
      }
      if abrupt {
        thrown := thrown[..|thrown| - 1];
        abrupts := abrupts[..|abrupts| - 1];
      }
    }

    // ---- Jumps

    method AbruptLevel() returns (level: nat)
      ensures level == EnvOf(Snap()).abrupt
    {
      level := if abrupts == [] then 0 else abrupts[|abrupts| - 1];
    }

    /** The target can complete normally if the break is reachable and no abrupt finally clause discards
        it. */
    method ProcessBreakStatement(s: Stmt)
      requires s.Break? && Ready(s, Snap())
      modifies this
      ensures Snap() == After(s, old(Snap()))
    {
      hide After;
      ghost var st, env := Snap(), EnvOf(Snap());
      var r := s.id in reachable;
      ghost var marks := if r then Mark(BreakTarget(s.target, env), env) else {};
      JumpTo(s, st, marks, BreakErrors(s.id, s.target, env));
      var abrupt := AbruptLevel();
      var target: Option<Target> := None;
      if s.target.Some? {
        var found := FindLabel(s.target.value);
        if found.Some? {
          target := Some(found.value.target);
        }
      } else if breakables != [] {
        target := Some(breakables[|breakables| - 1]);
      }
      assert target == BreakTarget(s.target, env);
      if target.Some? && r && abrupt < target.value.level {
        canComplete := canComplete + {target.value.id};
      }
      if target.None? {
        errors := errors + {if s.target.Some? then UndeclaredLabel(s.id) else MisplacedBreak(s.id)};
      }
      assert canComplete == st.canComplete + marks;
      assert errors == st.errors + BreakErrors(s.id, s.target, env);
    }

    /** The loop body is marked whether or not the continue is reachable. */
    method ProcessContinueStatement(s: Stmt)
      requires s.Continue? && Ready(s, Snap())
      modifies this
      ensures Snap() == After(s, old(Snap()))
    {
      hide After;
      ghost var st, env := Snap(), EnvOf(Snap());
      JumpTo(s, st, Mark(ContinueTarget(s.target, env), env), ContinueErrors(s.id, s.target, env));
      var abrupt := AbruptLevel();
      var target: Option<Target> := None;
      if continuables == [] {
        errors := errors + {MisplacedContinue(s.id)};
      } else if s.target.Some? {
        var found := FindLabel(s.target.value);
        if found.None? {
          errors := errors + {UndeclaredLabel(s.id)};
        } else if found.value.loopBody.None? {
          errors := errors + {InvalidContinueTarget(s.id)};
        } else {
          target := Some(Target(found.value.loopBody.value, found.value.target.level));
        }
      } else {
        target := Some(continuables[|continuables| - 1]);
      }
      assert target == ContinueTarget(s.target, env);
      if target.Some? && abrupt < target.value.level {
        canComplete := canComplete + {target.value.id};
      }
      assert canComplete == st.canComplete + Mark(target, env);
      assert errors == st.errors + ContinueErrors(s.id, s.target, env);
    }

    method ProcessReturnStatement(s: Stmt)
      requires s.Return? && Ready(s, Snap())
      modifies this
      ensures Snap() == After(s, old(Snap()))
    {
      JumpAway(s, Snap(), Eval(s.id, s.e.throws, EnvOf(Snap())));
      ProcessThrows(s.id, s.e.throws);
    }

    method ProcessThrowStatement(s: Stmt)
      requires s.Throw? && Ready(s, Snap())
      modifies this
      ensures Snap() == After(s, old(Snap()))
    {
      hide After, Eval;
      ghost var st, env := Snap(), EnvOf(Snap());
      JumpAway(s, st, Eval(s.id, s.e.throws + [s.cls], env));
      EvalConcat(s.id, s.e.throws, [s.cls], env);
      ApplyThen(st, Eval(s.id, s.e.throws, env), Eval(s.id, [s.cls], env));
      ApplyKeepsStacks(st, Eval(s.id, s.e.throws, env));
      ProcessThrows(s.id, s.e.throws);
      ProcessThrows(s.id, [s.cls]);
    }

    // ---- Methods

    /** A method body, the outermost block. An accepted void method ends in an added return statement. */
    method ProcessMethodBody(body: Stmt, isVoid: bool)
      requires IsPlain(body) && Shape(body) && Unique(body)
      requires Snap() == State(h, ctx, {}, {}, [], [], [], [], [], [], [], {})
      modifies this
      ensures var f := AnalyzeBody(body, isVoid, h, ctx);
              && reachable == f.reach && errors == f.errs
              && canComplete == if isVoid then f.done - {body.id} else f.done
    {
      hide AnalyzeBlock, AfterStatements, SeqReady, Shape, Unique, IdsOf;
      reachable := {body.id};
      ghost var st := Snap();
      blocks := [body.id];
      OpenBody(body, st, Snap());
      ProcessBlockStatements(body);
      blocks := [];
      if body.id in canComplete {
        if isVoid {
          canComplete := canComplete - {body.id};
        } else {
          errors := errors + {MissingReturn(body.id)};
        }
      }
    }
  }

  /** The whole pass over a method body, and what it promises of every run of that body. */
  method CheckMethod(body: Stmt, isVoid: bool, h: Hierarchy, ctx: Context) returns (a: Analyzer)
    requires IsPlain(body) && Shape(body) && Unique(body)
    ensures fresh(a) && a.errors == AnalyzeBody(body, isVoid, h, ctx).errs
    ensures NamesResolve(a.errors) ==>
              forall r: Run, q: Run :: r.at == body && Valid(h, r, None) && Within(q, r) ==>
                || q.at.id in Headers(body)
                || (q.at.id in a.reachable && (q.out.Normal? && q.at.id != body.id ==> q.at.id in a.canComplete))
    ensures NamesResolve(a.errors) ==>
              forall r: Run, q: Run :: r.at == body && Valid(h, r, None) && Within(q, r) ==>
                UnreachableCatch(q.at.id) !in a.errors && BlockedCatch(q.at.id) !in a.errors
    ensures NamesResolve(a.errors) && NoneUncaught(a.errors) ==>
              forall r: Run :: r.at == body && Valid(h, r, None) && r.out.ThrowOut? && Checked(h, r.out.cls) ==>
                Declared(h, ctx, r.out.cls)
    ensures NamesResolve(a.errors) && !isVoid && MissingReturn(body.id) !in a.errors ==>
              forall r: Run :: r.at == body && Valid(h, r, None) ==> !r.out.Normal?
    ensures Completion.Quiet(a.errors) && Completion.Live(h, body) ==>
              && (MissingReturn(body.id) in a.errors <==> !isVoid && Embeddings.Ends(h, body, None, Normal))
              && (forall id :: id in a.reachable ==> NodeRuns.Executes(h, body, None, id))
              && forall id :: id in a.canComplete ==> NodeRuns.Completed(h, body, id)
    ensures forall i, c :: UncaughtException(i, c) in a.errors <==>
              Checked(h, c) && !Causes.Announced(h, ctx, c) && EscapesBody(body, isVoid, h, ctx, i, c)
    ensures NoClause(a.errors) ==>
              forall e :: e in a.errors && e.IsNaming() <==> e in Naming.Misnamed(body, Naming.NO_LABELS)
    ensures forall i :: UnreachableStatement(i) in a.errors <==> Gaps.Gap(body, a.reachable, i)
    ensures NamesResolve(a.errors) ==>
              forall i :: UnreachableStatement(i) in a.errors ==> !NodeRuns.Executes(h, body, None, i)
  {
    hide AnalyzeBody, Valid, Within, Shape, Unique, Headers, NoneUncaught, Completion.Live, Completion.Quiet,
      Embeddings.Ends, NodeRuns.Executes, NodeRuns.Completed, Checked, Causes.Announced, Causes.Escapes,
      Naming.Misnamed, Gaps.Gap;
    a := new Analyzer(h, ctx);
    a.ProcessMethodBody(body, isVoid);
    BodyReported(body, isVoid, h, ctx);
    GapsReported(body, isVoid, h, ctx);
    if NamesResolve(a.errors) {
      forall r: Run | r.at == body && Valid(h, r, None)
        ensures Promised(body, isVoid, h, ctx, r)
      {
        RunPromised(body, isVoid, h, ctx, r);
      }
    }
  }

  /** Exception c of node i leaves the body, by the final flags and the clauses reported. */
  predicate EscapesBody(body: Stmt, isVoid: bool, h: Hierarchy, ctx: Context, i: Id, c: Class)
    requires body.Block?
  {
    var f := AnalyzeBody(body, isVoid, h, ctx);
    Causes.Escapes(h, body, f.done, Causes.ReportedClauses(body, f), i, c)
  }

  /** Unreachable statements are reported where the marks end, and never run. */
  lemma {:induction false} GapsReported(body: Stmt, isVoid: bool, h: Hierarchy, ctx: Context)
    requires IsPlain(body) && Shape(body) && Unique(body)
    ensures var f := AnalyzeBody(body, isVoid, h, ctx);
            && (forall i :: UnreachableStatement(i) in f.errs <==> Gaps.Gap(body, f.reach, i))
            && (NamesResolve(f.errs) ==>
                  forall i :: UnreachableStatement(i) in f.errs ==> !NodeRuns.Executes(h, body, None, i))
  {
    hide AnalyzeBody, Shape, Unique, NodeRuns.Executes, Gaps.Gap;
    var f := AnalyzeBody(body, isVoid, h, ctx);
    forall i ensures UnreachableStatement(i) in f.errs <==> Gaps.Gap(body, f.reach, i) {
      Gaps.BodyGapsExact(body, isVoid, h, ctx, i);
    }
    if NamesResolve(f.errs) {
      forall i | UnreachableStatement(i) in f.errs ensures !NodeRuns.Executes(h, body, None, i) {
        Gaps.ReportedNeverRuns(body, isVoid, h, ctx, i);
      }
    }
  }

  /** What the analysis of a method body marks and reports is there for a reason. */
  lemma {:induction false} BodyReported(body: Stmt, isVoid: bool, h: Hierarchy, ctx: Context)
    requires IsPlain(body) && Shape(body) && Unique(body)
    ensures var f := AnalyzeBody(body, isVoid, h, ctx);
            && (Completion.Quiet(f.errs) && Completion.Live(h, body) ==>
                  && (MissingReturn(body.id) in f.errs <==> !isVoid && Embeddings.Ends(h, body, None, Normal))
                  && (forall id :: id in f.reach ==> NodeRuns.Executes(h, body, None, id))
                  && forall id :: id in f.done ==> NodeRuns.Completed(h, body, id))
            && (forall i, c :: UncaughtException(i, c) in f.errs <==>
                  Checked(h, c) && !Causes.Announced(h, ctx, c) && EscapesBody(body, isVoid, h, ctx, i, c))
            && (NoClause(f.errs) ==>
                  forall e :: e in f.errs && e.IsNaming() <==> e in Naming.Misnamed(body, Naming.NO_LABELS))
  {
    hide AnalyzeBody, Shape, Unique, Completion.Live, Embeddings.Ends, NodeRuns.Executes, NodeRuns.Completed,
      Checked, Causes.Announced, Causes.Escapes, Naming.Misnamed;
    var f := AnalyzeBody(body, isVoid, h, ctx);
    forall i, c ensures UncaughtException(i, c) in f.errs <==>
                        Checked(h, c) && !Causes.Announced(h, ctx, c) && EscapesBody(body, isVoid, h, ctx, i, c)
    {
      Causes.UncaughtExact(body, isVoid, h, ctx, i, c);
    }
    if NoClause(f.errs) {
      forall e ensures e in f.errs && e.IsNaming() <==> e in Naming.Misnamed(body, Naming.NO_LABELS) {
        Naming.BodyNamesExact(body, isVoid, h, ctx, e);
      }
    }
    if Completion.Quiet(f.errs) && Completion.Live(h, body) {
      NodeRuns.BodyShown(body, isVoid, h, ctx);
      Naming.BodyNamesExact(body, isVoid, h, ctx, MissingReturn(body.id));
    }
  }

  /** What the analysis of a method body promises of one of its runs. */
  ghost predicate Promised(body: Stmt, isVoid: bool, h: Hierarchy, ctx: Context, r: Run)
    requires body.Block?
  {
    var f := AnalyzeBody(body, isVoid, h, ctx);
    && Respects(f, r, Headers(body))
    && (forall q :: Within(q, r) ==> UnreachableCatch(q.at.id) !in f.errs && BlockedCatch(q.at.id) !in f.errs)
    && (NoneUncaught(f.errs) && r.out.ThrowOut? && Checked(h, r.out.cls) ==> Declared(h, ctx, r.out.cls))
    && (!isVoid && MissingReturn(body.id) !in f.errs ==> !r.out.Normal?)
  }

  lemma {:induction false} RunPromised(body: Stmt, isVoid: bool, h: Hierarchy, ctx: Context, r: Run)
    requires IsPlain(body) && Shape(body) && Unique(body) && r.at == body && Valid(h, r, None)
    requires NamesResolve(AnalyzeBody(body, isVoid, h, ctx).errs)
    ensures Promised(body, isVoid, h, ctx, r)
  {
    hide AnalyzeBody, Valid, Within, Shape, Unique, Headers;
    var errs := AnalyzeBody(body, isVoid, h, ctx).errs;
    ReachabilitySound(body, isVoid, h, ctx, r);
    ReportedClausesNeverEntered(body, isVoid, h, ctx, r);
    if NoneUncaught(errs) && r.out.ThrowOut? && Checked(h, r.out.cls) {
      CheckedExceptionsSound(body, isVoid, h, ctx, r);
    }
    if !isVoid && MissingReturn(body.id) !in errs {
      NeverFallsOff(body, h, ctx, r);
    }
  }

  // ---- Bookkeeping

  lemma {:induction false} EvalNothing(id: Id, throws: seq<Class>, env: Env)
    ensures Eval(id, throws[..0], env) == Fx({}, {}, {}, {}, false)
  {
  }

  function ThrownFx(id: Id, c: Class, env: Env): Fx {
    Fx({}, {}, {c}, If1(Uncaught(env, c), UncaughtException(id, c)), false)
  }

  lemma {:induction false} EvalExtends(id: Id, throws: seq<Class>, k: nat, env: Env)
    requires k < |throws|
    ensures Eval(id, throws[..k + 1], env) == Eval(id, throws[..k], env).Then(ThrownFx(id, throws[k], env))
  {
    assert throws[..k + 1] == throws[..k] + [throws[k]];
  }

  /** The state st, with nothing open and only the body marked, and st' with the body open. */
  lemma {:induction false} OpenBody(body: Stmt, st: State, st': State)
    requires IsPlain(body) && Shape(body) && Unique(body)
    requires st == State(st.h, st.ctx, {body.id}, {}, [], [], [], [], [], [], [], {}) && st' == st.(blocks := [body.id])
    ensures SeqReady(body.stmts, st') && body.id !in st'.canComplete && body.id !in IdsOf(body.stmts)
    ensures var f := AnalyzeBlock(body.id, body.tag, body.stmts, true, MethodEnv(st.h, st.ctx));
            && AfterStatements(body, st').(blocks := []) ==
               st.(reachable := f.reach, canComplete := f.done, errors := f.errs)
            && (body.id in f.done <==> f.completes)
  {
    hide Analyze, AnalyzeSeq;
    assert EnvOf(st) == MethodEnv(st.h, st.ctx) && Outer(EnvOf(st)) == {};
    assert EnvOf(st') == EnterBlock(body.id, body.tag, body.stmts, EnvOf(st));
    SeqInBlock(body, st, st');
    LeaveBlockScope(body, st, st');
    AfterStatementsKeepsStacks(body, st');
    var f := AnalyzeBlock(body.id, body.tag, body.stmts, true, MethodEnv(st.h, st.ctx));
    assert st.reachable + f.reach == f.reach && st.canComplete + f.done == f.done && st.errors + f.errs == f.errs;
  }

  lemma {:induction false} LeftIsNotCaught(h: Hierarchy, found: set<Class>, types: seq<Class>, catchable: set<Class>)
    requires catchable == set x | x in found && Covers(h, types, x)
    ensures found - catchable == NotCaught(h, found, types)
  {
  }

  lemma {:induction false} CoversNext(h: Hierarchy, types: seq<Class>, i: nat, found: set<Class>)
    requires i < |types|
    ensures (set x | x in found && Covers(h, types[..i + 1], x)) ==
            (set x | x in found && Covers(h, types[..i], x)) + (set x | x in found && IsSubclass(h, x, types[i]))
  {
    forall x | x in found
      ensures Covers(h, types[..i + 1], x) <==> Covers(h, types[..i], x) || IsSubclass(h, x, types[i])
    {
      assert types[..i + 1][i] == types[i];
      assert forall j :: 0 <= j < i ==> types[..i + 1][j] == types[..i][j];
    }
  }

  /** A node whose reachable flag already is r completes as r says. */
  lemma {:induction false} ApplyFlags(st: State, id: Id, r: bool)
    requires r <==> id in st.reachable
    requires id !in st.canComplete
    ensures Apply(st, Fx(If1(r, id), If1(r, id), {}, {}, r))
         == st.(canComplete := if r then st.canComplete + {id} else st.canComplete - {id})
  {
    ApplyNothing(st, r);
    assert st.reachable + If1(r, id) == st.reachable;
    assert st.canComplete + If1(r, id) == if r then st.canComplete + {id} else st.canComplete - {id};
    assert st.errors + {} == st.errors;
  }
}
