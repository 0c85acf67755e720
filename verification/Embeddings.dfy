/** How runs of the parts of a statement extend to runs of the statement. */
module Embeddings {
  import opened Classes
  import opened JavaAst
  import opened Options
  import opened Runs

  /** Some run of s, inside a block labelled `owner`, ends with o. */
  ghost predicate Ends(h: Hierarchy, s: Stmt, owner: Option<string>, o: Outcome) {
    exists q: Run :: IsRun(h, s, owner, q) && q.out == o
  }

  ghost predicate IsRun(h: Hierarchy, s: Stmt, owner: Option<string>, q: Run) {
    q.at == s && Valid(h, q, owner)
  }

  /** How the statement around goes on after a part that ended with o, if only that part matters. */
  function Onward(o: Outcome): Outcome {
    if o.Normal? then Suspended else o
  }

  // ---- Statements in order

  /** Statement k runs if those before it can complete. */
  lemma {:induction false} SeqEmbed(h: Hierarchy, ss: seq<Stmt>, owner: Option<string>, k: nat, p: Run)
    returns (kids: seq<Run>)
    requires k < |ss| && IsRun(h, ss[k], owner, p) && forall i :: 0 <= i < k ==> Ends(h, ss[i], owner, Normal)
    ensures ValidSeq(h, kids, ss, owner, if k == |ss| - 1 then p.out else Onward(p.out)) && p in kids
    decreases k
  {
    hide Valid;
    if k == 0 {
      kids := [p];
      assert kids[1..] == [];
      if |ss| == 1 { assert ss[1..] == []; }
    } else {
      assert Ends(h, ss[0], owner, Normal);
      var first: Run :| IsRun(h, ss[0], owner, first) && first.out == Normal;
      assert forall i :: 0 <= i < k - 1 ==> ss[1..][i] == ss[i + 1];
      var rest := SeqEmbed(h, ss[1..], owner, k - 1, p);
      kids := [first] + rest;
      assert kids[1..] == rest;
    }
  }

  lemma {:induction false} BlockEmbed(h: Hierarchy, s: Stmt, owner: Option<string>, k: nat, p: Run) returns (q: Run)
    requires s.Block? && k < |s.stmts| && IsRun(h, s.stmts[k], s.tag, p)
    requires forall i :: 0 <= i < k ==> Ends(h, s.stmts[i], s.tag, Normal)
    ensures IsRun(h, s, owner, q) && p in q.kids
    ensures q.out == LeaveBlock(if k == |s.stmts| - 1 then p.out else Onward(p.out), s.tag)
  {
    var kids := SeqEmbed(h, s.stmts, s.tag, k, p);
    q := Run(s, kids, 0, LeaveBlock(if k == |s.stmts| - 1 then p.out else Onward(p.out), s.tag));
  }

  /** Every block can be struck by an unchecked exception. */
  lemma {:induction false} BlockThrows(h: Hierarchy, s: Stmt, owner: Option<string>)
    requires s.Block?
    ensures Ends(h, s, owner, ThrowOut(ERROR))
  {
    var q := Run(s, [], 0, ThrowOut(ERROR));
    assert ValidSeq(h, [], s.stmts, s.tag, ThrowOut(ERROR));
    assert IsRun(h, s, owner, q);
  }

  /** Every statement can be begun. */
  lemma {:induction false} Begins(h: Hierarchy, s: Stmt, owner: Option<string>)
    ensures IsRun(h, s, owner, Run(s, [], 0, Suspended))
  {
    match s
    case Block(_, tag, ss) => assert ValidSeq(h, [], ss, tag, Suspended);
    case While(_, c, b) => assert ValidWhile(h, [], b, c, [], owner, Suspended);
    case Do(_, b, c) => assert ValidDo(h, [], b, c, owner, Suspended);
    case For(_, init, end, update, b) =>
      assert ValidWhile(h, [], b, ForCondition(end), update, owner, Suspended);
      assert ValidFor(h, [], init, end, update, b, owner, Suspended);
    case Foreach(_, _, _, e, b) => assert ValidWhile(h, [], b, Expr(e.throws, None), [], owner, Suspended);
    case _ =>
  }

  // ---- Branches and single bodies

  lemma {:induction false} PartEmbed(h: Hierarchy, s: Stmt, owner: Option<string>, p: Run) returns (q: Run)
    requires (s.If? && (p.at == s.thn || (s.els.Some? && p.at == s.els.value))) || (s.Sync? && p.at == s.body)
    requires Valid(h, p, None)
    ensures IsRun(h, s, owner, q) && p in q.kids && q.out == p.out
  {
    q := Run(s, [p], 0, p.out);
  }

  lemma {:induction false} GroupEmbed(h: Hierarchy, s: Stmt, owner: Option<string>, k: nat, p: Run) returns (q: Run)
    requires s.Switch? && k < |s.groups| && IsRun(h, s.groups[k], None, p)
    ensures IsRun(h, s, owner, q) && p in q.kids
    ensures q.out == LeaveLoop(if k == |s.groups| - 1 then p.out else Onward(p.out))
  {
    hide Valid;
    var o := if k == |s.groups| - 1 then p.out else Onward(p.out);
    assert s.groups[k..][0] == s.groups[k];
    var kids := SeqEmbed(h, s.groups[k..], None, 0, p);
    q := Run(s, kids, k, LeaveLoop(o));
    SwitchRun(h, s, owner, q, o);
  }

  lemma {:induction false} SwitchRun(h: Hierarchy, s: Stmt, owner: Option<string>, q: Run, o: Outcome)
    requires s.Switch? && q.at == s && q.kids != [] && q.pick < |s.groups|
    requires ValidSeq(h, q.kids, s.groups[q.pick..], None, o) && q.out == LeaveLoop(o)
    ensures Valid(h, q, owner)
  {
    hide ValidSeq;
  }

  // ---- Loops

  /** How a loop ends that does no further round. */
  function LoopEnd(o: Outcome, owner: Option<string>): Outcome {
    if Repeats(o, owner) then Suspended else LeaveLoop(o)
  }

  /** A body can run if the condition lets it in; after a round that repeats, a do loop tests its condition. */
  lemma {:induction false} LoopEmbed(h: Hierarchy, s: Stmt, owner: Option<string>, p: Run) returns (q: Run)
    requires IsLoop(s) && Shape(s) && IsRun(h, s.body, None, p)
    requires (s.While? ==> CanBe(s.cond, true)) && (s.For? ==> CanBe(ForCondition(s.end), true))
    ensures IsRun(h, s, owner, q) && p in q.kids && q.out == LoopEnd(p.out, owner)
  {
    var o := LoopEnd(p.out, owner);
    if s.Do? {
      assert [p][1..] == [];
      q := Run(s, [p], 0, o);
    } else if s.While? {
      RoundEmbed(h, s.body, s.cond, [], owner, p);
      q := Run(s, [p], 0, o);
    } else if s.Foreach? {
      RoundEmbed(h, s.body, Expr(s.e.throws, None), [], owner, p);
      q := Run(s, [p], 0, o);
    } else {
      RoundEmbed(h, s.body, ForCondition(s.end), s.update, owner, p);
      var kids := InitEmbed(h, s.init, s.end, s.update, s.body, owner, [p], o);
      q := Run(s, kids, 0, o);
    }
  }

  lemma {:induction false} RoundEmbed(h: Hierarchy, b: Stmt, c: Expr, update: seq<Stmt>, owner: Option<string>, p: Run)
    requires IsRun(h, b, None, p) && CanBe(c, true)
    ensures ValidWhile(h, [p], b, c, update, owner, LoopEnd(p.out, owner))
  {
    hide Valid;
    assert [p][1..] == [];
    assert ValidWhile(h, [], b, c, update, owner, Suspended);
    assert ValidUpdate(h, [], b, c, update, update, owner, Suspended);
  }

  /** The initialisers run first. */
  lemma {:induction false} InitEmbed(h: Hierarchy, init: seq<Stmt>, end: Option<Expr>, update: seq<Stmt>, b: Stmt,
                                     owner: Option<string>, rest: seq<Run>, o: Outcome)
    returns (kids: seq<Run>)
    requires forall i :: 0 <= i < |init| ==> IsHeader(init[i])
    requires ValidWhile(h, rest, b, ForCondition(end), update, owner, o)
    ensures ValidFor(h, kids, init, end, update, b, owner, o)
    ensures forall p :: p in rest ==> p in kids
    decreases |init|
  {
    if init == [] {
      kids := rest;
    } else {
      hide ValidWhile;
      var first := Run(init[0], [], 0, Normal);
      var more := InitEmbed(h, init[1..], end, update, b, owner, rest, o);
      kids := [first] + more;
      assert kids[1..] == more;
    }
  }

  /** A loop can end at its condition before or, for do, after the first round. */
  lemma {:induction false} LoopEnds(h: Hierarchy, s: Stmt, owner: Option<string>)
    requires (s.While? && CanBe(s.cond, false)) || (s.For? && CanBe(ForCondition(s.end), false)) || s.Foreach?
    requires Shape(s)
    ensures Ends(h, s, owner, Normal)
  {
    var q: Run;
    if s.For? {
      assert ValidWhile(h, [], s.body, ForCondition(s.end), s.update, owner, Normal);
      var kids := InitEmbed(h, s.init, s.end, s.update, s.body, owner, [], Normal);
      q := Run(s, kids, 0, Normal);
    } else {
      q := Run(s, [], 0, Normal);
    }
    assert IsRun(h, s, owner, q);
  }

  lemma {:induction false} DoEnds(h: Hierarchy, s: Stmt, owner: Option<string>, p: Run)
    requires s.Do? && CanBe(s.cond, false) && IsRun(h, s.body, None, p) && Repeats(p.out, owner)
    ensures Ends(h, s, owner, Normal)
  {
    var q := Run(s, [p], 0, Normal);
    assert [p][1..] == [];
    assert IsRun(h, s, owner, q);
  }

  // ---- Try statements

  /** The finally clause, if any, can complete normally. */
  ghost predicate Passes(h: Hierarchy, f: Option<Stmt>) {
    f.Some? ==> Ends(h, f.value, None, Normal)
  }

  /** From how the try block or a clause ended, through the finally clause. */
  lemma {:induction false} FinallyEmbed(h: Hierarchy, f: Option<Stmt>, before: Outcome)
    returns (kids: seq<Run>, o: Outcome)
    ensures ValidFinally(h, kids, f, before, o) && (Passes(h, f) ==> o == before)
  {
    hide Valid;
    kids, o := [], Suspended;
    if before.Suspended? {
    } else if f.None? {
      o := before;
    } else if Passes(h, f) {
      var p: Run :| IsRun(h, f.value, None, p) && p.out == Normal;
      kids, o := [p], before;
    }
  }

  lemma {:induction false} TryEmbed(h: Hierarchy, s: Stmt, owner: Option<string>, p: Run) returns (q: Run)
    requires s.Try? && IsRun(h, s.body, None, p)
    ensures IsRun(h, s, owner, q) && p in q.kids
    ensures NoneCatches(h, s.catches, p.out) && Passes(h, s.fin) ==> q.out == p.out
  {
    hide ValidFinally;
    if NoneCatches(h, s.catches, p.out) {
      var kids, o := FinallyEmbed(h, s.fin, p.out);
      q := Run(s, [p] + kids, 0, o);
      assert q.kids[1..] == kids;
    } else {
      q := Run(s, [p], 0, Suspended);
    }
  }

  lemma {:induction false} ClauseEmbed(h: Hierarchy, s: Stmt, owner: Option<string>, b: Run, k: nat, p: Run)
    returns (q: Run)
    requires s.Try? && IsRun(h, s.body, None, b) && TakenBy(h, s.catches, b.out, k)
    requires IsRun(h, s.catches[k].body, None, p)
    ensures IsRun(h, s, owner, q) && p in q.kids && (Passes(h, s.fin) ==> q.out == p.out)
  {
    hide ValidFinally;
    var kids, o := FinallyEmbed(h, s.fin, p.out);
    q := Run(s, [b, p] + kids, k, o);
    assert q.kids[2..] == kids && q.kids[1] == p && q.kids[0] == b;
  }

  /** The first clause that catches what is thrown. */
  lemma {:induction false} FirstTaken(h: Hierarchy, cs: seq<Catch>, o: Outcome) returns (k: nat)
    requires !NoneCatches(h, cs, o)
    ensures TakenBy(h, cs, o, k)
  {
    k := 0;
    while !Catches(h, cs[k], o)
      invariant k < |cs| && forall j :: 0 <= j < k ==> !Catches(h, cs[j], o)
      decreases |cs| - k
    {
      k := k + 1;
    }
  }

  /** A finally clause can always be entered. */
  lemma {:induction false} EnterFinally(h: Hierarchy, s: Stmt, owner: Option<string>, p: Run) returns (q: Run)
    requires s.Try? && Shape(s) && s.fin.Some? && IsRun(h, s.fin.value, None, p)
    ensures IsRun(h, s, owner, q) && p in q.kids && (!p.out.Normal? ==> q.out == p.out)
  {
    BlockThrows(h, s.body, None);
    var b: Run :| IsRun(h, s.body, None, b) && b.out == ThrowOut(ERROR);
    if NoneCatches(h, s.catches, b.out) {
      q := Run(s, [b, p], 0, if p.out.Normal? then b.out else p.out);
      assert q.kids[1..] == [p] && q.kids[1] == p;
    } else {
      var k := FirstTaken(h, s.catches, b.out);
      BlockThrows(h, s.catches[k].body, None);
      var c: Run :| IsRun(h, s.catches[k].body, None, c) && c.out == ThrowOut(ERROR);
      q := Run(s, [b, c, p], k, if p.out.Normal? then c.out else p.out);
      assert q.kids[2..] == [p] && q.kids[2] == p && q.kids[1] == c;
    }
  }
}
