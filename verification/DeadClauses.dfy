/** A catch clause that no run of its try block is caught by first is the one reason why a node that is marked
    reachable may never be executed. */
module DeadClauses {
  import opened Classes
  import opened JavaAst
  import opened Options
  import opened Runs
  import opened Flow
  import opened FlowSound
  import opened MethodBodies
  import opened Reporting
  import opened Embeddings
  import opened Completion
  import opened NodeRuns
  import ClauseReports

  /** c is a statement that runs of s may execute next to s. */
  ghost predicate IsKid(s: Stmt, c: Stmt) {
    match s
    case Block(_, _, ss) => c in ss
    case If(_, _, t, e) => c == t || (e.Some? && c == e.value)
    case While(_, _, b) => c == b
    case Do(_, b, _) => c == b
    case For(_, init, _, update, b) => c == b || c in init || c in update
    case Foreach(_, _, _, _, b) => c == b
    case Switch(_, _, _, gs, _) => c in gs
    case Try(_, b, cs, f) => IsTryPart(s, c)
    case Sync(_, _, b) => c == b
    case _ => false
  }

  ghost predicate KidsValid(h: Hierarchy, s: Stmt, kids: seq<Run>) {
    forall i :: 0 <= i < |kids| ==> IsKid(s, kids[i].at) && Valid(h, kids[i], TagOf(s))
  }

  lemma {:induction false} SeqKids(h: Hierarchy, kids: seq<Run>, ss: seq<Stmt>, owner: Option<string>, o: Outcome)
    requires ValidSeq(h, kids, ss, owner, o)
    ensures forall i :: 0 <= i < |kids| ==> kids[i].at in ss && Valid(h, kids[i], owner)
    decreases kids
  {
    hide Valid;
    if kids != [] && kids[0].out.Normal? {
      SeqKids(h, kids[1..], ss[1..], owner, o);
      forall i | 0 < i < |kids| ensures kids[i].at in ss && Valid(h, kids[i], owner) {
        assert kids[i] == kids[1..][i - 1];
      }
    }
  }

  lemma {:induction false} LoopsKids(h: Hierarchy, q: Run, owner: Option<string>)
    requires IsLoop(q.at) && Valid(h, q, owner)
    ensures KidsValid(h, q.at, q.kids)
  {
    match q.at
    case While(_, c, b) => ClauseReports.WhileKids(h, q.kids, b, c, [], owner, q.out);
    case For(_, init, end, update, b) => ClauseReports.InitKids(h, q.kids, init, end, update, b, owner, q.out);
    case Foreach(_, _, _, e, b) =>
      ClauseReports.WhileKids(h, q.kids, b, Expr(e.throws, None), [], owner, q.out);
    case Do(_, b, c) => ClauseReports.DoKids(h, q.kids, b, c, owner, q.out);
  }

  lemma {:induction false} TryKids(h: Hierarchy, q: Run, owner: Option<string>)
    requires q.at.Try? && Valid(h, q, owner)
    ensures KidsValid(h, q.at, q.kids)
    ensures forall i :: 0 <= i < |q.kids| ==>
              || q.kids[i].at == q.at.body || (q.at.fin.Some? && q.kids[i].at == q.at.fin.value)
              || (TakenBy(h, q.at.catches, q.kids[0].out, q.pick) && q.kids[i].at == q.at.catches[q.pick].body)
  {
    hide Catches;
    if q.kids != [] {
      if NoneCatches(h, q.at.catches, q.kids[0].out) {
        assert |q.kids| <= 2;
        if |q.kids| == 2 { assert q.kids[1..][0] == q.kids[1]; }
      } else if |q.kids| > 1 {
        assert |q.kids| <= 3;
        if |q.kids| == 3 { assert q.kids[2..][0] == q.kids[2]; }
      }
    }
  }

  lemma {:induction false} RunKids(h: Hierarchy, q: Run, owner: Option<string>)
    requires Valid(h, q, owner)
    ensures KidsValid(h, q.at, q.kids)
  {
    if IsLoop(q.at) {
      LoopsKids(h, q, owner);
    } else if q.at.Try? {
      TryKids(h, q, owner);
    } else if q.at.Block? {
      var o :| ValidSeq(h, q.kids, q.at.stmts, q.at.tag, o);
      SeqKids(h, q.kids, q.at.stmts, q.at.tag, o);
    } else if q.at.Switch? && q.kids != [] {
      var o :| ValidSeq(h, q.kids, q.at.groups[q.pick..], None, o);
      SeqKids(h, q.kids, q.at.groups[q.pick..], None, o);
    }
  }

  // ---- Which part a node belongs to

  lemma {:induction false} MemberIds(ss: seq<Stmt>, c: Stmt)
    requires c in ss && UniqueAll(ss)
    ensures Unique(c) && Ids(c) <= IdsOf(ss)
  {
    if c != ss[0] { MemberIds(ss[1..], c); }
  }

  lemma {:induction false} MembersApart(ss: seq<Stmt>, c: Stmt, d: Stmt)
    requires c in ss && d in ss && UniqueAll(ss) && c != d
    ensures Ids(c) !! Ids(d)
  {
    if c == ss[0] {
      MemberIds(ss[1..], d);
    } else if d == ss[0] {
      MemberIds(ss[1..], c);
    } else {
      MembersApart(ss[1..], c, d);
    }
  }

  lemma {:induction false} ClausesApart(cs: seq<Catch>, i: nat, j: nat)
    requires i < j < |cs| && UniqueCatches(cs)
    ensures Unique(cs[i].body) && Unique(cs[j].body) && Ids(cs[i].body) !! Ids(cs[j].body)
  {
    var c := cs[0];
    assert c.body < c;
    if i > 0 {
      ClausesApart(cs[1..], i - 1, j - 1);
    } else {
      ClauseMember(cs[1..], j - 1);
    }
  }

  lemma {:induction false} ClauseMember(cs: seq<Catch>, k: nat)
    requires k < |cs| && UniqueCatches(cs)
    ensures Unique(cs[k].body) && Ids(cs[k].body) <= IdsOfCatches(cs)
  {
    var c := cs[0];
    assert c.body < c;
    if k > 0 { ClauseMember(cs[1..], k - 1); }
  }

  lemma {:induction false} KidIds(s: Stmt, c: Stmt)
    requires Unique(s) && IsKid(s, c)
    ensures Unique(c) && Ids(c) <= Ids(s) && s.id !in Ids(c)
    ensures s.Switch? ==> s.blockId !in Ids(c)
  {
    match s
    case Block(_, _, ss) => MemberIds(ss, c);
    case Switch(_, _, _, gs, _) => MemberIds(gs, c);
    case For(_, init, _, update, b) =>
      if c in init { MemberIds(init, c); }
      if c in update { MemberIds(update, c); }
    case Try(_, b, cs, f) =>
      if c != b && !(f.Some? && c == f.value) {
        var k :| 0 <= k < |cs| && c == cs[k].body;
        ClauseMember(cs, k);
      }
    case _ =>
  }

  lemma {:induction false} KidsApart(s: Stmt, c: Stmt, d: Stmt)
    requires Unique(s) && IsKid(s, c) && IsKid(s, d) && c != d
    ensures Ids(c) !! Ids(d)
  {
    match s
    case Block(_, _, ss) => MembersApart(ss, c, d);
    case Switch(_, _, _, gs, _) => MembersApart(gs, c, d);
    case For(_, init, _, update, b) => HeadersApart(s, c, d);
    case Try(_, _, _, _) => TryApart(s, c, d);
    case _ =>
  }

  lemma {:induction false} HeadersApart(s: Stmt, c: Stmt, d: Stmt)
    requires s.For? && Unique(s) && IsKid(s, c) && IsKid(s, d) && c != d
    ensures Ids(c) !! Ids(d)
  {
    hide Ids;
    var For(_, init, _, update, b) := s;
    if c in init { MemberIds(init, c); }
    if d in init { MemberIds(init, d); }
    if c in update { MemberIds(update, c); }
    if d in update { MemberIds(update, d); }
    if c in init && d in init { MembersApart(init, c, d); }
    if c in update && d in update { MembersApart(update, c, d); }
  }

  lemma {:induction false} TryApart(s: Stmt, c: Stmt, d: Stmt)
    requires s.Try? && Unique(s) && IsTryPart(s, c) && IsTryPart(s, d) && c != d
    ensures Ids(c) !! Ids(d)
  {
    hide *;
    var i, j := ClauseIndex(s, c), ClauseIndex(s, d);
    if i.Some? && j.Some? {
      CatchesApart(s, i.value, j.value);
    } else if i.Some? {
      ClauseApart(s, i.value, d);
    } else if j.Some? {
      ClauseApart(s, j.value, c);
    } else {
      FinallyApart(s);
    }
  }

  lemma {:induction false} FinallyApart(s: Stmt)
    requires s.Try? && Unique(s) && s.fin.Some?
    ensures Ids(s.body) !! Ids(s.fin.value) && Ids(s.fin.value) !! Ids(s.body)
  {
    hide *;
    UniqueParts(s);
  }

  lemma {:induction false} CatchesApart(s: Stmt, i: nat, j: nat)
    requires s.Try? && Unique(s) && i < |s.catches| && j < |s.catches| && s.catches[i].body != s.catches[j].body
    ensures Ids(s.catches[i].body) !! Ids(s.catches[j].body)
  {
    hide *;
    UniqueParts(s);
    if i < j { ClausesApart(s.catches, i, j); } else if j < i { ClausesApart(s.catches, j, i); }
  }

  lemma {:induction false} ClauseApart(s: Stmt, k: nat, d: Stmt)
    requires s.Try? && Unique(s) && k < |s.catches| && (d == s.body || (s.fin.Some? && d == s.fin.value))
    ensures Ids(s.catches[k].body) !! Ids(d)
  {
    hide *;
    UniqueParts(s);
    ClauseMember(s.catches, k);
  }

  /** The clause with block c, if it is not the try block or the finally clause. */
  ghost function ClauseIndex(s: Stmt, c: Stmt): (k: Option<nat>)
    requires IsTryPart(s, c)
    ensures if k.Some? then k.value < |s.catches| && c == s.catches[k.value].body
            else c == s.body || (s.fin.Some? && c == s.fin.value)
  {
    if c == s.body || (s.fin.Some? && c == s.fin.value) then None
    else
      var k :| 0 <= k < |s.catches| && c == s.catches[k].body;
      Some(k)
  }

  /** What is executed in a run of s is a node of s. */
  lemma {:induction false} RunIds(h: Hierarchy, q: Run, owner: Option<string>, w: Run, id: Id)
    requires Valid(h, q, owner) && Unique(q.at) && Within(w, q) && Shows(w, id)
    ensures id in Ids(q.at)
    decreases q
  {
    hide Valid;
    if w == q {
      IdIn(q.at);
    } else {
      var i :| 0 <= i < |q.kids| && Within(w, q.kids[i]);
      RunKids(h, q, owner);
      KidIds(q.at, q.kids[i].at);
      RunIds(h, q.kids[i], TagOf(q.at), w, id);
    }
  }

  /** A node of a part is executed in a run of that part. */
  lemma {:induction false} InPart(h: Hierarchy, s: Stmt, owner: Option<string>, c: Stmt, q: Run, w: Run, id: Id)
    returns (i: nat)
    requires Unique(s) && IsKid(s, c) && IsRun(h, s, owner, q) && Within(w, q) && Shows(w, id) && id in Ids(c)
    ensures i < |q.kids| && IsRun(h, c, TagOf(s), q.kids[i]) && Within(w, q.kids[i])
  {
    hide Valid, IsKid;
    KidIds(s, c);
    i :| 0 <= i < |q.kids| && Within(w, q.kids[i]);
    RunKids(h, q, owner);
    assert IsKid(s, q.kids[i].at);
    KidIds(s, q.kids[i].at);
    RunIds(h, q.kids[i], TagOf(s), w, id);
    if q.kids[i].at != c { KidsApart(s, q.kids[i].at, c); }
  }

  lemma {:induction false} ExecutesPart(h: Hierarchy, s: Stmt, owner: Option<string>, c: Stmt, id: Id)
    requires Unique(s) && IsKid(s, c) && id in Ids(c) && Executes(h, s, owner, id)
    ensures Executes(h, c, TagOf(s), id)
  {
    hide Valid, IsKid;
    var q: Run, w: Run :| IsRun(h, s, owner, q) && Within(w, q) && Shows(w, id);
    var i := InPart(h, s, owner, c, q, w, id);
  }

  // ---- Clauses

  /** The blocks of catch clauses in s. */
  function ClauseIds(s: Stmt): set<Id> {
    match s
    case Block(_, _, ss) => ClauseIdsOf(ss)
    case If(_, _, t, e) => ClauseIds(t) + (if e.Some? then ClauseIds(e.value) else {})
    case While(_, _, b) => ClauseIds(b)
    case Do(_, b, _) => ClauseIds(b)
    case For(_, _, _, _, b) => ClauseIds(b)
    case Foreach(_, _, _, _, b) => ClauseIds(b)
    case Switch(_, _, _, gs, _) => ClauseIdsOf(gs)
    case Try(_, b, cs, f) =>
      ClauseIds(b) + ClauseIdsOfCatches(cs) + (if f.Some? then ClauseIds(f.value) else {})
    case Sync(_, _, b) => ClauseIds(b)
    case _ => {}
  }

  function ClauseIdsOf(ss: seq<Stmt>): set<Id> {
    if ss == [] then {} else ClauseIds(ss[0]) + ClauseIdsOf(ss[1..])
  }

  function ClauseIdsOfCatches(cs: seq<Catch>): set<Id> {
    if cs == [] then {} else
      var c := cs[0];
      assert c.body < c;
      {c.body.id} + ClauseIds(c.body) + ClauseIdsOfCatches(cs[1..])
  }

  lemma {:induction false} ClausesAreMarks(s: Stmt)
    ensures ClauseIds(s) <= Marks(s)
    decreases s, 1
  {
    match s
    case Block(_, _, ss) => ClausesOfAreMarks(ss);
    case If(_, _, t, e) => ClausesAreMarks(t); if e.Some? { ClausesAreMarks(e.value); }
    case While(_, _, b) => ClausesAreMarks(b);
    case Do(_, b, _) => ClausesAreMarks(b);
    case For(_, _, _, _, b) => ClausesAreMarks(b);
    case Foreach(_, _, _, _, b) => ClausesAreMarks(b);
    case Switch(_, _, _, gs, _) => ClausesOfAreMarks(gs);
    case Try(_, b, cs, f) =>
      ClausesAreMarks(b); ClausesOfCatchesAreMarks(cs); if f.Some? { ClausesAreMarks(f.value); }
    case Sync(_, _, b) => ClausesAreMarks(b);
    case _ =>
  }

  lemma {:induction false} ClausesOfAreMarks(ss: seq<Stmt>)
    ensures ClauseIdsOf(ss) <= MarksOf(ss)
    decreases ss, 0
  {
    if ss != [] { ClausesAreMarks(ss[0]); ClausesOfAreMarks(ss[1..]); }
  }

  lemma {:induction false} ClausesOfCatchesAreMarks(cs: seq<Catch>)
    ensures ClauseIdsOfCatches(cs) <= MarksOfCatches(cs)
    decreases cs, 0
  {
    if cs != [] {
      var c := cs[0];
      assert c.body < c;
      ClausesAreMarks(c.body);
      ClausesOfCatchesAreMarks(cs[1..]);
    }
  }

  ghost predicate AllExecuted(h: Hierarchy, s: Stmt, owner: Option<string>, ids: set<Id>) {
    forall id :: id in ids ==> Executes(h, s, owner, id)
  }

  /** If the block of every clause is executed in some run, every clause is taken. */
  lemma {:induction false} ExecutedLive(h: Hierarchy, s: Stmt, owner: Option<string>)
    requires Unique(s) && AllExecuted(h, s, owner, ClauseIds(s))
    ensures Live(h, s)
    decreases s, 2
  {
    match s
    case Block(_, _, ss) => ExecutedAll(h, s, owner, ss, ss);
    case Switch(_, _, _, gs, _) => ExecutedAll(h, s, owner, gs, gs);
    case If(_, _, t, e) => ExecutedKid(h, s, owner, t); if e.Some? { ExecutedKid(h, s, owner, e.value); }
    case While(_, _, b) => ExecutedKid(h, s, owner, b);
    case Do(_, b, _) => ExecutedKid(h, s, owner, b);
    case For(_, _, _, _, b) => ExecutedKid(h, s, owner, b);
    case Foreach(_, _, _, _, b) => ExecutedKid(h, s, owner, b);
    case Sync(_, _, b) => ExecutedKid(h, s, owner, b);
    case Try(_, b, cs, f) =>
      ExecutedKid(h, s, owner, b);
      if f.Some? { ExecutedKid(h, s, owner, f.value); }
      ExecutedCatches(h, s, owner, cs, 0);
      forall k | 0 <= k < |cs| ensures ClauseTaken(h, s, k) { ExecutedTaken(h, s, owner, k); }
    case _ =>
  }

  lemma {:induction false} ExecutedKid(h: Hierarchy, s: Stmt, owner: Option<string>, c: Stmt)
    requires Unique(s) && IsKid(s, c) && c < s && ClauseIds(c) <= ClauseIds(s)
    requires AllExecuted(h, s, owner, ClauseIds(s))
    ensures Live(h, c)
    decreases s, 0
  {
    hide IsKid, Executes, Unique, Live;
    KidIds(s, c);
    ClausesAreMarks(c);
    MarksAreIds(c);
    forall id | id in ClauseIds(c) ensures Executes(h, c, TagOf(s), id) {
      ExecutesPart(h, s, owner, c, id);
    }
    ExecutedLive(h, c, TagOf(s));
  }

  lemma {:induction false} ExecutedAll(h: Hierarchy, s: Stmt, owner: Option<string>, all: seq<Stmt>, ss: seq<Stmt>)
    requires (s.Block? && all == s.stmts) || (s.Switch? && all == s.groups)
    requires |ss| <= |all| && ss == all[|all| - |ss|..] && ClauseIdsOf(ss) <= ClauseIds(s)
    requires Unique(s) && AllExecuted(h, s, owner, ClauseIds(s))
    ensures LiveAll(h, ss)
    decreases s, 1, |ss|
  {
    hide Executes, Unique, Live;
    if ss != [] {
      var k := |all| - |ss|;
      assert ss[0] == all[k] && all[k] < s;
      ExecutedKid(h, s, owner, ss[0]);
      assert ss[1..] == all[k + 1..];
      ExecutedAll(h, s, owner, all, ss[1..]);
    }
  }

  lemma {:induction false} ExecutedCatches(h: Hierarchy, s: Stmt, owner: Option<string>, cs: seq<Catch>, k: nat)
    requires s.Try? && k <= |s.catches| && cs == s.catches[k..] && ClauseIdsOfCatches(cs) <= ClauseIds(s)
    requires Unique(s) && AllExecuted(h, s, owner, ClauseIds(s))
    ensures LiveCatches(h, cs)
    decreases s, 1, |cs|
  {
    hide Executes, Unique, Live;
    if cs != [] {
      var c := cs[0];
      assert c.body < c;
      assert c == s.catches[k] && s.catches[k] < s;
      ExecutedKid(h, s, owner, c.body);
      assert cs[1..] == s.catches[k + 1..];
      ExecutedCatches(h, s, owner, cs[1..], k + 1);
    }
  }

  lemma {:induction false} ClauseIdIn(cs: seq<Catch>, k: nat)
    requires k < |cs|
    ensures cs[k].body.id in ClauseIdsOfCatches(cs)
  {
    var c := cs[0];
    assert c.body < c;
    if k > 0 { ClauseIdIn(cs[1..], k - 1); }
  }

  lemma {:induction false} ExecutedTaken(h: Hierarchy, s: Stmt, owner: Option<string>, k: nat)
    requires s.Try? && k < |s.catches| && Unique(s) && AllExecuted(h, s, owner, ClauseIds(s))
    ensures ClauseTaken(h, s, k)
  {
    hide Valid, ClauseIds, Unique;
    var b := s.catches[k].body;
    ClauseIdInTry(s, k);
    IdIn(b);
    assert Executes(h, s, owner, b.id);
    var q: Run, w: Run :| IsRun(h, s, owner, q) && Within(w, q) && Shows(w, b.id);
    assert IsKid(s, b);
    var i := InPart(h, s, owner, b, q, w, b.id);
    TryKids(h, q, owner);
    BodiesApart(s, k);
    var j := q.pick;
    assert TakenBy(h, s.catches, q.kids[0].out, j) && s.catches[j].body == b;
    if j != k { SameBody(s, j, k); }
    FirstKid(h, q, owner);
  }

  lemma {:induction false} ClauseIdInTry(s: Stmt, k: nat)
    requires s.Try? && k < |s.catches|
    ensures s.catches[k].body.id in ClauseIds(s)
  {
    ClauseIdIn(s.catches, k);
  }

  lemma {:induction false} FirstKid(h: Hierarchy, q: Run, owner: Option<string>)
    requires q.at.Try? && Valid(h, q, owner) && q.kids != []
    ensures IsRun(h, q.at.body, None, q.kids[0])
  {
  }

  lemma {:induction false} BodiesApart(s: Stmt, k: nat)
    requires s.Try? && Unique(s) && k < |s.catches|
    ensures s.catches[k].body != s.body && (s.fin.Some? ==> s.catches[k].body != s.fin.value)
  {
    UniqueParts(s);
    ClauseMember(s.catches, k);
    IdIn(s.catches[k].body);
  }

  lemma {:induction false} SameBody(s: Stmt, j: nat, k: nat)
    requires s.Try? && Unique(s) && j < |s.catches| && k < |s.catches| && j != k
    ensures s.catches[j].body != s.catches[k].body
  {
    UniqueParts(s);
    IdIn(s.catches[k].body);
    if j < k { ClausesApart(s.catches, j, k); } else { ClausesApart(s.catches, k, j); }
  }

  // ---- Method bodies

  /** Of a body without reports about unreachable code: all that is marked is executed in some run exactly if
      every catch clause is the first to catch something in some run of its try block. */
  lemma {:induction false} ReachedExact(body: Stmt, isVoid: bool, h: Hierarchy, ctx: Context)
    requires IsPlain(body) && Shape(body) && Unique(body) && Quiet(AnalyzeBody(body, isVoid, h, ctx).errs)
    ensures Live(h, body) <==>
            forall id :: id in AnalyzeBody(body, isVoid, h, ctx).reach ==> Executes(h, body, None, id)
  {
    hide AnalyzeBody, Executes, Live, Marks, ClauseIds;
    var f := AnalyzeBody(body, isVoid, h, ctx);
    if Live(h, body) {
      BodyShown(body, isVoid, h, ctx);
    } else if forall id :: id in f.reach ==> Executes(h, body, None, id) {
      NoSilentUnreachableCode(body, isVoid, h, ctx);
      ClausesAreMarks(body);
      ExecutedLive(h, body, None);
      assert false;
    }
  }

  // ---- A dead clause

  /** Some IOException and its subclass FileNotFoundException, as classes 4 and 5. */
  function Files(): Hierarchy {
    [0, 0, 0, 2, 2, 4]
  }

  const TRY_BLOCK := Block(3, None, [Throw(4, NOTHING, 5)])
  const FIRST_CLAUSE := Block(6, None, [Return(7, NOTHING)])
  const SECOND_CLAUSE := Block(8, None, [])
  const DEAD_TRY := Try(2, TRY_BLOCK, [Catch(5, FIRST_CLAUSE), Catch(4, SECOND_CLAUSE)], None)
  const DEAD_BODY := Block(1, None, [DEAD_TRY])

  lemma {:induction false} OneStatement(x: Stmt, env: Env)
    requires env.level > 0
    ensures [x][1..] == [] && IdsOf([x]) == Ids(x) && (UniqueAll([x]) <==> Unique(x))
    ensures var f, g := AnalyzeSeq([x], true, env), Analyze(x, true, env);
            f.errs == g.errs && f.exc == g.exc && f.done == g.done && f.completes == g.completes
    ensures FirstUnreachable([x], true, env).None?
  {
    hide Analyze, Ids, Unique;
    assert [x][1..] == [];
    assert FirstUnreachable([x], true, env) == FirstUnreachable([x][1..], Analyze(x, true, env).completes, env);
  }

  /** A run of a block of one statement that does not complete normally. */
  lemma {:induction false} OneRun(h: Hierarchy, id: Id, x: Stmt, p: Run)
    requires IsRun(h, Block(id, None, [x]), None, p)
    ensures p.kids == [] ==> Cut(h, NOTHING, p.out)
    ensures p.kids != [] ==> IsRun(h, x, None, p.kids[0]) && (!p.kids[0].out.Normal? ==> p.out == p.kids[0].out)
  {
    var o :| ValidSeq(h, p.kids, [x], None, o) && p.out == LeaveBlock(o, None);
  }

  lemma {:induction false} OneBlock(id: Id, x: Stmt, env: Env)
    requires env.level > 0
    ensures var f, g := Analyze(Block(id, None, [x]), true, env), Analyze(x, true, EnterBlock(id, None, [x], env));
            f.errs == g.errs && f.exc == g.exc && (f.completes <==> g.completes || id in g.done)
  {
    hide AnalyzeSeq, FirstUnreachable;
    var inner := EnterBlock(id, None, [x], env);
    OneStatement(x, inner);
    assert GapErrors([x], true, true, inner) == {} && LabelErrors(id, None, env) == {};
    assert Analyze(Block(id, None, [x]), true, env) == AnalyzeBlock(id, None, [x], true, env);
  }

  lemma {:induction false} OneShape(id: Id, x: Stmt)
    requires Shape(x) && Unique(x) && id !in Ids(x) && !IsLoop(x)
    ensures var b := Block(id, None, [x]); IsPlain(b) && Shape(b) && Unique(b) && Ids(b) == {id} + Ids(x)
  {
    assert [x][1..] == [] && IdsOf([x]) == Ids(x);
  }

  lemma {:induction false} DeadShape()
    ensures IsPlain(DEAD_BODY) && Shape(DEAD_BODY) && Unique(DEAD_BODY)
  {
    OneShape(3, Throw(4, NOTHING, 5));
    OneShape(6, Return(7, NOTHING));
    DeadTryShape();
    OneShape(1, DEAD_TRY);
  }

  lemma {:induction false} DeadTryShape()
    requires IsPlain(TRY_BLOCK) && Shape(TRY_BLOCK) && Unique(TRY_BLOCK) && Ids(TRY_BLOCK) == {3, 4}
    requires IsPlain(FIRST_CLAUSE) && Shape(FIRST_CLAUSE) && Unique(FIRST_CLAUSE) && Ids(FIRST_CLAUSE) == {6, 7}
    ensures Shape(DEAD_TRY) && Unique(DEAD_TRY) && Ids(DEAD_TRY) == {2, 3, 4, 6, 7, 8}
  {
    EmptyShape(8);
    hide Shape, Unique, Ids;
    TwoClauses(DEAD_TRY, Catch(5, FIRST_CLAUSE), Catch(4, SECOND_CLAUSE));
  }

  lemma {:induction false} EmptyShape(id: Id)
    ensures var b := Block(id, None, []); IsPlain(b) && Shape(b) && Unique(b) && Ids(b) == {id}
  {
  }

  lemma {:induction false} TwoClauses(s: Stmt, c: Catch, d: Catch)
    requires s.Try? && s.catches == [c, d] && s.fin.None?
    requires IsPlain(s.body) && Shape(s.body) && Unique(s.body)
    requires IsPlain(c.body) && Shape(c.body) && Unique(c.body) && IsPlain(d.body) && Shape(d.body) && Unique(d.body)
    ensures Shape(s) && Ids(s) == {s.id} + Ids(s.body) + Ids(c.body) + Ids(d.body)
    ensures Unique(s) <==> s.id !in Ids(s.body) + Ids(c.body) + Ids(d.body) && Ids(c.body) !! Ids(d.body) &&
                           Ids(s.body) !! Ids(c.body) + Ids(d.body)
  {
    hide UniqueCatches, IdsOfCatches;
    TwoCatches(c, d);
  }

  lemma {:induction false} TwoCatches(c: Catch, d: Catch)
    ensures IdsOfCatches([c, d]) == Ids(c.body) + Ids(d.body)
    ensures UniqueCatches([c, d]) <==> Unique(c.body) && Unique(d.body) && Ids(c.body) !! Ids(d.body)
  {
    hide Ids, Unique;
    assert [c, d][1..] == [d] && [d][1..] == [];
    assert IdsOfCatches([d]) == Ids(d.body) && (UniqueCatches([d]) <==> Unique(d.body));
  }

  lemma {:induction false} FilesClasses()
    ensures IsSubclass(Files(), 5, 4) && !IsSubclass(Files(), 4, 5)
    ensures !IsSubclass(Files(), 4, RUNTIME_EXCEPTION) && !IsSubclass(Files(), RUNTIME_EXCEPTION, 4)
    ensures !IsSubclass(Files(), 4, ERROR) && !IsSubclass(Files(), ERROR, 4)
  {
    var h := Files();
    assert IsSubclass(h, 4, 4);
    forall d | d in {1, 3, 4, 5} ensures !IsSubclass(h, 0, d) && !IsSubclass(h, 2, d) {
      assert !IsSubclass(h, 0, d);
    }
  }

  lemma {:induction false} ThrowingBlock(env: Env)
    requires env.level > 0
    ensures var f := Analyze(TRY_BLOCK, true, env); 5 in f.exc && Quiet(f.errs)
  {
    OneBlock(3, Throw(4, NOTHING, 5), env);
    var inner := EnterBlock(3, None, TRY_BLOCK.stmts, env);
    assert Analyze(Throw(4, NOTHING, 5), true, inner) ==
           Eval(4, [] + [5], inner).Then(Fx(If1(true, 4), {}, {}, {}, false));
    assert 5 in [] + [5];
  }

  lemma {:induction false} ReturningBlock(env: Env)
    requires env.level > 0
    ensures var f := Analyze(FIRST_CLAUSE, true, env); f.errs == {}
  {
    OneBlock(6, Return(7, NOTHING), env);
    var inner := EnterBlock(6, None, FIRST_CLAUSE.stmts, env);
    assert Analyze(Return(7, NOTHING), true, inner) == Eval(7, [], inner).Then(Fx(If1(true, 7), {}, {}, {}, false));
    assert Eval(7, [], inner).errs == {};
  }

  lemma {:induction false} EmptyBlock(env: Env)
    requires env.level > 0
    ensures var f := Analyze(SECOND_CLAUSE, true, env); f.errs == {} && f.completes
  {
    var inner := EnterBlock(8, None, [], env);
    assert AnalyzeSeq([], true, inner) == Fx({}, {}, {}, {}, true) && FirstUnreachable([], true, inner).None?;
    assert Analyze(SECOND_CLAUSE, true, env) == AnalyzeBlock(8, None, [], true, env);
  }

  lemma {:induction false} DeadCatches(found: set<Class>, env: Env)
    requires env.level > 0 && env.h == Files() && 5 in found
    ensures var f := AnalyzeCatches(DEAD_TRY.catches, [], found, env); f.errs == {} && f.completes
  {
    hide Analyze;
    var first, second := Catch(5, FIRST_CLAUSE), Catch(4, SECOND_CLAUSE);
    FilesClasses();
    ReturningBlock(env);
    EmptyBlock(env);
    assert [first, second][1..] == [second] && [second][1..] == [];
    assert IsSubclass(env.h, 5, 5) && CatchReachable(env.h, found, 5) && CatchReachable(env.h, found, 4);
    var before := [] + [5];
    assert before == [5] && !Covers(env.h, before, 4) && !Covers(env.h, [], 5);
    var rest := AnalyzeCatches([second], before, found, env);
    var none := AnalyzeCatches([], before + [4], found, env);
    assert rest == Analyze(SECOND_CLAUSE, true, env).Then(none).(completes := true);
    assert rest.errs == {} && rest.completes;
  }

  lemma {:induction false} DeadTryAnalyzed(env: Env)
    requires env.level > 0 && env.h == Files()
    ensures var f := Analyze(DEAD_TRY, true, env); Quiet(f.errs) && f.completes
  {
    hide AnalyzeCatches, Analyze, CatchTypes;
    var env1 := EnterTry(env, false, CatchTypes(DEAD_TRY.catches));
    ThrowingBlock(env1);
    DeadCatches(Analyze(TRY_BLOCK, true, env1).exc + {ERROR, RUNTIME_EXCEPTION}, EnterTry(env, false, []));
    TryIs(DEAD_TRY, env);
  }

  lemma {:induction false} TryIs(s: Stmt, env: Env)
    requires s.Try? && env.level > 0
    ensures Analyze(s, true, env) == AnalyzeTry(s, true, env)
  {
  }

  lemma {:induction false} DeadBodyAnalyzed()
    ensures var f := AnalyzeBody(DEAD_BODY, false, Files(), InMethod([])); f.completes && Quiet(f.errs)
  {
    hide Analyze, AnalyzeSeq, FirstUnreachable;
    var inner := EnterBlock(1, None, [DEAD_TRY], MethodEnv(Files(), InMethod([])));
    DeadTryAnalyzed(inner);
    OneStatement(DEAD_TRY, inner);
    assert GapErrors([DEAD_TRY], true, true, inner) == {};
  }

  /** The try block throws a FileNotFoundException or something unchecked. */
  lemma {:induction false} BlockOutcome(p: Run)
    requires IsRun(Files(), TRY_BLOCK, None, p)
    ensures p.out.Suspended? || (p.out.ThrowOut? && MayThrow(Files(), [5], p.out.cls))
  {
    OneRun(Files(), 3, Throw(4, NOTHING, 5), p);
  }

  lemma {:induction false} NeverSecond(x: Class)
    requires MayThrow(Files(), [5], x) && !IsSubclass(Files(), x, 5)
    ensures !IsSubclass(Files(), x, 4)
  {
    FilesClasses();
    assert !Checked(Files(), x);
    if IsSubclass(Files(), x, 4) {
      if IsSubclass(Files(), x, RUNTIME_EXCEPTION) {
        SuperclassesComparable(Files(), x, 4, RUNTIME_EXCEPTION);
      } else {
        SuperclassesComparable(Files(), x, 4, ERROR);
      }
    }
  }

  lemma {:induction false} ReturnsOnly(p: Run)
    requires IsRun(Files(), FIRST_CLAUSE, None, p)
    ensures !p.out.Normal?
  {
    OneRun(Files(), 6, Return(7, NOTHING), p);
  }

  lemma {:induction false} TryNeverEnds(q: Run, owner: Option<string>)
    requires IsRun(Files(), DEAD_TRY, owner, q)
    ensures !q.out.Normal?
  {
    if q.kids != [] {
      BlockOutcome(q.kids[0]);
      var o := q.kids[0].out;
      if o.ThrowOut? && !IsSubclass(Files(), o.cls, 5) { NeverSecond(o.cls); }
      if q.out.Normal? {
        TryEnded(Files(), q, owner);
        assert DEAD_TRY.catches[0].cls == 5 && DEAD_TRY.catches[1].cls == 4;
        assert q.pick == 0 && DEAD_TRY.catches[0].body == FIRST_CLAUSE;
        ReturnsOnly(q.kids[1]);
      }
    }
  }

  lemma {:induction false} TryEnded(h: Hierarchy, q: Run, owner: Option<string>)
    requires q.at.Try? && q.at.fin.None? && Valid(h, q, owner) && q.out.Normal?
    ensures q.kids != [] && (NoneCatches(h, q.at.catches, q.kids[0].out) ==> q.kids[0].out.Normal?)
    ensures !NoneCatches(h, q.at.catches, q.kids[0].out) ==>
              && TakenBy(h, q.at.catches, q.kids[0].out, q.pick) && |q.kids| > 1
              && IsRun(h, q.at.catches[q.pick].body, None, q.kids[1]) && q.kids[1].out.Normal?
  {
    hide Catches;
  }

  /** In `try { throw new FileNotFoundException(); } catch (FileNotFoundException e) { return; }
      catch (IOException e) {}` all that the second clause could catch is caught before. A body of this alone is
      taken to be able to complete, and never does. */
  lemma {:induction false} SecondClauseDead()
    ensures var f := AnalyzeBody(DEAD_BODY, false, Files(), InMethod([]));
            IsPlain(DEAD_BODY) && Shape(DEAD_BODY) && Unique(DEAD_BODY) && Quiet(f.errs) && f.completes
    ensures !ClauseTaken(Files(), DEAD_TRY, 1) && !Ends(Files(), DEAD_BODY, None, Normal)
  {
    hide Analyze, Valid, Shape, Unique;
    DeadShape();
    DeadBodyAnalyzed();
    forall p: Run | IsRun(Files(), TRY_BLOCK, None, p) ensures !TakenBy(Files(), DEAD_TRY.catches, p.out, 1) {
      BlockOutcome(p);
      if p.out.ThrowOut? && !IsSubclass(Files(), p.out.cls, 5) { NeverSecond(p.out.cls); }
      assert DEAD_TRY.catches[0].cls == 5 && DEAD_TRY.catches[1].cls == 4;
    }
    forall q: Run | IsRun(Files(), DEAD_BODY, None, q) ensures !q.out.Normal? {
      BodyNeverEnds(q);
    }
  }

  lemma {:induction false} BodyNeverEnds(q: Run)
    requires IsRun(Files(), DEAD_BODY, None, q)
    ensures !q.out.Normal?
  {
    OneRun(Files(), 1, DEAD_TRY, q);
    if q.kids != [] { TryNeverEnds(q.kids[0], None); }
  }
}
