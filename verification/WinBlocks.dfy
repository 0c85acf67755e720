/** Removal of conditional code for Windows: one pass over the lines that drops or unwraps conditionals
    whose condition starts with a Windows macro. */
module WinBlocks {
  import opened Options
  import opened Preprocessor

  predicate PatternAt(name: string, i: nat) {
    i <= |name| &&
    var rest := name[i..];
    || "WIN32_FILE_SYSTEM" <= rest || "HAVE_WINDOWS_H" <= rest || "HAVE_DIRECT_H" <= rest
    || "HAVE_WIN32_MKDIR" <= rest || "HAVE_CYGWIN" <= rest || "HAVE_VCPP_SET_NEW_HANDLER" <= rest
    || "HAVE_PATHNAME_STYLE_DOS" <= rest
  }

  /** A name that starts with a pattern, and one that has it anywhere. */
  predicate StartsWindows(name: string) {
    PatternAt(name, 0)
  }

  predicate HasWindows(name: string) {
    exists i :: 0 <= i <= |name| && PatternAt(name, i)
  }

  /** The expression starts with a Windows macro, possibly in defined(...). An `||` on the left of an `&&` is
      in parentheses, so that expression starts with one of those. */
  predicate HeadedWindows(c: Cond) {
    match c
    case Macro(m) => StartsWindows(m)
    case Not(_) => false
    case And(a, _) => !a.Or? && HeadedWindows(a)
    case Or(a, _) => HeadedWindows(a)
  }

  /** A pattern occurs somewhere in the expression. */
  predicate MentionsWindows(c: Cond) {
    match c
    case Macro(m) => HasWindows(m)
    case Not(d) => MentionsWindows(d)
    case And(a, b) => MentionsWindows(a) || MentionsWindows(b)
    case Or(a, b) => MentionsWindows(a) || MentionsWindows(b)
  }

  // ---- The scan for the end of a block

  /** Past the matching #endif, or the end of the file; and the last bare #else and the last #elif without
      a pattern at the level of the block. */
  datatype Found = Found(next: nat, elseIdx: Option<nat>, elifIdx: Option<nat>)

  function Scan(lines: seq<Line>, i: nat, nesting: nat, f: Found): (r: Found)
    requires i <= |lines|
    ensures i <= r.next <= |lines|
    ensures r.elseIdx.Some? ==> r.elseIdx == f.elseIdx || i <= r.elseIdx.value < r.next
    ensures r.elifIdx.Some? ==> r.elifIdx == f.elifIdx || i <= r.elifIdx.value < r.next
    ensures nesting > 0 && i < |lines| ==> r.next > i
    decreases |lines| - i
  {
    if i == |lines| || nesting == 0 then f.(next := i) else
      match lines[i]
      case If(_) => Scan(lines, i + 1, nesting + 1, f)
      case Endif => Scan(lines, i + 1, nesting - 1, f)
      case Else(bare) => Scan(lines, i + 1, nesting, if nesting == 1 && bare then f.(elseIdx := Some(i)) else f)
      case Elif(c) =>
        Scan(lines, i + 1, nesting, if nesting == 1 && !MentionsWindows(c) then f.(elifIdx := Some(i)) else f)
      case Text(_) => Scan(lines, i + 1, nesting, f)
  }

  /** What is kept of the block that the scan went through. */
  function Kept(lines: seq<Line>, f: Found): seq<Line>
    requires 0 < f.next <= |lines|
    requires f.elseIdx.Some? ==> f.elseIdx.value < f.next
    requires f.elifIdx.Some? ==> f.elifIdx.value < f.next && lines[f.elifIdx.value].Elif?
  {
    if f.elseIdx.Some? then
      if f.elseIdx.value + 1 <= f.next - 1 then lines[f.elseIdx.value + 1..f.next - 1] else []
    else if f.elifIdx.Some? then
      [If(lines[f.elifIdx.value].cond)] + lines[f.elifIdx.value + 1..f.next]
    else []
  }

  /** Past an #elif branch: the next branch or the #endif of its conditional. */
  function Skip(lines: seq<Line>, i: nat, nesting: nat): (r: nat)
    requires i <= |lines|
    ensures i <= r <= |lines|
    decreases |lines| - i
  {
    if i == |lines| then i else
      match lines[i]
      case If(_) => Skip(lines, i + 1, nesting + 1)
      case Endif => if nesting == 0 then i else Skip(lines, i + 1, nesting - 1)
      case Else(_) => if nesting == 0 then i else Skip(lines, i + 1, nesting)
      case Elif(_) => if nesting == 0 then i else Skip(lines, i + 1, nesting)
      case Text(_) => Skip(lines, i + 1, nesting)
  }

  lemma {:induction false} ScanFindsElif(lines: seq<Line>, i: nat, nesting: nat, f: Found)
    requires i <= |lines|
    requires f.elifIdx.Some? ==> f.elifIdx.value < |lines| && lines[f.elifIdx.value].Elif?
    ensures var r := Scan(lines, i, nesting, f);
            r.elifIdx.Some? ==> r.elifIdx.value < |lines| && lines[r.elifIdx.value].Elif?
    decreases |lines| - i
  {
    if i < |lines| && nesting > 0 {
      match lines[i]
      case If(_) => ScanFindsElif(lines, i + 1, nesting + 1, f);
      case Endif => ScanFindsElif(lines, i + 1, nesting - 1, f);
      case Else(bare) =>
        ScanFindsElif(lines, i + 1, nesting, if nesting == 1 && bare then f.(elseIdx := Some(i)) else f);
      case Elif(c) =>
        ScanFindsElif(lines, i + 1, nesting, if nesting == 1 && !MentionsWindows(c) then f.(elifIdx := Some(i)) else f);
      case Text(_) => ScanFindsElif(lines, i + 1, nesting, f);
    }
  }

  function Block(lines: seq<Line>, i: nat): (f: Found)
    requires i < |lines|
    ensures i < f.next <= |lines|
    ensures f.elseIdx.Some? ==> i < f.elseIdx.value < f.next
    ensures f.elifIdx.Some? ==> i < f.elifIdx.value < f.next && lines[f.elifIdx.value].Elif?
  {
    ScanFindsElif(lines, i + 1, 1, Found(0, None, None));
    Scan(lines, i + 1, 1, Found(0, None, None))
  }

  /** The output for the lines from i on. */
  function Output(lines: seq<Line>, i: nat): seq<Line>
    requires i <= |lines|
    decreases |lines| - i
  {
    if i == |lines| then []
    else if lines[i].If? && HeadedWindows(lines[i].cond) then
      var f := Block(lines, i);
      Kept(lines, f) + Output(lines, f.next)
    else if lines[i].Elif? && HeadedWindows(lines[i].cond) then
      Output(lines, Skip(lines, i + 1, 0))
    else [lines[i]] + Output(lines, i + 1)
  }

  // ---- The same on well-nested files

  predicate Foreign(arm: Arm) {
    !MentionsWindows(arm.cond)
  }

  /** The arms from the last one without a pattern on. */
  function FromLast(arms: seq<Arm>): seq<Arm> {
    if arms == [] then []
    else if FromLast(arms[1..]) != [] then FromLast(arms[1..])
    else if Foreign(arms[0]) then arms
    else []
  }

  function Rewrite(nodes: seq<Node>): seq<Node> {
    if nodes == [] then [] else RewriteNode(nodes[0]) + Rewrite(nodes[1..])
  }

  /** A Windows block leaves its bare else part as it is, or else the part from its last #elif without a
      pattern on, or else nothing. Other conditionals lose their Windows arms. */
  function RewriteNode(node: Node): seq<Node> {
    match node
    case Plain(_) => [node]
    case Conditional(c, body, arms, els) =>
      if HeadedWindows(c) then
        var last := FromLast(arms);
        if els.Some? && els.value.bare then els.value.body
        else if last != [] then [Conditional(last[0].cond, last[0].body, last[1..], els)]
        else []
      else
        [Conditional(c, Rewrite(body), RewriteArms(arms),
                     if els.Some? then Some(ElsePart(els.value.bare, Rewrite(els.value.body))) else None)]
  }

  function RewriteArms(arms: seq<Arm>): seq<Arm> {
    if arms == [] then [] else
      var arm := arms[0];
      (if HeadedWindows(arm.cond) then [] else [Arm(arm.cond, Rewrite(arm.body))]) + RewriteArms(arms[1..])
  }

  // ---- Meaning

  /** No Windows macro is defined. */
  ghost predicate NoWindows(env: set<string>) {
    forall m :: m in env ==> !HasWindows(m)
  }

  /** Without Windows macros the condition cannot hold. */
  ghost predicate OnlyWindows(c: Cond) {
    forall env :: NoWindows(env) ==> !Holds(c, env)
  }

  function Bare(els: Option<ElsePart>): Option<bool> {
    if els.Some? then Some(els.value.bare) else None
  }

  /** The branches of a Windows block that survive. Those for Windows only may go. If there is no other, an
      #else must be bare. If the first other one does not mention Windows, it must be the last such one, and no
      bare #else may follow. If it does, it is lost. */
  ghost predicate GoodArms(arms: seq<Arm>, els: Option<bool>) {
    if arms == [] then els != Some(false)
    else if Foreign(arms[0]) then els != Some(true) && forall k :: 0 < k < |arms| ==> !Foreign(arms[k])
    else OnlyWindows(arms[0].cond) && GoodArms(arms[1..], els)
  }

  ghost predicate Supported(nodes: seq<Node>) {
    nodes != [] ==> SupportedNode(nodes[0]) && Supported(nodes[1..])
  }

  ghost predicate SupportedNode(node: Node) {
    match node
    case Plain(_) => true
    case Conditional(c, body, arms, els) =>
      if HeadedWindows(c) then
        OnlyWindows(c) && GoodArms(arms, Bare(els))
      else
        Supported(body) && SupportedArms(arms) && (els.Some? ==> Supported(els.value.body))
  }

  ghost predicate SupportedArms(arms: seq<Arm>) {
    arms != [] ==>
      var arm := arms[0];
      (if HeadedWindows(arm.cond) then OnlyWindows(arm.cond) else Supported(arm.body)) && SupportedArms(arms[1..])
  }

  lemma {:induction false} MacroOnlyWindows(m: string)
    requires StartsWindows(m)
    ensures OnlyWindows(Macro(m))
  {
    forall env | NoWindows(env) ensures !Holds(Macro(m), env) {
      assert PatternAt(m, 0);
    }
  }

  /** A condition that starts with a Windows macro is for Windows only, unless there is an `||` outside
      parentheses. */
  lemma {:induction false} HeadOnlyWindows(c: Cond)
    requires HeadedWindows(c) && !HasOr(c)
    ensures OnlyWindows(c)
  {
    match c
    case Macro(m) => MacroOnlyWindows(m);
    case And(a, _) => HeadOnlyWindows(a);
  }

  predicate HasOr(c: Cond) {
    match c
    case Macro(_) => false
    case Not(_) => false
    case And(a, _) => HasOr(a)
    case Or(_, _) => true
  }

  lemma {:induction false} NoForeign(arms: seq<Arm>)
    ensures FromLast(arms) == [] <==> forall k :: 0 <= k < |arms| ==> !Foreign(arms[k])
  {
    if arms != [] {
      NoForeign(arms[1..]);
      assert forall k :: 0 < k < |arms| ==> arms[k] == arms[1..][k - 1];
      assert forall k :: 0 <= k < |arms| - 1 ==> arms[1..][k] == arms[k + 1];
    }
  }

  /** Without Windows macros, Windows arms are never chosen. */
  lemma {:induction false} ArmsFromLast(arms: seq<Arm>, els: Option<ElsePart>, env: set<string>)
    requires NoWindows(env) && GoodArms(arms, Bare(els))
    ensures FromLast(arms) == [] ==> Bare(els) != Some(false)
    ensures FromLast(arms) != [] ==> Bare(els) != Some(true)
    ensures ActiveArms(arms, ActiveElse(els, env), env) == ActiveArms(FromLast(arms), ActiveElse(els, env), env)
  {
    if arms != [] {
      if Foreign(arms[0]) {
        NoForeign(arms[1..]);
      } else {
        ArmsFromLast(arms[1..], els, env);
        assert !Holds(arms[0].cond, env);
      }
    }
  }

  lemma {:induction false} RewriteMeaning(nodes: seq<Node>, env: set<string>)
    requires NoWindows(env) && Supported(nodes)
    ensures Active(Rewrite(nodes), env) == Active(nodes, env)
    decreases nodes, 0
  {
    if nodes != [] {
      RewriteNodeMeaning(nodes[0], env);
      RewriteMeaning(nodes[1..], env);
      ActiveBoth(RewriteNode(nodes[0]), Rewrite(nodes[1..]), env);
    }
  }

  lemma {:induction false} ActiveBoth(a: seq<Node>, b: seq<Node>, env: set<string>)
    ensures Active(a + b, env) == Active(a, env) + Active(b, env)
  {
    if a == [] {
      assert [] + b == b;
    } else {
      assert (a + b)[1..] == a[1..] + b;
      ActiveBoth(a[1..], b, env);
    }
  }

  lemma {:induction false} RewriteNodeMeaning(node: Node, env: set<string>)
    requires NoWindows(env) && SupportedNode(node)
    ensures Active(RewriteNode(node), env) == ActiveNode(node, env)
    decreases node, 0
  {
    match node
    case Plain(_) =>
    case Conditional(c, body, arms, els) =>
      if HeadedWindows(c) {
        WindowsBlockMeaning(node, env);
      } else {
        RewriteMeaning(body, env);
        RewriteArmsMeaning(arms, ActiveElse(els, env), env);
        if els.Some? { RewriteMeaning(els.value.body, env); }
        var next := RewriteNode(node);
        assert next[1..] == [] && ActiveElse(next[0].els, env) == ActiveElse(els, env);
        assert Active(next, env) == ActiveNode(next[0], env) + [];
      }
  }

  lemma {:induction false} WindowsBlockMeaning(node: Node, env: set<string>)
    requires NoWindows(env) && node.Conditional? && HeadedWindows(node.cond) && SupportedNode(node)
    ensures Active(RewriteNode(node), env) == ActiveNode(node, env)
  {
    assert !Holds(node.cond, env);
    ArmsFromLast(node.arms, node.els, env);
  }

  lemma {:induction false} RewriteArmsMeaning(arms: seq<Arm>, otherwise: seq<string>, env: set<string>)
    requires NoWindows(env) && SupportedArms(arms)
    ensures ActiveArms(RewriteArms(arms), otherwise, env) == ActiveArms(arms, otherwise, env)
    decreases arms, 0
  {
    if arms != [] {
      var arm := arms[0];
      RewriteArmsMeaning(arms[1..], otherwise, env);
      var rest := RewriteArms(arms[1..]);
      if HeadedWindows(arm.cond) {
        assert !Holds(arm.cond, env);
        assert [] + rest == rest;
      } else {
        RewriteMeaning(arm.body, env);
        assert ([Arm(arm.cond, Rewrite(arm.body))] + rest)[1..] == rest;
      }
    }
  }
}
