/** C preprocessor conditionals: source lines, well-nested files, and which lines are active. */
module Preprocessor {
  import opened Options

  /** A condition over which macros are defined. `#ifdef m` and `#if defined(m)` are Macro(m), `#ifndef m` is
      Not(Macro(m)). */
  datatype Cond = Macro(name: string) | Not(c: Cond) | And(a: Cond, b: Cond) | Or(a: Cond, b: Cond)

  /** A line. An #else is bare if nothing, such as a comment, follows it. */
  datatype Line = Text(text: string) | If(cond: Cond) | Elif(cond: Cond) | Else(bare: bool) | Endif

  predicate Holds(c: Cond, env: set<string>) {
    match c
    case Macro(m) => m in env
    case Not(d) => !Holds(d, env)
    case And(a, b) => Holds(a, env) && Holds(b, env)
    case Or(a, b) => Holds(a, env) || Holds(b, env)
  }

  // ---- Line by line, as a preprocessor works

  /** An open conditional: whether a branch has been taken, and whether the current branch is active. */
  datatype Frame = Frame(taken: bool, active: bool)

  predicate On(stack: seq<Frame>) {
    stack == [] || stack[|stack| - 1].active
  }

  /** The text lines that remain, with these macros defined. A directive that nothing opened is ignored. */
  function Preprocess(lines: seq<Line>, env: set<string>, stack: seq<Frame>): seq<string>
    decreases |lines|
  {
    if lines == [] then [] else
      var n, rest := |stack| - 1, lines[1..];
      match lines[0]
      case Text(s) => (if On(stack) then [s] else []) + Preprocess(rest, env, stack)
      case If(c) =>
        var v := On(stack) && Holds(c, env);
        Preprocess(rest, env, stack + [Frame(v, v)])
      case Elif(c) =>
        if n < 0 then Preprocess(rest, env, stack) else
          var v := On(stack[..n]) && !stack[n].taken && Holds(c, env);
          Preprocess(rest, env, stack[..n] + [Frame(stack[n].taken || v, v)])
      case Else(_) =>
        if n < 0 then Preprocess(rest, env, stack) else
          Preprocess(rest, env, stack[..n] + [Frame(true, On(stack[..n]) && !stack[n].taken)])
      case Endif => Preprocess(rest, env, if n < 0 then stack else stack[..n])
  }

  // ---- Well-nested files

  datatype Node = Plain(text: string) | Conditional(cond: Cond, body: seq<Node>, arms: seq<Arm>, els: Option<ElsePart>)

  datatype Arm = Arm(cond: Cond, body: seq<Node>)

  datatype ElsePart = ElsePart(bare: bool, body: seq<Node>)

  function Lines(nodes: seq<Node>): seq<Line> {
    if nodes == [] then [] else NodeLines(nodes[0]) + Lines(nodes[1..])
  }

  function NodeLines(node: Node): seq<Line> {
    match node
    case Plain(s) => [Text(s)]
    case Conditional(c, body, arms, els) => [If(c)] + Lines(body) + ArmLines(arms) + ElseLines(els) + [Endif]
  }

  function ArmLines(arms: seq<Arm>): seq<Line> {
    if arms == [] then [] else
      var arm := arms[0];
      [Elif(arm.cond)] + Lines(arm.body) + ArmLines(arms[1..])
  }

  function ElseLines(els: Option<ElsePart>): seq<Line> {
    if els.None? then [] else [Else(els.value.bare)] + Lines(els.value.body)
  }

  /** The active text of a file, by its structure. */
  function Active(nodes: seq<Node>, env: set<string>): seq<string> {
    if nodes == [] then [] else ActiveNode(nodes[0], env) + Active(nodes[1..], env)
  }

  function ActiveNode(node: Node, env: set<string>): seq<string> {
    match node
    case Plain(s) => [s]
    case Conditional(c, body, arms, els) =>
      if Holds(c, env) then Active(body, env) else ActiveArms(arms, ActiveElse(els, env), env)
  }

  function ActiveElse(els: Option<ElsePart>, env: set<string>): seq<string> {
    if els.None? then [] else Active(els.value.body, env)
  }

  /** The first arm whose condition holds, or else `otherwise`. */
  function ActiveArms(arms: seq<Arm>, otherwise: seq<string>, env: set<string>): seq<string>
    decreases arms
  {
    if arms == [] then otherwise
    else if Holds(arms[0].cond, env) then Active(arms[0].body, env)
    else ActiveArms(arms[1..], otherwise, env)
  }

  // ---- The two agree

  lemma {:induction false} PreprocessLines(nodes: seq<Node>, rest: seq<Line>, env: set<string>, stack: seq<Frame>)
    ensures Preprocess(Lines(nodes) + rest, env, stack) ==
            (if On(stack) then Active(nodes, env) else []) + Preprocess(rest, env, stack)
    decreases nodes, 0
  {
    if nodes == [] {
      assert [] + rest == rest;
    } else {
      var tail := Lines(nodes[1..]) + rest;
      assert Lines(nodes) + rest == NodeLines(nodes[0]) + tail;
      PreprocessNode(nodes[0], tail, env, stack);
      PreprocessLines(nodes[1..], rest, env, stack);
    }
  }

  lemma {:induction false} PreprocessNode(node: Node, rest: seq<Line>, env: set<string>, stack: seq<Frame>)
    ensures Preprocess(NodeLines(node) + rest, env, stack) ==
            (if On(stack) then ActiveNode(node, env) else []) + Preprocess(rest, env, stack)
    decreases node, |if node.Conditional? then node.arms else []| + 1
  {
    hide Preprocess, NodeLines, ArmLines, ElseLines, Lines, Active;
    match node
    case Plain(s) => TextStep(s, rest, env, stack);
    case Conditional(c, body, arms, els) =>
      var afterBody := ArmLines(arms) + ElseLines(els) + ([Endif] + rest);
      var v := On(stack) && Holds(c, env);
      var inner := stack + [Frame(v, v)];
      IfStep(node, rest, env, stack);
      PreprocessLines(body, afterBody, env, inner);
      assert arms[0..] == arms;
      PreprocessArms(node, 0, rest, env, stack, v, v);
  }

  lemma {:induction false} TextStep(s: string, rest: seq<Line>, env: set<string>, stack: seq<Frame>)
    ensures Preprocess(NodeLines(Plain(s)) + rest, env, stack) == (if On(stack) then [s] else []) +
                                                                  Preprocess(rest, env, stack)
  {
    assert ([Text(s)] + rest)[1..] == rest;
  }

  lemma {:induction false} IfStep(node: Node, rest: seq<Line>, env: set<string>, stack: seq<Frame>)
    requires node.Conditional?
    ensures var v := On(stack) && Holds(node.cond, env);
            Preprocess(NodeLines(node) + rest, env, stack) ==
            Preprocess(Lines(node.body) + (ArmLines(node.arms) + ElseLines(node.els) + ([Endif] + rest)), env,
                       stack + [Frame(v, v)])
  {
    hide ArmLines, ElseLines, Lines, Holds;
    var x, y, z := Lines(node.body), ArmLines(node.arms), ElseLines(node.els);
    Regrouped([If(node.cond)], x, y, z, [Endif], rest);
    assert ([If(node.cond)] + (x + (y + z + ([Endif] + rest))))[1..] == x + (y + z + ([Endif] + rest));
  }

  lemma {:induction false} Regrouped(a: seq<Line>, x: seq<Line>, y: seq<Line>, z: seq<Line>, b: seq<Line>,
                                     rest: seq<Line>)
    ensures a + x + y + z + b + rest == a + (x + (y + z + (b + rest)))
  {
  }

  /** From arm k on: an earlier branch has been taken or not. */
  lemma {:induction false} PreprocessArms(node: Node, k: nat, rest: seq<Line>, env: set<string>, stack: seq<Frame>,
                                          taken: bool, active: bool)
    requires node.Conditional? && k <= |node.arms| && (active ==> taken)
    ensures Preprocess(ArmLines(node.arms[k..]) + ElseLines(node.els) + ([Endif] + rest), env,
                       stack + [Frame(taken, active)]) ==
            (if On(stack) && !taken then ActiveArms(node.arms[k..], ActiveElse(node.els, env), env) else []) +
            Preprocess(rest, env, stack)
    decreases node, |node.arms| - k
  {
    hide Preprocess, ActiveElse, NodeLines, ElseLines;
    var last := [Endif] + rest;
    if k < |node.arms| {
      var arm := node.arms[k];
      var more := ArmLines(node.arms[k + 1..]) + ElseLines(node.els) + last;
      var v := On(stack) && !taken && Holds(arm.cond, env);
      assert node.arms[k..][1..] == node.arms[k + 1..];
      assert ArmLines(node.arms[k..]) + ElseLines(node.els) + last == [Elif(arm.cond)] + (Lines(arm.body) + more);
      ElifStep(arm.cond, Lines(arm.body) + more, env, stack, taken, active);
      PreprocessLines(arm.body, more, env, stack + [Frame(taken || v, v)]);
      PreprocessArms(node, k + 1, rest, env, stack, taken || v, v);
    } else {
      assert ArmLines(node.arms[k..]) == [];
      assert ArmLines(node.arms[k..]) + ElseLines(node.els) + last == ElseLines(node.els) + last;
      PreprocessElse(node, rest, env, stack, taken, active);
    }
  }

  lemma {:induction false} ElifStep(c: Cond, rest: seq<Line>, env: set<string>, stack: seq<Frame>, taken: bool,
                                    active: bool)
    ensures var v := On(stack) && !taken && Holds(c, env);
            Preprocess([Elif(c)] + rest, env, stack + [Frame(taken, active)]) ==
            Preprocess(rest, env, stack + [Frame(taken || v, v)])
  {
    assert (stack + [Frame(taken, active)])[..|stack|] == stack && ([Elif(c)] + rest)[1..] == rest;
  }

  lemma {:induction false} PreprocessElse(node: Node, rest: seq<Line>, env: set<string>, stack: seq<Frame>, taken: bool,
                                          active: bool)
    requires node.Conditional?
    ensures Preprocess(ElseLines(node.els) + ([Endif] + rest), env, stack + [Frame(taken, active)]) ==
            (if On(stack) && !taken then ActiveElse(node.els, env) else []) + Preprocess(rest, env, stack)
    decreases node, 0, 0
  {
    var top, last := stack + [Frame(taken, active)], [Endif] + rest;
    assert top[..|stack|] == stack && last[1..] == rest;
    if node.els.Some? {
      var els := node.els.value;
      var next := stack + [Frame(true, On(stack) && !taken)];
      assert ElseLines(node.els) + last == [Else(els.bare)] + (Lines(els.body) + last);
      PreprocessLines(els.body, last, env, next);
      assert next[..|stack|] == stack;
    } else {
      assert ElseLines(node.els) + last == last;
    }
  }

  /** The preprocessor leaves the active text of a well-nested file. */
  lemma {:induction false} PreprocessFile(nodes: seq<Node>, env: set<string>)
    ensures Preprocess(Lines(nodes), env, []) == Active(nodes, env)
  {
    assert Lines(nodes) + [] == Lines(nodes);
    PreprocessLines(nodes, [], env, []);
  }
}
