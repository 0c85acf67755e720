/** The pass over the lines does to a well-nested file what the rewriting of its structure says, so it
    preserves the meaning of supported files. */
module WinRewrite {
  import opened Options
  import opened Preprocessor
  import opened WinBlocks
  import opened WinGone

  /** `part` stands in the lines from i on. */
  predicate Here(lines: seq<Line>, i: nat, part: seq<Line>) {
    i + |part| <= |lines| && lines[i..i + |part|] == part
  }

  lemma {:induction false} HereBoth(lines: seq<Line>, i: nat, a: seq<Line>, b: seq<Line>)
    requires Here(lines, i, a + b)
    ensures Here(lines, i, a) && Here(lines, i + |a|, b)
  {
    assert lines[i..i + |a|] == (a + b)[..|a|];
    assert lines[i + |a|..i + |a + b|] == (a + b)[|a|..];
  }

  lemma {:induction false} HereFirst(lines: seq<Line>, i: nat, x: Line, b: seq<Line>)
    requires Here(lines, i, [x] + b)
    ensures i < |lines| && lines[i] == x && Here(lines, i + 1, b)
  {
    HereBoth(lines, i, [x], b);
    assert lines[i..i + 1][0] == x;
  }

  lemma {:induction false} NoLines()
    ensures Lines([]) == [] && ArmLines([]) == [] && Rewrite([]) == [] && RewriteArms([]) == []
  {
  }

  lemma {:induction false} LinesFirst(lines: seq<Line>, i: nat, nodes: seq<Node>)
    requires nodes != [] && Here(lines, i, Lines(nodes))
    ensures Here(lines, i, NodeLines(nodes[0])) && Here(lines, i + |NodeLines(nodes[0])|, Lines(nodes[1..]))
    ensures |Lines(nodes)| == |NodeLines(nodes[0])| + |Lines(nodes[1..])|
    ensures Rewrite(nodes) == RewriteNode(nodes[0]) + Rewrite(nodes[1..])
  {
    hide NodeLines, RewriteNode;
    HereBoth(lines, i, NodeLines(nodes[0]), Lines(nodes[1..]));
  }

  // ---- Scanning over whole parts

  lemma {:induction false} ScanLines(lines: seq<Line>, i: nat, nodes: seq<Node>, nesting: nat, f: Found)
    requires nesting >= 1 && Here(lines, i, Lines(nodes))
    ensures Scan(lines, i, nesting, f) == Scan(lines, i + |Lines(nodes)|, nesting, f)
    decreases nodes, 0
  {
    hide Scan, Here, NodeLines, Lines, Rewrite;
    NoLines();
    if nodes != [] {
      LinesFirst(lines, i, nodes);
      ScanNode(lines, i, nodes[0], nesting, f);
      ScanLines(lines, i + |NodeLines(nodes[0])|, nodes[1..], nesting, f);
    }
  }

  /** One line of the scan. */
  lemma {:induction false} ScanStep(lines: seq<Line>, i: nat, nesting: nat, f: Found)
    requires i < |lines| && nesting >= 1
    ensures lines[i].Text? ==> Scan(lines, i, nesting, f) == Scan(lines, i + 1, nesting, f)
    ensures lines[i].If? ==> Scan(lines, i, nesting, f) == Scan(lines, i + 1, nesting + 1, f)
    ensures lines[i].Endif? ==> Scan(lines, i, nesting, f) == Scan(lines, i + 1, nesting - 1, f)
    ensures lines[i].Else? ==>
              Scan(lines, i, nesting, f) ==
              Scan(lines, i + 1, nesting, if nesting == 1 && lines[i].bare then f.(elseIdx := Some(i)) else f)
    ensures lines[i].Elif? ==>
              Scan(lines, i, nesting, f) ==
              Scan(lines, i + 1, nesting,
                   if nesting == 1 && !MentionsWindows(lines[i].cond) then f.(elifIdx := Some(i)) else f)
  {
  }

  lemma {:induction false} ScanText(lines: seq<Line>, i: nat, node: Node, nesting: nat, f: Found)
    requires nesting >= 1 && node.Plain? && Here(lines, i, NodeLines(node))
    ensures Scan(lines, i, nesting, f) == Scan(lines, i + |NodeLines(node)|, nesting, f)
  {
    HereFirst(lines, i, Text(node.text), []);
  }

  lemma {:induction false} ScanNode(lines: seq<Line>, i: nat, node: Node, nesting: nat, f: Found)
    requires nesting >= 1 && Here(lines, i, NodeLines(node))
    ensures Scan(lines, i, nesting, f) == Scan(lines, i + |NodeLines(node)|, nesting, f)
    decreases node, 0
  {
    hide Scan, Here, NodeLines, Lines, ArmLines;
    if node.Plain? {
      ScanText(lines, i, node, nesting, f);
    } else {
      NodeParts(lines, i, node);
      var b := i + 1 + |Lines(node.body)|;
      var e := b + |ArmLines(node.arms)|;
      ScanStep(lines, i, nesting, f);
      ScanLines(lines, i + 1, node.body, nesting + 1, f);
      ScanInnerArms(lines, b, node.arms, nesting + 1, f);
      ScanInnerElse(lines, e, node.els, nesting + 1, f);
    }
  }

  lemma {:induction false} ScanInnerElse(lines: seq<Line>, i: nat, els: Option<ElsePart>, nesting: nat, f: Found)
    requires nesting >= 2 && i + |ElseLines(els)| < |lines| && lines[i + |ElseLines(els)|] == Endif
    requires els.Some? ==> lines[i] == Else(els.value.bare) && Here(lines, i + 1, Lines(els.value.body))
    ensures Scan(lines, i, nesting, f) == Scan(lines, i + |ElseLines(els)| + 1, nesting - 1, f)
    decreases els, 0
  {
    hide Scan, Here, Lines;
    if els.Some? {
      ScanStep(lines, i, nesting, f);
      ScanLines(lines, i + 1, els.value.body, nesting, f);
    }
    ScanStep(lines, i + |ElseLines(els)|, nesting, f);
  }

  /** The parts of a conditional and where they stand. */
  lemma {:induction false} NodeParts(lines: seq<Line>, i: nat, node: Node)
    requires node.Conditional? && Here(lines, i, NodeLines(node))
    ensures var x, y, z := Lines(node.body), ArmLines(node.arms), ElseLines(node.els);
            && |NodeLines(node)| == 2 + |x| + |y| + |z| && i + 2 + |x| + |y| + |z| <= |lines|
            && lines[i] == If(node.cond) && Here(lines, i + 1, x) && Here(lines, i + 1 + |x|, y)
            && Here(lines, i + 1 + |x| + |y|, z)
            && lines[i + 1 + |x| + |y| + |z|] == Endif
    ensures node.els.Some? ==>
              var at := i + 1 + |Lines(node.body)| + |ArmLines(node.arms)|;
              lines[at] == Else(node.els.value.bare) && Here(lines, at + 1, Lines(node.els.value.body))
  {
    hide Here, Lines, ArmLines;
    var x, y, z := Lines(node.body), ArmLines(node.arms), ElseLines(node.els);
    FiveParts(lines, i, If(node.cond), x, y, z, Endif);
    if node.els.Some? {
      HereFirst(lines, i + 1 + |x| + |y|, Else(node.els.value.bare), Lines(node.els.value.body));
    }
  }

  lemma {:induction false} FiveParts(lines: seq<Line>, i: nat, a: Line, x: seq<Line>, y: seq<Line>, z: seq<Line>,
                                     b: Line)
    requires Here(lines, i, [a] + x + y + z + [b])
    ensures i + 2 + |x| + |y| + |z| <= |lines| && lines[i] == a && lines[i + 1 + |x| + |y| + |z|] == b
    ensures Here(lines, i + 1, x) && Here(lines, i + 1 + |x|, y) && Here(lines, i + 1 + |x| + |y|, z)
  {
    hide Here;
    HereBoth(lines, i, [a] + x + y + z, [b]);
    HereBoth(lines, i, [a] + x + y, z);
    HereBoth(lines, i, [a] + x, y);
    HereFirst(lines, i, a, x);
    HereFirst(lines, i + 1 + |x| + |y| + |z|, b, []);
  }

  lemma {:induction false} ScanInnerArms(lines: seq<Line>, i: nat, arms: seq<Arm>, nesting: nat, f: Found)
    requires nesting >= 2 && Here(lines, i, ArmLines(arms))
    ensures Scan(lines, i, nesting, f) == Scan(lines, i + |ArmLines(arms)|, nesting, f)
    decreases arms, 0
  {
    hide Scan, Here, Lines, ArmLines, MentionsWindows;
    NoLines();
    if arms != [] {
      ArmParts(lines, i, arms);
      ScanStep(lines, i, nesting, f);
      ScanLines(lines, i + 1, arms[0].body, nesting, f);
      ScanInnerArms(lines, i + 1 + |Lines(arms[0].body)|, arms[1..], nesting, f);
    }
  }

  lemma {:induction false} ArmParts(lines: seq<Line>, i: nat, arms: seq<Arm>)
    requires arms != [] && Here(lines, i, ArmLines(arms))
    ensures var body := Lines(arms[0].body);
            && |ArmLines(arms)| == 1 + |body| + |ArmLines(arms[1..])|
            && i < |lines| && lines[i] == Elif(arms[0].cond) && Here(lines, i + 1, body)
            && Here(lines, i + 1 + |body|, ArmLines(arms[1..]))
  {
    hide Here, Lines;
    var body, rest := Lines(arms[0].body), ArmLines(arms[1..]);
    ThreeParts(lines, i, Elif(arms[0].cond), body, rest);
  }

  lemma {:induction false} ThreeParts(lines: seq<Line>, i: nat, a: Line, x: seq<Line>, y: seq<Line>)
    requires Here(lines, i, [a] + x + y)
    ensures i < |lines| && lines[i] == a && Here(lines, i + 1, x) && Here(lines, i + 1 + |x|, y)
  {
    hide Here;
    HereBoth(lines, i, [a] + x, y);
    HereFirst(lines, i, a, x);
  }

  /** Where the last arm without a pattern starts. */
  function LastIdx(i: nat, arms: seq<Arm>, none: Option<nat>): Option<nat> {
    if FromLast(arms) == [] then none else Some(i + SuffixStart(arms))
  }

  function SuffixStart(arms: seq<Arm>): nat {
    if arms == [] || (FromLast(arms[1..]) == [] && Foreign(arms[0])) then 0
    else 1 + |Lines(arms[0].body)| + SuffixStart(arms[1..])
  }

  lemma {:induction false} ScanOuterArms(lines: seq<Line>, i: nat, arms: seq<Arm>, f: Found)
    requires Here(lines, i, ArmLines(arms))
    ensures Scan(lines, i, 1, f) == Scan(lines, i + |ArmLines(arms)|, 1, f.(elifIdx := LastIdx(i, arms, f.elifIdx)))
    decreases arms, 0
  {
    hide Scan, Here, Lines, ArmLines, MentionsWindows, SuffixStart;
    NoLines();
    if arms != [] {
      var arm := arms[0];
      ArmParts(lines, i, arms);
      var g := if Foreign(arm) then f.(elifIdx := Some(i)) else f;
      var next := i + 1 + |Lines(arm.body)|;
      LastIdxNext(i, arms, f.elifIdx);
      ScanStep(lines, i, 1, f);
      ScanLines(lines, i + 1, arm.body, 1, g);
      ScanOuterArms(lines, next, arms[1..], g);
    }
  }

  lemma {:induction false} LastIdxNext(i: nat, arms: seq<Arm>, none: Option<nat>)
    requires arms != []
    ensures LastIdx(i, arms, none) ==
            LastIdx(i + 1 + |Lines(arms[0].body)|, arms[1..], if Foreign(arms[0]) then Some(i) else none)
  {
  }

  /** The scan of a Windows block finds its end, its bare #else and its last #elif without a pattern. */
  lemma {:induction false} BlockFound(lines: seq<Line>, i: nat, node: Node)
    requires node.Conditional? && Here(lines, i, NodeLines(node))
    ensures i < |lines|
    ensures var start := i + 1 + |Lines(node.body)|;
            var after := start + |ArmLines(node.arms)|;
            Block(lines, i) ==
            Found(i + |NodeLines(node)|,
                  if node.els.Some? && node.els.value.bare then Some(after) else None,
                  LastIdx(start, node.arms, None))
  {
    hide Scan, Here, NodeLines, Lines, ArmLines, LastIdx;
    NodeParts(lines, i, node);
    var f := Found(0, None, None);
    var start := i + 1 + |Lines(node.body)|;
    var after := start + |ArmLines(node.arms)|;
    var last := i + |NodeLines(node)| - 1;
    ScanLines(lines, i + 1, node.body, 1, f);
    ScanOuterArms(lines, start, node.arms, f);
    var g := f.(elifIdx := LastIdx(start, node.arms, None));
    ScanElse(lines, after, node.els, last, g);
  }

  /** From the #else, if any, to behind the #endif. */
  lemma {:induction false} ScanElse(lines: seq<Line>, i: nat, els: Option<ElsePart>, last: nat, f: Found)
    requires last == i + |ElseLines(els)| < |lines| && lines[last] == Endif
    requires els.Some? ==> lines[i] == Else(els.value.bare) && Here(lines, i + 1, Lines(els.value.body))
    ensures Scan(lines, i, 1, f) ==
            (if els.Some? && els.value.bare then f.(elseIdx := Some(i)) else f).(next := last + 1)
  {
    hide Scan, Here, Lines;
    var g := if els.Some? && els.value.bare then f.(elseIdx := Some(i)) else f;
    if els.Some? {
      ScanStep(lines, i, 1, f);
      ScanLines(lines, i + 1, els.value.body, 1, g);
    }
    ScanStep(lines, last, 1, g);
    ScanPastEnd(lines, last + 1, 0, g);
  }

  lemma {:induction false} ScanPastEnd(lines: seq<Line>, i: nat, nesting: nat, f: Found)
    requires i <= |lines| && (i == |lines| || nesting == 0)
    ensures Scan(lines, i, nesting, f) == f.(next := i)
  {
  }

  lemma {:induction false} SuffixLines(arms: seq<Arm>)
    requires FromLast(arms) != []
    ensures SuffixStart(arms) <= |ArmLines(arms)| && ArmLines(arms)[SuffixStart(arms)..] == ArmLines(FromLast(arms))
  {
    if !(FromLast(arms[1..]) == [] && Foreign(arms[0])) {
      SuffixLines(arms[1..]);
      var front := [Elif(arms[0].cond)] + Lines(arms[0].body);
      assert ArmLines(arms) == front + ArmLines(arms[1..]);
    }
  }

  lemma {:induction false} KeptBlock(lines: seq<Line>, i: nat, node: Node)
    requires node.Conditional? && HeadedWindows(node.cond) && Here(lines, i, NodeLines(node))
    ensures i < |lines| && Block(lines, i).next == i + |NodeLines(node)|
    ensures Kept(lines, Block(lines, i)) == Lines(RewriteNode(node))
  {
    hide Block, Scan, HeadedWindows, MentionsWindows, NodeLines, ArmLines, FromLast, SuffixStart, Here, Lines, Rewrite;
    BlockFound(lines, i, node);
    NodeParts(lines, i, node);
    NoLines();
    var x, y, z := Lines(node.body), ArmLines(node.arms), ElseLines(node.els);
    var start, end := i + 1 + |x|, i + |NodeLines(node)|;
    var last := FromLast(node.arms);
    if node.els.Some? && node.els.value.bare {
      KeptElse(lines, start + |y|, node.els.value.body, end);
    } else if last != [] {
      SuffixLines(node.arms);
      KeptElif(lines, start, node, end);
    }
  }

  lemma {:induction false} KeptElse(lines: seq<Line>, at: nat, body: seq<Node>, end: nat)
    requires Here(lines, at + 1, Lines(body)) && end == at + |Lines(body)| + 2
    ensures lines[at + 1..end - 1] == Lines(body)
  {
  }

  lemma {:induction false} KeptElif(lines: seq<Line>, start: nat, node: Node, end: nat)
    requires node.Conditional? && FromLast(node.arms) != []
    requires var y, z := ArmLines(node.arms), ElseLines(node.els);
             && Here(lines, start, y) && Here(lines, start + |y|, z) && end == start + |y| + |z| + 1 <= |lines|
             && lines[end - 1] == Endif
    ensures var last, at := FromLast(node.arms), start + SuffixStart(node.arms);
            && at < end && lines[at] == Elif(last[0].cond)
            && [If(last[0].cond)] + lines[at + 1..end] ==
               Lines([Conditional(last[0].cond, last[0].body, last[1..], node.els)])
  {
    hide FromLast, SuffixStart, ArmLines, NodeLines, Lines;
    SuffixLines(node.arms);
    var y, z, last, k := ArmLines(node.arms), ElseLines(node.els), FromLast(node.arms), SuffixStart(node.arms);
    SliceSuffix(lines, start, y, z, k, end);
    KeptLines(last, node.els);
    var tail := ArmLines(last) + z + [Endif];
    assert lines[start + k..end] == tail;
    assert lines[start + k] == tail[0] && lines[start + k + 1..end] == tail[1..];
  }

  lemma {:induction false} SliceSuffix(lines: seq<Line>, start: nat, y: seq<Line>, z: seq<Line>, k: nat, end: nat)
    requires Here(lines, start, y) && Here(lines, start + |y|, z) && end == start + |y| + |z| + 1 <= |lines|
    requires lines[end - 1] == Endif && k <= |y|
    ensures lines[start + k..end] == y[k..] + z + [Endif]
  {
    var m := start + |y|;
    SliceTail(lines, start, m, k);
    Sliced(lines, start + k, m, end - 1);
    Sliced(lines, start + k, end - 1, end);
    assert lines[end - 1..end] == [Endif];
  }

  lemma {:induction false} SliceTail(lines: seq<Line>, i: nat, m: nat, k: nat)
    requires i + k <= m <= |lines|
    ensures lines[i + k..m] == lines[i..m][k..]
  {
  }

  lemma {:induction false} Sliced(lines: seq<Line>, i: nat, m: nat, j: nat)
    requires i <= m <= j <= |lines|
    ensures lines[i..j] == lines[i..m] + lines[m..j]
  {
  }

  lemma {:induction false} OtherFirst(x: Line, y: Line, a: seq<Line>, b: seq<Line>, c: seq<Line>)
    ensures var tail := ([x] + a + b) + c + [Endif]; tail[0] == x && [y] + tail[1..] == [y] + a + b + c + [Endif]
  {
    var tail := ([x] + a + b) + c + [Endif];
    assert tail == [x] + (a + b + c + [Endif]);
    assert [y] + (a + b + c + [Endif]) == [y] + a + b + c + [Endif];
  }

  /** A block from one of its arms on. */
  lemma {:induction false} KeptLines(last: seq<Arm>, els: Option<ElsePart>)
    requires last != []
    ensures var tail := ArmLines(last) + ElseLines(els) + [Endif];
            && tail[0] == Elif(last[0].cond)
            && [If(last[0].cond)] + tail[1..] == Lines([Conditional(last[0].cond, last[0].body, last[1..], els)])
  {
    hide Lines, ElseLines;
    var kept := Conditional(last[0].cond, last[0].body, last[1..], els);
    SingleLines(kept);
    OtherFirst(Elif(last[0].cond), If(last[0].cond), Lines(last[0].body), ArmLines(last[1..]), ElseLines(els));
  }

  lemma {:induction false} SingleLines(node: Node)
    ensures Lines([node]) == NodeLines(node)
  {
    hide NodeLines;
    assert [node][1..] == [];
    assert NodeLines(node) + [] == NodeLines(node);
  }

  // ---- Skipping over whole parts

  lemma {:induction false} SkipLines(lines: seq<Line>, i: nat, nodes: seq<Node>, nesting: nat)
    requires Here(lines, i, Lines(nodes))
    ensures Skip(lines, i, nesting) == Skip(lines, i + |Lines(nodes)|, nesting)
    decreases nodes, 0
  {
    hide Skip, Here, NodeLines, Lines, Rewrite;
    NoLines();
    if nodes != [] {
      LinesFirst(lines, i, nodes);
      SkipNode(lines, i, nodes[0], nesting);
      SkipLines(lines, i + |NodeLines(nodes[0])|, nodes[1..], nesting);
    }
  }

  /** One line that does not end a branch at its level. */
  lemma {:induction false} SkipStep(lines: seq<Line>, i: nat, nesting: nat)
    requires i < |lines|
    ensures lines[i].If? ==> Skip(lines, i, nesting) == Skip(lines, i + 1, nesting + 1)
    ensures lines[i].Endif? && nesting > 0 ==> Skip(lines, i, nesting) == Skip(lines, i + 1, nesting - 1)
    ensures (lines[i].Else? || lines[i].Elif?) && nesting > 0 ==> Skip(lines, i, nesting) == Skip(lines, i + 1, nesting)
    ensures !lines[i].Text? && !lines[i].If? && nesting == 0 ==> Skip(lines, i, nesting) == i
  {
  }

  lemma {:induction false} SkipText(lines: seq<Line>, i: nat, node: Node, nesting: nat)
    requires node.Plain? && Here(lines, i, NodeLines(node))
    ensures Skip(lines, i, nesting) == Skip(lines, i + |NodeLines(node)|, nesting)
  {
    HereFirst(lines, i, Text(node.text), []);
  }

  lemma {:induction false} SkipNode(lines: seq<Line>, i: nat, node: Node, nesting: nat)
    requires Here(lines, i, NodeLines(node))
    ensures Skip(lines, i, nesting) == Skip(lines, i + |NodeLines(node)|, nesting)
    decreases node, 0
  {
    hide Skip, Here, NodeLines, Lines, ArmLines;
    if node.Plain? {
      SkipText(lines, i, node, nesting);
    } else {
      NodeParts(lines, i, node);
      var b := i + 1 + |Lines(node.body)|;
      var e := b + |ArmLines(node.arms)|;
      SkipStep(lines, i, nesting);
      SkipLines(lines, i + 1, node.body, nesting + 1);
      SkipArms(lines, b, node.arms, nesting + 1);
      if node.els.Some? {
        SkipStep(lines, e, nesting + 1);
        SkipLines(lines, e + 1, node.els.value.body, nesting + 1);
      }
      SkipStep(lines, e + |ElseLines(node.els)|, nesting + 1);
    }
  }

  lemma {:induction false} SkipArms(lines: seq<Line>, i: nat, arms: seq<Arm>, nesting: nat)
    requires nesting >= 1 && Here(lines, i, ArmLines(arms))
    ensures Skip(lines, i, nesting) == Skip(lines, i + |ArmLines(arms)|, nesting)
    decreases arms, 0
  {
    hide Skip, Here, Lines, ArmLines;
    NoLines();
    if arms != [] {
      ArmParts(lines, i, arms);
      SkipStep(lines, i, nesting);
      SkipLines(lines, i + 1, arms[0].body, nesting);
      SkipArms(lines, i + 1 + |Lines(arms[0].body)|, arms[1..], nesting);
    }
  }

  // ---- The output

  lemma {:induction false} OutputLines(lines: seq<Line>, i: nat, nodes: seq<Node>)
    requires Here(lines, i, Lines(nodes))
    ensures Output(lines, i) == Lines(Rewrite(nodes)) + Output(lines, i + |Lines(nodes)|)
    decreases nodes, 0
  {
    hide Here, Output, RewriteNode, NodeLines, Lines, Rewrite;
    NoLines();
    if nodes != [] {
      LinesFirst(lines, i, nodes);
      OutputNode(lines, i, nodes[0]);
      OutputLines(lines, i + |NodeLines(nodes[0])|, nodes[1..]);
      LinesBoth(RewriteNode(nodes[0]), Rewrite(nodes[1..]));
    }
  }

  lemma {:induction false} LinesBoth(a: seq<Node>, b: seq<Node>)
    ensures Lines(a + b) == Lines(a) + Lines(b)
  {
    if a == [] {
      assert [] + b == b;
    } else {
      assert (a + b)[1..] == a[1..] + b;
      LinesBoth(a[1..], b);
    }
  }

  /** One line of the output. */
  lemma {:induction false} OutputCopied(lines: seq<Line>, i: nat)
    requires i < |lines| && (lines[i].If? || lines[i].Elif? ==> !HeadedWindows(lines[i].cond))
    ensures Output(lines, i) == [lines[i]] + Output(lines, i + 1)
  {
  }

  lemma {:induction false} OutputBlock(lines: seq<Line>, i: nat)
    requires i < |lines| && lines[i].If? && HeadedWindows(lines[i].cond)
    ensures Output(lines, i) == Kept(lines, Block(lines, i)) + Output(lines, Block(lines, i).next)
  {
  }

  lemma {:induction false} OutputSkipped(lines: seq<Line>, i: nat)
    requires i < |lines| && lines[i].Elif? && HeadedWindows(lines[i].cond)
    ensures Output(lines, i) == Output(lines, Skip(lines, i + 1, 0))
  {
  }

  lemma {:induction false} OutputText(lines: seq<Line>, i: nat, node: Node)
    requires node.Plain? && Here(lines, i, NodeLines(node))
    ensures Output(lines, i) == Lines(RewriteNode(node)) + Output(lines, i + |NodeLines(node)|)
  {
    hide Output;
    HereFirst(lines, i, Text(node.text), []);
    OutputCopied(lines, i);
    assert [node][1..] == [];
  }

  lemma {:induction false} OutputNode(lines: seq<Line>, i: nat, node: Node)
    requires Here(lines, i, NodeLines(node))
    ensures Output(lines, i) == Lines(RewriteNode(node)) + Output(lines, i + |NodeLines(node)|)
    decreases node, 0
  {
    hide Output, Here, NodeLines, Lines, RewriteNode, HeadedWindows, Kept, Block;
    if node.Plain? {
      OutputText(lines, i, node);
    } else if HeadedWindows(node.cond) {
      NodeParts(lines, i, node);
      KeptBlock(lines, i, node);
      OutputBlock(lines, i);
    } else {
      OutputConditional(lines, i, node);
    }
  }

  lemma {:induction false} RewrittenLines(node: Node)
    requires node.Conditional? && !HeadedWindows(node.cond)
    ensures Lines(RewriteNode(node)) ==
            [If(node.cond)] + Lines(Rewrite(node.body)) + ArmLines(RewriteArms(node.arms)) +
            (if node.els.Some? then [Else(node.els.value.bare)] + Lines(Rewrite(node.els.value.body)) else []) + [Endif]
  {
    var next := RewriteNode(node)[0];
    assert RewriteNode(node)[1..] == [];
    assert Lines(RewriteNode(node)) == NodeLines(next) + [];
  }

  lemma {:induction false} OutputConditional(lines: seq<Line>, i: nat, node: Node)
    requires node.Conditional? && !HeadedWindows(node.cond) && Here(lines, i, NodeLines(node))
    ensures Output(lines, i) == Lines(RewriteNode(node)) + Output(lines, i + |NodeLines(node)|)
    decreases node, 0, 0
  {
    hide Output, Here, NodeLines, Lines, ArmLines, Rewrite, RewriteNode, RewriteArms, HeadedWindows;
    NodeParts(lines, i, node);
    RewrittenLines(node);
    var b := i + 1 + |Lines(node.body)|;
    var e := b + |ArmLines(node.arms)|;
    OutputCopied(lines, i);
    OutputLines(lines, i + 1, node.body);
    OutputArms(lines, b, node.arms);
    if node.els.Some? {
      OutputCopied(lines, e);
      OutputLines(lines, e + 1, node.els.value.body);
    }
    OutputCopied(lines, e + |ElseLines(node.els)|);
  }

  lemma {:induction false} OutputArms(lines: seq<Line>, i: nat, arms: seq<Arm>)
    requires Here(lines, i, ArmLines(arms))
    requires var end := i + |ArmLines(arms)|; end < |lines| && (lines[end].Else? || lines[end].Endif?)
    ensures Output(lines, i) == ArmLines(RewriteArms(arms)) + Output(lines, i + |ArmLines(arms)|)
    decreases arms, 0
  {
    hide Output, Here, Lines, ArmLines, Rewrite, RewriteArms, HeadedWindows, Skip;
    NoLines();
    if arms != [] {
      var arm := arms[0];
      var next := i + 1 + |Lines(arm.body)|;
      ArmParts(lines, i, arms);
      RewrittenArms(arms);
      OutputArms(lines, next, arms[1..]);
      if HeadedWindows(arm.cond) {
        OutputSkipped(lines, i);
        SkipLines(lines, i + 1, arm.body, 0);
        if arms[1..] != [] { ArmParts(lines, next, arms[1..]); }
        SkipStep(lines, next, 0);
      } else {
        OutputCopied(lines, i);
        OutputLines(lines, i + 1, arm.body);
      }
    }
  }

  lemma {:induction false} RewrittenArms(arms: seq<Arm>)
    requires arms != []
    ensures ArmLines(RewriteArms(arms)) ==
            (if HeadedWindows(arms[0].cond) then [] else [Elif(arms[0].cond)] + Lines(Rewrite(arms[0].body))) +
            ArmLines(RewriteArms(arms[1..]))
  {
    var rest := RewriteArms(arms[1..]);
    if HeadedWindows(arms[0].cond) {
      assert [] + rest == rest;
    } else {
      assert ([Arm(arms[0].cond, Rewrite(arms[0].body))] + rest)[1..] == rest;
    }
  }

  /** For a well-nested file the pass gives the lines of the rewritten structure. */
  lemma {:induction false} OutputFile(nodes: seq<Node>)
    ensures Output(Lines(nodes), 0) == Lines(Rewrite(nodes))
  {
    hide Output, Lines, Rewrite;
    var lines := Lines(nodes);
    OutputEnd(lines);
    assert lines[0..0 + |lines|] == lines;
    OutputLines(lines, 0, nodes);
  }

  lemma {:induction false} OutputEnd(lines: seq<Line>)
    ensures Output(lines, |lines|) == []
  {
  }

  /** The pass over a supported file leaves the same active text, whichever macros are defined, as long as
      none is a Windows macro. */
  lemma {:induction false} OutputMeaning(nodes: seq<Node>, env: set<string>)
    requires Supported(nodes) && NoWindows(env)
    ensures Preprocess(Output(Lines(nodes), 0), env, []) == Preprocess(Lines(nodes), env, [])
  {
    OutputFile(nodes);
    PreprocessFile(Rewrite(nodes), env);
    PreprocessFile(nodes, env);
    RewriteMeaning(nodes, env);
  }

  // ---- The pass itself

  /** Splits the lines, walks over them with an index, and collects what is kept. */
  method RemoveWindowsBlocks(lines: seq<Line>) returns (result: seq<Line>, changes: nat)
    ensures result == Output(lines, 0)
    ensures forall nodes :: lines == Lines(nodes) ==> result == Lines(Rewrite(nodes))
    ensures forall nodes, env :: lines == Lines(nodes) && Supported(nodes) && NoWindows(env) ==>
              Preprocess(result, env, []) == Preprocess(lines, env, [])
    ensures (changes == 0 <==> Gone(lines)) && (changes == 0 ==> result == lines)
    ensures forall nodes :: lines == Lines(nodes) ==> (Gone(result) <==> Separate(nodes))
  {
    hide Output, HeadedWindows, Preprocess, Lines, Rewrite, Supported, NoWindows, Separate;
    result, changes := [], 0;
    var i := 0;
    while i < |lines|
      invariant i <= |lines| && Output(lines, 0) == result + Output(lines, i)
      invariant if changes == 0 then forall k :: 0 <= k < i ==> !WindowsLine(lines[k])
                else exists k :: 0 <= k < |lines| && WindowsLine(lines[k])
    {
      if lines[i].If? && HeadedWindows(lines[i].cond) {
        OutputBlock(lines, i);
        var kept, end := RemoveBlock(lines, i);
        result, changes, i := result + kept, changes + 1, end;
      } else if lines[i].Elif? && HeadedWindows(lines[i].cond) {
        OutputSkipped(lines, i);
        i := SkipBranch(lines, i);
        changes := changes + 1;
      } else {
        OutputCopied(lines, i);
        result := result + [lines[i]];
        i := i + 1;
      }
    }
    OutputEnd(lines);
    assert result == Output(lines, 0);
    forall nodes | lines == Lines(nodes) ensures result == Lines(Rewrite(nodes)) {
      OutputFile(nodes);
    }
    if Gone(lines) { GoneUnchanged(lines, 0); }
    forall nodes | lines == Lines(nodes) ensures Gone(result) <==> Separate(nodes) {
      FileGone(nodes);
    }
    forall nodes, env | lines == Lines(nodes) && Supported(nodes) && NoWindows(env)
      ensures Preprocess(result, env, []) == Preprocess(lines, env, []) {
      OutputMeaning(nodes, env);
    }
  }

  lemma {:induction false} BlockIsScan(lines: seq<Line>, i: nat)
    requires i < |lines|
    ensures Block(lines, i) == Scan(lines, i + 1, 1, Found(0, None, None))
  {
  }

  /** Finds the #endif of the block at line i and what to keep of it. */
  method RemoveBlock(lines: seq<Line>, i: nat) returns (kept: seq<Line>, end: nat)
    requires i < |lines| && lines[i].If?
    ensures kept == Kept(lines, Block(lines, i)) && end == Block(lines, i).next
  {
    hide Scan, Block, MentionsWindows;
    BlockIsScan(lines, i);
    var nesting, elseIdx: Option<nat>, elifIdx: Option<nat> := 1, None, None;
    end := i + 1;
    while end < |lines| && nesting > 0
      invariant i < end <= |lines| && nesting >= 0
      invariant elseIdx.Some? ==> i < elseIdx.value < end
      invariant elifIdx.Some? ==> i < elifIdx.value < end && lines[elifIdx.value].Elif?
      invariant Block(lines, i) == Scan(lines, end, nesting, Found(0, elseIdx, elifIdx))
      decreases |lines| - end
    {
      ScanStep(lines, end, nesting, Found(0, elseIdx, elifIdx));
      match lines[end] {
        case If(_) => nesting := nesting + 1;
        case Endif => nesting := nesting - 1;
        case Else(bare) => if nesting == 1 && bare { elseIdx := Some(end); }
        case Elif(c) => if nesting == 1 && !MentionsWindows(c) { elifIdx := Some(end); }
        case Text(_) =>
      }
      end := end + 1;
    }
    ScanPastEnd(lines, end, nesting, Found(0, elseIdx, elifIdx));
    if elseIdx.Some? {
      kept := if elseIdx.value + 1 <= end - 1 then lines[elseIdx.value + 1..end - 1] else [];
    } else if elifIdx.Some? {
      kept := [If(lines[elifIdx.value].cond)] + lines[elifIdx.value + 1..end];
    } else {
      kept := [];
    }
  }

  /** Past the #elif branch at line i. */
  method SkipBranch(lines: seq<Line>, i: nat) returns (end: nat)
    requires i < |lines|
    ensures end == Skip(lines, i + 1, 0) && i < end <= |lines|
  {
    var nesting := 0;
    end := i + 1;
    while end < |lines|
      invariant i < end <= |lines| && nesting >= 0
      invariant Skip(lines, i + 1, 0) == Skip(lines, end, nesting)
      decreases |lines| - end
    {
      match lines[end] {
        case If(_) => nesting := nesting + 1;
        case Endif =>
          if nesting == 0 { return; }
          nesting := nesting - 1;
        case Else(_) => if nesting == 0 { return; }
        case Elif(_) => if nesting == 0 { return; }
        case Text(_) =>
      }
      end := end + 1;
    }
  }
}
