/** How far the removal goes: when no Windows block and no Windows branch is left. */
module WinGone {
  import opened Options
  import opened Preprocessor
  import opened WinBlocks

  predicate WindowsLine(line: Line) {
    (line.If? || line.Elif?) && HeadedWindows(line.cond)
  }

  predicate Gone(lines: seq<Line>) {
    forall i :: 0 <= i < |lines| ==> !WindowsLine(lines[i])
  }

  /** No condition starts with a Windows macro. */
  predicate Free(nodes: seq<Node>) {
    nodes != [] ==> FreeNode(nodes[0]) && Free(nodes[1..])
  }

  predicate FreeNode(node: Node) {
    match node
    case Plain(_) => true
    case Conditional(c, body, arms, els) =>
      !HeadedWindows(c) && Free(body) && FreeArms(arms) && (els.Some? ==> Free(els.value.body))
  }

  predicate FreeArms(arms: seq<Arm>) {
    arms != [] ==>
      var arm := arms[0];
      !HeadedWindows(arm.cond) && Free(arm.body) && FreeArms(arms[1..])
  }

  /** Arm k is not before the last one without a pattern. */
  ghost predicate KeptArm(arms: seq<Arm>, k: nat) {
    exists j :: 0 <= j <= k < |arms| && Foreign(arms[j]) && forall m :: j < m < |arms| ==> !Foreign(arms[m])
  }

  /** In what is kept of a Windows block no condition starts with a Windows macro, nested ones included. */
  ghost predicate Separate(nodes: seq<Node>) {
    nodes != [] ==> SeparateNode(nodes[0]) && Separate(nodes[1..])
  }

  ghost predicate SeparateNode(node: Node) {
    match node
    case Plain(_) => true
    case Conditional(c, body, arms, els) =>
      if HeadedWindows(c) then
        if els.Some? && els.value.bare then Free(els.value.body) else
          forall k: nat :: KeptArm(arms, k) ==>
            !HeadedWindows(arms[k].cond) && Free(arms[k].body) && (els.Some? ==> Free(els.value.body))
      else
        Separate(body) && SeparateArms(arms) && (els.Some? ==> Separate(els.value.body))
  }

  ghost predicate SeparateArms(arms: seq<Arm>) {
    arms != [] ==>
      var arm := arms[0];
      (HeadedWindows(arm.cond) || Separate(arm.body)) && SeparateArms(arms[1..])
  }

  // ---- Lines and structure

  lemma {:induction false} GoneBoth(a: seq<Line>, b: seq<Line>)
    ensures Gone(a + b) <==> Gone(a) && Gone(b)
  {
    hide WindowsLine;
    if Gone(a + b) {
      assert forall i :: 0 <= i < |a| ==> a[i] == (a + b)[i];
      assert forall i :: 0 <= i < |b| ==> b[i] == (a + b)[|a| + i];
    }
  }

  lemma {:induction false} GoneOne(line: Line)
    ensures Gone([line]) <==> !WindowsLine(line)
  {
    assert [line][0] == line;
  }

  lemma {:induction false} GoneLines(nodes: seq<Node>)
    ensures Gone(Lines(nodes)) <==> Free(nodes)
    decreases nodes, 0
  {
    hide Gone, NodeLines, FreeNode;
    if nodes == [] {
      assert Gone([]) by { NothingGone(); }
    } else {
      GoneNode(nodes[0]);
      GoneLines(nodes[1..]);
      GoneBoth(NodeLines(nodes[0]), Lines(nodes[1..]));
    }
  }

  lemma {:induction false} NothingGone()
    ensures Gone([])
  {
  }

  lemma {:induction false} GoneNode(node: Node)
    ensures Gone(NodeLines(node)) <==> FreeNode(node)
    decreases node, 0
  {
    hide Gone, Lines, ArmLines, Free, FreeArms;
    match node
    case Plain(s) => GoneOne(Text(s));
    case Conditional(c, body, arms, els) =>
      GoneOne(If(c));
      GoneOne(Endif);
      GoneLines(body);
      GoneArms(arms);
      GoneElse(els);
      GoneBoth([If(c)], Lines(body));
      GoneBoth([If(c)] + Lines(body), ArmLines(arms));
      GoneBoth([If(c)] + Lines(body) + ArmLines(arms), ElseLines(els));
      GoneBoth([If(c)] + Lines(body) + ArmLines(arms) + ElseLines(els), [Endif]);
  }

  lemma {:induction false} GoneElse(els: Option<ElsePart>)
    ensures Gone(ElseLines(els)) <==> (els.Some? ==> Free(els.value.body))
    decreases els, 0
  {
    hide Gone, Lines, Free;
    if els.Some? {
      GoneOne(Else(els.value.bare));
      GoneLines(els.value.body);
      GoneBoth([Else(els.value.bare)], Lines(els.value.body));
    } else {
      NothingGone();
    }
  }

  lemma {:induction false} GoneArms(arms: seq<Arm>)
    ensures Gone(ArmLines(arms)) <==> FreeArms(arms)
    decreases arms, 0
  {
    hide Gone, Lines, Free;
    if arms == [] {
      NothingGone();
    } else {
      var arm := arms[0];
      GoneOne(Elif(arm.cond));
      GoneLines(arm.body);
      GoneArms(arms[1..]);
      GoneBoth([Elif(arm.cond)], Lines(arm.body));
      GoneBoth([Elif(arm.cond)] + Lines(arm.body), ArmLines(arms[1..]));
    }
  }

  // ---- The rewritten file

  lemma {:induction false} FreeBoth(a: seq<Node>, b: seq<Node>)
    ensures Free(a + b) <==> Free(a) && Free(b)
  {
    hide FreeNode;
    if a == [] {
      assert [] + b == b;
    } else {
      FreeBoth(a[1..], b);
      assert (a + b)[1..] == a[1..] + b;
    }
  }

  lemma {:induction false} FreeOne(node: Node)
    ensures Free([node]) <==> FreeNode(node)
  {
    hide FreeNode;
    assert [node][1..] == [];
  }

  /** The arms from the last one without a pattern on, by their indices. */
  lemma {:induction false} FreeLast(arms: seq<Arm>)
    ensures FromLast(arms) != [] <==> exists k: nat :: KeptArm(arms, k)
    ensures FreeArms(FromLast(arms)) <==>
            forall k: nat :: KeptArm(arms, k) ==> !HeadedWindows(arms[k].cond) && Free(arms[k].body)
  {
    hide HeadedWindows, Free, Foreign;
    if arms != [] {
      FreeLast(arms[1..]);
      NoForeign(arms[1..]);
      forall k: nat ensures KeptArm(arms, k) <==>
                            if FromLast(arms[1..]) != [] then k > 0 && KeptArm(arms[1..], k - 1)
                            else Foreign(arms[0]) && k < |arms| {
        KeptLater(arms, k);
      }
      FreeAll(arms);
      if FromLast(arms[1..]) == [] && Foreign(arms[0]) { assert KeptArm(arms, 0); }
      if k: nat :| KeptArm(arms[1..], k) { assert KeptArm(arms, k + 1); }
      assert forall k :: 0 < k < |arms| ==> arms[k] == arms[1..][k - 1];
    }
  }

  lemma {:induction false} FreeAll(arms: seq<Arm>)
    ensures FreeArms(arms) <==> forall k :: 0 <= k < |arms| ==> !HeadedWindows(arms[k].cond) && Free(arms[k].body)
  {
    hide HeadedWindows, Free;
    if arms != [] {
      FreeAll(arms[1..]);
      assert forall k :: 0 < k < |arms| ==> arms[k] == arms[1..][k - 1];
      assert forall k :: 0 <= k < |arms| - 1 ==> arms[1..][k] == arms[k + 1];
    }
  }

  lemma {:induction false} KeptLater(arms: seq<Arm>, k: nat)
    requires arms != []
    ensures KeptArm(arms, k) <==>
            if FromLast(arms[1..]) != [] then k > 0 && KeptArm(arms[1..], k - 1)
            else Foreign(arms[0]) && k < |arms|
  {
    hide Foreign, FromLast;
    NoForeign(arms[1..]);
    var rest := arms[1..];
    assert forall m :: 0 < m < |arms| ==> arms[m] == rest[m - 1];
    assert forall m :: 0 <= m < |rest| ==> rest[m] == arms[m + 1];
    if FromLast(rest) != [] {
      if KeptArm(arms, k) {
        var j :| 0 <= j <= k < |arms| && Foreign(arms[j]) && forall m :: j < m < |arms| ==> !Foreign(arms[m]);
        assert j > 0;
        assert Foreign(rest[j - 1]);
      }
      if k > 0 && KeptArm(rest, k - 1) {
        var j :| 0 <= j <= k - 1 < |rest| && Foreign(rest[j]) && forall m :: j < m < |rest| ==> !Foreign(rest[m]);
        assert Foreign(arms[j + 1]);
      }
    }
  }

  /** Every Windows block and branch is gone from the rewritten file exactly if none is in a part that is kept
      of a Windows block. */
  lemma {:induction false} RewriteFrees(nodes: seq<Node>)
    ensures Free(Rewrite(nodes)) <==> Separate(nodes)
    decreases nodes, 0
  {
    hide RewriteNode, SeparateNode, FreeNode;
    if nodes != [] {
      RewriteNodeFrees(nodes[0]);
      RewriteFrees(nodes[1..]);
      FreeBoth(RewriteNode(nodes[0]), Rewrite(nodes[1..]));
    }
  }

  lemma {:induction false} RewriteNodeFrees(node: Node)
    ensures Free(RewriteNode(node)) <==> SeparateNode(node)
    decreases node, 0
  {
    hide Free, FreeArms, HeadedWindows, Rewrite, RewriteArms, Separate, SeparateArms, KeptArm, FromLast;
    match node
    case Plain(_) => FreeOne(node);
    case Conditional(c, body, arms, els) =>
      if HeadedWindows(c) {
        WindowsBlockFrees(node);
      } else {
        RewriteFrees(body);
        RewriteArmsFree(arms);
        if els.Some? { RewriteFrees(els.value.body); }
        FreeOne(RewriteNode(node)[0]);
      }
  }

  lemma {:induction false} WindowsBlockFrees(node: Node)
    requires node.Conditional? && HeadedWindows(node.cond)
    ensures Free(RewriteNode(node)) <==> SeparateNode(node)
  {
    hide Free, HeadedWindows, Rewrite, RewriteArms, Separate, SeparateArms, KeptArm, FromLast;
    var Conditional(c, body, arms, els) := node;
    var last := FromLast(arms);
    FreeLast(arms);
    if els.Some? && els.value.bare {
    } else if last != [] {
      FreeOne(Conditional(last[0].cond, last[0].body, last[1..], els));
    } else {
      assert Free([]) by { FreeNothing(); }
    }
  }

  lemma {:induction false} FreeNothing()
    ensures Free([])
  {
  }

  lemma {:induction false} RewriteArmsFree(arms: seq<Arm>)
    ensures FreeArms(RewriteArms(arms)) <==> SeparateArms(arms)
    decreases arms, 0
  {
    hide HeadedWindows, Free, Rewrite, Separate;
    if arms != [] {
      var arm := arms[0];
      RewriteArmsFree(arms[1..]);
      var rest := RewriteArms(arms[1..]);
      if HeadedWindows(arm.cond) {
        assert [] + rest == rest;
      } else {
        RewriteFrees(arm.body);
        assert ([Arm(arm.cond, Rewrite(arm.body))] + rest)[1..] == rest;
      }
    }
  }

  /** Lines without Windows conditions are left as they are, well nested or not. */
  lemma {:induction false} GoneUnchanged(lines: seq<Line>, i: nat)
    requires i <= |lines| && Gone(lines)
    ensures Output(lines, i) == lines[i..]
    decreases |lines| - i
  {
    hide HeadedWindows;
    if i < |lines| {
      assert !WindowsLine(lines[i]);
      GoneUnchanged(lines, i + 1);
    }
  }

  lemma {:induction false} FileGone(nodes: seq<Node>)
    ensures Gone(Lines(Rewrite(nodes))) <==> Separate(nodes)
  {
    GoneLines(Rewrite(nodes));
    RewriteFrees(nodes);
  }

  // ---- A block that stays

  /** A Windows block in the #else of another. */
  const NESTED := [Conditional(Macro("HAVE_DIRECT_H"), [], [],
                               Some(ElsePart(true, [Conditional(Macro("HAVE_DIRECT_H"), [], [], None)])))]

  lemma {:induction false} NestedStays()
    ensures Rewrite(NESTED) == [Conditional(Macro("HAVE_DIRECT_H"), [], [], None)] && !Gone(Lines(Rewrite(NESTED)))
  {
    var inner := Conditional(Macro("HAVE_DIRECT_H"), [], [], None);
    assert "HAVE_DIRECT_H"[0..] == "HAVE_DIRECT_H";
    assert NESTED[1..] == [] && [inner] + [] == [inner] && HeadedWindows(Macro("HAVE_DIRECT_H"));
    FreeOne(inner);
    GoneLines([inner]);
  }
}
