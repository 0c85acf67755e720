/** Exactly which shapes of a Windows block survive the removal. */
module WinShapes {
  import opened Options
  import opened Preprocessor
  import opened WinBlocks

  /** A branch that does not mention Windows, one for Windows only, and one that mentions a Windows macro and
      can hold without any. */
  datatype Kind = Ours | Theirs | Mixed

  ghost function KindOf(arm: Arm): Kind {
    if Foreign(arm) then Ours else if OnlyWindows(arm.cond) then Theirs else Mixed
  }

  /** A Windows block whose #elif branches are of these kinds, and whose #else, if any, is bare or not. */
  ghost predicate HasShape(node: Node, kinds: seq<Kind>, els: Option<bool>) {
    && node.Conditional? && HeadedWindows(node.cond) && OnlyWindows(node.cond) && Bare(node.els) == els
    && |node.arms| == |kinds| && forall i :: 0 <= i < |kinds| ==> KindOf(node.arms[i]) == kinds[i]
  }

  /** The shapes that survive. Leaving Windows branches aside: with no branch left, an #else at most, which must
      be bare; otherwise a first branch of ours, no other of ours, and no bare #else. */
  predicate GoodKinds(kinds: seq<Kind>, els: Option<bool>) {
    if kinds == [] then els != Some(false)
    else match kinds[0]
         case Ours => els != Some(true) && Ours !in kinds[1..]
         case Theirs => GoodKinds(kinds[1..], els)
         case Mixed => false
  }

  /** The block means the same after the removal, if no Windows macro is defined. */
  ghost predicate Survives(node: Node, env: set<string>) {
    NoWindows(env) ==> Active(RewriteNode(node), env) == ActiveNode(node, env)
  }

  lemma {:induction false} GoodKindsAreGood(arms: seq<Arm>, kinds: seq<Kind>, els: Option<bool>)
    requires |arms| == |kinds| && forall i :: 0 <= i < |kinds| ==> KindOf(arms[i]) == kinds[i]
    requires GoodKinds(kinds, els)
    ensures GoodArms(arms, els)
  {
    if arms != [] {
      assert forall k :: 0 < k < |kinds| ==> kinds[k] == kinds[1..][k - 1];
      if kinds[0] == Theirs { GoodKindsAreGood(arms[1..], kinds[1..], els); }
    }
  }

  // ---- A block of each shape that shows the difference

  const OURS := "A"
  const WINDOWS := "HAVE_DIRECT_H"

  lemma {:induction false} Names()
    ensures !HasWindows(OURS) && StartsWindows(WINDOWS) && HasWindows(WINDOWS) && NoWindows({OURS})
  {
    assert WINDOWS[0..] == WINDOWS;
    assert PatternAt(WINDOWS, 0);
    forall i | 0 <= i <= 1 ensures !PatternAt(OURS, i) {}
  }

  /** All but the Windows branches test our macro; the first of them has a text of its own. */
  function ArmOf(kind: Kind, first: bool): Arm {
    Arm(match kind
        case Ours => Macro(OURS)
        case Theirs => Macro(WINDOWS)
        case Mixed => Or(Macro(OURS), Macro(WINDOWS)),
        [Plain(if first then "first" else "later")])
  }

  function Arms(kinds: seq<Kind>, first: bool): seq<Arm> {
    if kinds == [] then [] else [ArmOf(kinds[0], first)] + Arms(kinds[1..], first && kinds[0] == Theirs)
  }

  function Example(kinds: seq<Kind>, els: Option<bool>): Node {
    Conditional(Macro(WINDOWS), [], Arms(kinds, true),
                if els.Some? then Some(ElsePart(els.value, [Plain("else")])) else None)
  }

  lemma {:induction false} ArmShape(kind: Kind, first: bool)
    ensures KindOf(ArmOf(kind, first)) == kind
    ensures Holds(ArmOf(kind, first).cond, {OURS}) <==> kind != Theirs
  {
    hide HasWindows, StartsWindows;
    Names();
    MacroOnlyWindows(WINDOWS);
    assert Holds(Or(Macro(OURS), Macro(WINDOWS)), {OURS}) && WINDOWS != OURS;
  }

  lemma {:induction false} ArmsShape(kinds: seq<Kind>, first: bool)
    ensures |Arms(kinds, first)| == |kinds|
    ensures forall i :: 0 <= i < |kinds| ==> KindOf(Arms(kinds, first)[i]) == kinds[i]
  {
    hide ArmOf, KindOf;
    if kinds != [] {
      ArmShape(kinds[0], first);
      ArmsShape(kinds[1..], first && kinds[0] == Theirs);
    }
  }

  lemma {:induction false} Texts(kind: Kind, first: bool)
    ensures Active(ArmOf(kind, first).body, {OURS}) == [if first then "first" else "later"]
    ensures Active([Plain("else")], {OURS}) == ["else"]
  {
    assert [Plain(if first then "first" else "later")][1..] == [] && [Plain("else")][1..] == [];
  }

  predicate AllTheirs(kinds: seq<Kind>) {
    kinds == [] || (kinds[0] == Theirs && AllTheirs(kinds[1..]))
  }

  lemma {:induction false} KindsFrom(kinds: seq<Kind>)
    requires kinds != []
    ensures Ours in kinds <==> kinds[0] == Ours || Ours in kinds[1..]
  {
    assert kinds == [kinds[0]] + kinds[1..];
  }

  /** What is active in the example with our macro defined. */
  lemma {:induction false} ArmsActive(kinds: seq<Kind>, first: bool, otherwise: seq<string>)
    ensures ActiveArms(Arms(kinds, first), otherwise, {OURS}) ==
            if AllTheirs(kinds) then otherwise else [if first then "first" else "later"]
  {
    hide ArmOf, Active, KindOf;
    if kinds != [] {
      ArmShape(kinds[0], first);
      Texts(kinds[0], first);
      ArmsActive(kinds[1..], first && kinds[0] == Theirs, otherwise);
      assert Arms(kinds, first)[1..] == Arms(kinds[1..], first && kinds[0] == Theirs);
      KindsFrom(kinds);
    }
  }

  /** What is kept from the last branch of ours on: it is the first branch only in good shapes. */
  lemma {:induction false} LastActive(kinds: seq<Kind>, first: bool, otherwise: seq<string>)
    ensures FromLast(Arms(kinds, first)) == [] <==> Ours !in kinds
    ensures Ours in kinds ==>
              ActiveArms(FromLast(Arms(kinds, first)), otherwise, {OURS}) ==
              [if first && GoodKinds(kinds, None) then "first" else "later"]
  {
    hide ArmOf, Active, KindOf;
    if kinds != [] {
      var more := Arms(kinds[1..], first && kinds[0] == Theirs);
      ArmShape(kinds[0], first);
      Texts(kinds[0], first);
      KindForeign(kinds[0], first);
      LastActive(kinds[1..], first && kinds[0] == Theirs, otherwise);
      assert Arms(kinds, first)[1..] == more && Arms(kinds, first)[0] == ArmOf(kinds[0], first);
      KindsFrom(kinds);
    }
  }

  lemma {:induction false} KindForeign(kind: Kind, first: bool)
    ensures Foreign(ArmOf(kind, first)) <==> kind == Ours
  {
    ArmShape(kind, first);
  }

  lemma {:induction false} KindsWithout(kinds: seq<Kind>, els: Option<bool>)
    requires Ours !in kinds
    ensures GoodKinds(kinds, els) <==> AllTheirs(kinds) && els != Some(false)
  {
    if kinds != [] {
      KindsFrom(kinds);
      KindsWithout(kinds[1..], els);
    }
  }

  /** With a branch of ours, a good shape has no bare #else. */
  lemma {:induction false} KindsWith(kinds: seq<Kind>, els: Option<bool>)
    requires Ours in kinds
    ensures GoodKinds(kinds, els) <==> GoodKinds(kinds, None) && els != Some(true)
    ensures !AllTheirs(kinds)
  {
    KindsFrom(kinds);
    if kinds[0] == Theirs { KindsWith(kinds[1..], els); }
  }

  lemma {:induction false} ExampleFails(kinds: seq<Kind>, els: Option<bool>)
    requires !GoodKinds(kinds, els)
    ensures !Survives(Example(kinds, els), {OURS})
  {
    hide HasWindows, StartsWindows, ArmOf, Active, GoodKinds;
    Names();
    Texts(Ours, true);
    var node := Example(kinds, els);
    var otherwise: seq<string> := if els.Some? then ["else"] else [];
    ArmsActive(kinds, true, otherwise);
    LastActive(kinds, true, otherwise);
    if Ours in kinds { KindsWith(kinds, els); } else { KindsWithout(kinds, els); }
    assert ActiveElse(node.els, {OURS}) == otherwise by { NoElse(); }
    assert ActiveNode(node, {OURS}) == ActiveArms(node.arms, otherwise, {OURS});
    var last := FromLast(node.arms);
    if els == Some(true) {
      assert Active(RewriteNode(node), {OURS}) == ["else"];
    } else if last != [] {
      var kept := Conditional(last[0].cond, last[0].body, last[1..], node.els);
      OneActive(kept, {OURS});
      assert RewriteNode(node) == [kept];
    } else {
      NoElse();
      assert RewriteNode(node) == [];
    }
  }

  lemma {:induction false} NoElse()
    ensures forall env: set<string> :: Active([], env) == []
  {
  }

  lemma {:induction false} OneActive(node: Node, env: set<string>)
    ensures Active([node], env) == ActiveNode(node, env)
  {
    assert [node][1..] == [] && Active([], env) == [];
  }

  /** A Windows block survives whatever its branches contain and whichever macros are tested exactly if it
      has one of the good shapes. */
  lemma {:induction false} ShapesExact(kinds: seq<Kind>, els: Option<bool>)
    ensures GoodKinds(kinds, els) <==> forall node, env :: HasShape(node, kinds, els) ==> Survives(node, env)
  {
    if GoodKinds(kinds, els) {
      forall node, env | HasShape(node, kinds, els) ensures Survives(node, env) {
        GoodKindsAreGood(node.arms, kinds, els);
        if NoWindows(env) { WindowsBlockMeaning(node, env); }
      }
    } else {
      ArmsShape(kinds, true);
      Names();
      MacroOnlyWindows(WINDOWS);
      ExampleFails(kinds, els);
      assert HasShape(Example(kinds, els), kinds, els);
    }
  }

  // ---- Compound conditions

  /** A block without other branches is removed, which is right whatever it contains exactly if its condition
      cannot hold without Windows macros. */
  lemma {:induction false} HeadExact(c: Cond)
    requires HeadedWindows(c)
    ensures OnlyWindows(c) <==> forall body: seq<Node>, env :: Survives(Conditional(c, body, [], None), env)
  {
    if OnlyWindows(c) {
      forall body: seq<Node>, env ensures Survives(Conditional(c, body, [], None), env) {
        if NoWindows(env) { assert !Holds(c, env); }
      }
    } else {
      var env :| NoWindows(env) && Holds(c, env);
      var node := Conditional(c, [Plain("branch")], [], None);
      OneActive(Plain("branch"), env);
      assert ActiveNode(node, env) == ["branch"];
      assert FromLast([]) == [] && RewriteNode(node) == [] && Active([], env) == [];
      assert !Survives(node, env);
    }
  }

  /** `#if defined(HAVE_DIRECT_H) || defined(A)` goes although A may be defined; with `&&` it may go. */
  lemma {:induction false} OrLosesOurs()
    ensures var c := Or(Macro(WINDOWS), Macro(OURS)); HeadedWindows(c) && !OnlyWindows(c)
    ensures var c := And(Macro(WINDOWS), Macro(OURS)); HeadedWindows(c) && OnlyWindows(c)
  {
    hide HasWindows, StartsWindows;
    Names();
    MacroOnlyWindows(WINDOWS);
    assert NoWindows({OURS}) && Holds(Or(Macro(WINDOWS), Macro(OURS)), {OURS});
  }

  /** An #elif branch that starts with a Windows macro is removed from a block that does not, which is right
      whatever the two contain exactly if its condition cannot hold without Windows macros. */
  lemma {:induction false} ElifHeadExact(c: Cond)
    requires HeadedWindows(c)
    ensures OnlyWindows(c) <==>
              forall head, body: seq<Node>, env :: !HeadedWindows(head) ==>
                     Survives(Conditional(head, [], [Arm(c, body)], None), env)
  {
    hide Active, ActiveNode, RewriteNode, HeadedWindows, Holds, HasWindows;
    if OnlyWindows(c) {
      forall head, body: seq<Node>, env | !HeadedWindows(head)
        ensures Survives(Conditional(head, [], [Arm(c, body)], None), env)
      {
        ElifRemoved(head, c, body, env);
      }
    } else {
      var env :| NoWindows(env) && Holds(c, env);
      var never := And(Macro(OURS), Not(Macro(OURS)));
      NeverHolds(env);
      ElifRemoved(never, c, [Plain("branch")], env);
      BranchActive(env);
      assert !Survives(Conditional(never, [], [Arm(c, [Plain("branch")])], None), env);
    }
  }

  lemma {:induction false} BranchActive(env: set<string>)
    ensures Active([Plain("branch")], env) == ["branch"]
  {
    OneActive(Plain("branch"), env);
  }

  lemma {:induction false} NeverHolds(env: set<string>)
    ensures var never := And(Macro(OURS), Not(Macro(OURS))); !HeadedWindows(never) && !Holds(never, env)
  {
    NotHeaded();
  }

  lemma {:induction false} NotHeaded()
    ensures !HeadedWindows(And(Macro(OURS), Not(Macro(OURS))))
  {
    Names();
    assert OURS[0..] == OURS;
    assert !PatternAt(OURS, 0);
  }

  lemma {:induction false} ElifRemoved(head: Cond, c: Cond, body: seq<Node>, env: set<string>)
    requires !HeadedWindows(head) && HeadedWindows(c)
    ensures var node := Conditional(head, [], [Arm(c, body)], None);
            && Active(RewriteNode(node), env) == []
            && ActiveNode(node, env) == if !Holds(head, env) && Holds(c, env) then Active(body, env) else []
  {
    var node := Conditional(head, [], [Arm(c, body)], None);
    assert node.arms[1..] == [] && Rewrite([]) == [] && RewriteArms([]) == [];
    assert RewriteArms(node.arms) == [] + RewriteArms(node.arms[1..]);
    var next := Conditional(head, [], [], None);
    assert RewriteNode(node) == [next];
    OneActive(next, env);
    NoElse();
  }
}
