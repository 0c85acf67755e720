/** Collecting the labels of a switch, numbering them and reporting duplicates. */
module CaseLabels {
  import opened Options
  import opened CaseSort

  /** A label with its constant, a label that was rejected, or the default label. */
  datatype Label = Case(value: int) | Rejected | Default

  datatype Position = Position(block: nat, index: nat)

  function At(c: CaseElement): Position {
    Position(c.blockIndex, c.caseIndex)
  }

  predicate Before(p: Position, q: Position) {
    p.block < q.block || (p.block == q.block && p.index < q.index)
  }

  predicate IsLabel(groups: seq<seq<Label>>, p: Position) {
    p.block < |groups| && p.index < |groups[p.block]|
  }

  /** The case labels of group j, in source order. */
  function GroupCases(j: nat, labels: seq<Label>): seq<CaseElement> {
    if labels == [] then [] else
      var k := |labels| - 1;
      GroupCases(j, labels[..k]) + if labels[k].Case? then [CaseElement(j, k, labels[k].value)] else []
  }

  function AllCases(groups: seq<seq<Label>>): seq<CaseElement> {
    if groups == [] then [] else
      var j := |groups| - 1;
      AllCases(groups[..j]) + GroupCases(j, groups[j])
  }

  function CountLabels(groups: seq<seq<Label>>): nat {
    if groups == [] then 0 else CountLabels(groups[..|groups| - 1]) + |groups[|groups| - 1]|
  }

  ghost predicate InOrder(s: seq<CaseElement>) {
    forall i, j :: 0 <= i < j < |s| ==> Before(At(s[i]), At(s[j]))
  }

  lemma {:induction false} GroupCasesMeaning(j: nat, labels: seq<Label>)
    ensures forall c :: c in GroupCases(j, labels) <==>
              c.blockIndex == j && c.caseIndex < |labels| && labels[c.caseIndex] == Case(c.value)
    ensures InOrder(GroupCases(j, labels)) && |GroupCases(j, labels)| <= |labels|
  {
    if labels != [] {
      var k := |labels| - 1;
      var rest := GroupCases(j, labels[..k]);
      GroupCasesMeaning(j, labels[..k]);
      forall i | 0 <= i < |rest| ensures At(rest[i]).block == j && At(rest[i]).index < k {
        assert rest[i] in rest;
      }
    }
  }

  lemma {:induction false} AllCasesMeaning(groups: seq<seq<Label>>)
    ensures forall c :: c in AllCases(groups) <==>
            IsLabel(groups, At(c)) && groups[c.blockIndex][c.caseIndex] == Case(c.value)
    ensures InOrder(AllCases(groups)) && |AllCases(groups)| <= CountLabels(groups)
  {
    if groups != [] {
      var j := |groups| - 1;
      AllCasesMeaning(groups[..j]);
      GroupCasesMeaning(j, groups[j]);
      var a, b := AllCases(groups[..j]), GroupCases(j, groups[j]);
      forall i | 0 <= i < |a| ensures At(a[i]).block < j {
        assert a[i] in a;
      }
      forall i | 0 <= i < |b| ensures At(b[i]).block == j {
        assert b[i] in b;
      }
    }
  }

  // ---- The sorted cases

  /** t is a sorted arrangement of the cases s, which stand in source order. */
  ghost predicate Arranged(s: seq<CaseElement>, t: seq<CaseElement>) {
    && InOrder(s) && multiset(t) == multiset(s)
    && forall i, j :: 0 <= i < j < |t| ==> AtMost(t[i], t[j])
  }

  lemma {:induction false} DistinctCounts(s: seq<CaseElement>, x: CaseElement)
    requires forall i, j :: 0 <= i < j < |s| ==> s[i] != s[j]
    ensures multiset(s)[x] <= 1
  {
    if s != [] {
      var rest := s[1..];
      assert s == [s[0]] + rest;
      DistinctCounts(rest, x);
      assert s[0] !in rest;
    }
  }

  lemma {:induction false} TwiceCounts(s: seq<CaseElement>, i: nat, j: nat)
    requires i < j < |s| && s[i] == s[j]
    ensures multiset(s)[s[i]] >= 2
  {
    assert s == s[..j] + s[j..];
    assert s[..j][i] == s[i] && s[j..][0] == s[i];
    assert s[i] in multiset(s[..j]) && s[i] in multiset(s[j..]);
  }

  lemma {:induction false} InOrderDistinct(s: seq<CaseElement>, x: CaseElement)
    requires InOrder(s)
    ensures multiset(s)[x] <= 1
  {
    forall i, j | 0 <= i < j < |s| ensures s[i] != s[j] {
      assert Before(At(s[i]), At(s[j]));
    }
    DistinctCounts(s, x);
  }

  /** Different cases of t stand at different places, and equal values stand in source order. */
  lemma {:induction false} ArrangedStrictly(s: seq<CaseElement>, t: seq<CaseElement>, i: nat, j: nat)
    requires Arranged(s, t) && i < j < |t|
    ensures Less(t[i], t[j]) && At(t[i]) != At(t[j])
  {
    InOrderDistinct(s, t[i]);
    if t[i] == t[j] { TwiceCounts(t, i, j); }
    assert t[i] in multiset(s) && t[j] in multiset(s);
    var p :| 0 <= p < |s| && s[p] == t[i];
    var q :| 0 <= q < |s| && s[q] == t[j];
    assert Before(At(s[p]), At(s[q])) || Before(At(s[q]), At(s[p]));
  }

  /** Some label before c in the source has the same value. */
  ghost predicate Repeats(s: seq<CaseElement>, c: CaseElement) {
    exists d :: d in s && d.value == c.value && Before(At(d), At(c))
  }

  /** Comparing neighbours of the sorted list finds exactly the labels that repeat an earlier one. */
  lemma {:induction false} NeighboursRepeat(s: seq<CaseElement>, t: seq<CaseElement>, k: nat)
    requires Arranged(s, t) && k < |t|
    ensures Repeats(s, t[k]) <==> k > 0 && t[k].value == t[k - 1].value
  {
    if k > 0 {
      ArrangedStrictly(s, t, k - 1, k);
      assert t[k - 1] in multiset(s);
    }
    if Repeats(s, t[k]) {
      var d :| d in s && d.value == t[k].value && Before(At(d), At(t[k]));
      assert d in multiset(t);
      var j :| 0 <= j < |t| && t[j] == d;
      assert k < j ==> AtMost(t[k], t[j]);
      assert j < k - 1 ==> AtMost(t[j], t[k - 1]);
    }
  }

  // ---- Reports and numbers

  function Values(t: seq<CaseElement>): set<int> {
    set c | c in t :: c.value
  }

  /** The places reported, and the numbers given, after the first k cases of the sorted list. */
  function Reported(t: seq<CaseElement>, k: nat): set<Position>
    requires k <= |t|
  {
    if k == 0 then {} else
      Reported(t, k - 1) + if k > 1 && t[k - 1].value == t[k - 2].value then {At(t[k - 1])} else {}
  }

  function Numbered(t: seq<CaseElement>, k: nat, initial: map<Position, nat>): map<Position, nat>
    requires k <= |t|
  {
    if k == 0 then initial else Numbered(t, k - 1, initial)[At(t[k - 1]) := k - 1]
  }

  /** One of the first k cases stands at p and repeats an earlier label. */
  ghost predicate RepeatAt(s: seq<CaseElement>, t: seq<CaseElement>, k: nat, p: Position)
    requires k <= |t|
  {
    exists i :: 0 <= i < k && At(t[i]) == p && Repeats(s, t[i])
  }

  lemma {:induction false} ReportedMeaning(s: seq<CaseElement>, t: seq<CaseElement>, k: nat, p: Position)
    requires Arranged(s, t) && k <= |t|
    ensures p in Reported(t, k) <==> RepeatAt(s, t, k, p)
  {
    if k > 0 {
      ReportedMeaning(s, t, k - 1, p);
      NeighboursRepeat(s, t, k - 1);
      hide Arranged, Repeats;
    }
  }

  lemma {:induction false} ReportedCount(s: seq<CaseElement>, t: seq<CaseElement>, k: nat)
    requires Arranged(s, t) && k <= |t|
    ensures |Reported(t, k)| + |Values(t[..k])| == k
  {
    if k > 0 {
      ReportedCount(s, t, k - 1);
      ReportedMeaning(s, t, k - 1, At(t[k - 1]));
      FreshPlace(s, t, k - 1);
      NewValue(s, t, k - 1);
      hide Arranged, Repeats, Values;
    }
  }

  lemma {:induction false} FreshPlace(s: seq<CaseElement>, t: seq<CaseElement>, k: nat)
    requires Arranged(s, t) && k < |t|
    ensures forall i :: 0 <= i < k ==> At(t[i]) != At(t[k])
  {
    forall i | 0 <= i < k ensures At(t[i]) != At(t[k]) {
      ArrangedStrictly(s, t, i, k);
    }
  }

  lemma {:induction false} ArrangedInOrder(s: seq<CaseElement>, t: seq<CaseElement>)
    requires Arranged(s, t)
    ensures forall i, j :: 0 <= i < j < |t| ==> AtMost(t[i], t[j])
  {
  }

  lemma {:induction false} ValuesMore(t: seq<CaseElement>, k: nat)
    requires k < |t|
    ensures Values(t[..k + 1]) == Values(t[..k]) + {t[k].value}
  {
    assert t[..k + 1] == t[..k] + [t[k]];
  }

  lemma {:induction false} EarlierValue(t: seq<CaseElement>, k: nat)
    requires k < |t| && forall i, j :: 0 <= i < j < |t| ==> AtMost(t[i], t[j])
    ensures t[k].value in Values(t[..k]) <==> k > 0 && t[k].value == t[k - 1].value
  {
    if k > 0 { assert t[k - 1] in t[..k]; }
    if t[k].value in Values(t[..k]) {
      var c :| c in t[..k] && c.value == t[k].value;
      var i :| 0 <= i < k && t[i] == c;
      assert i < k - 1 ==> AtMost(t[i], t[k - 1]) && AtMost(t[k - 1], t[k]);
    }
  }

  lemma {:induction false} NewValue(s: seq<CaseElement>, t: seq<CaseElement>, k: nat)
    requires Arranged(s, t) && k < |t|
    ensures |Values(t[..k + 1])| == |Values(t[..k])| + if k > 0 && t[k].value == t[k - 1].value then 0 else 1
  {
    hide Values, Arranged, AtMost;
    ArrangedInOrder(s, t);
    ValuesMore(t, k);
    EarlierValue(t, k);
  }

  /** One of the cases stands at p. */
  ghost predicate CaseAt(t: seq<CaseElement>, p: Position) {
    exists i :: 0 <= i < |t| && At(t[i]) == p
  }

  lemma {:induction false} NumberedMeaning(t: seq<CaseElement>, k: nat, initial: map<Position, nat>, p: Position)
    requires k <= |t|
    ensures p in Numbered(t, k, initial) <==> p in initial || CaseAt(t[..k], p)
    ensures p in initial && !CaseAt(t[..k], p) ==> Numbered(t, k, initial)[p] == initial[p]
  {
    if k > 0 {
      NumberedMeaning(t, k - 1, initial, p);
      CaseAtNext(t, k - 1);
      hide CaseAt;
    }
  }

  lemma {:induction false} NumberedAt(s: seq<CaseElement>, t: seq<CaseElement>, k: nat, initial: map<Position, nat>,
                                      i: nat)
    requires Arranged(s, t) && i < k <= |t|
    ensures At(t[i]) in Numbered(t, k, initial) && Numbered(t, k, initial)[At(t[i])] == i
  {
    if i < k - 1 {
      NumberedAt(s, t, k - 1, initial, i);
      FreshPlace(s, t, k - 1);
      hide Arranged;
    }
  }

  lemma {:induction false} CaseAtNext(t: seq<CaseElement>, k: nat)
    requires k < |t|
    ensures forall p :: CaseAt(t[..k + 1], p) <==> CaseAt(t[..k], p) || At(t[k]) == p
  {
    forall p ensures CaseAt(t[..k + 1], p) <==> CaseAt(t[..k], p) || At(t[k]) == p {
      if CaseAt(t[..k], p) {
        var i :| 0 <= i < k && At(t[..k][i]) == p;
        assert t[..k + 1][i] == t[..k][i];
      }
      if At(t[k]) == p { assert t[..k + 1][k] == t[k]; }
      if CaseAt(t[..k + 1], p) {
        var i :| 0 <= i < k + 1 && At(t[..k + 1][i]) == p;
        if i < k { assert t[..k][i] == t[..k + 1][i]; }
      }
    }
  }

  // ---- The pass over the labels

  ghost predicate HasLabel(groups: seq<seq<Label>>, p: Position, label_: Label) {
    IsLabel(groups, p) && groups[p.block][p.index] == label_
  }

  /** An earlier label of the switch has the same constant. */
  ghost predicate RepeatsLabel(groups: seq<seq<Label>>, p: Position) {
    exists q, v :: HasLabel(groups, p, Case(v)) && HasLabel(groups, q, Case(v)) && Before(q, p)
  }

  /** Reported as duplicates: exactly the labels that are not the first with their value. */
  ghost predicate ExactlyRepeats(groups: seq<seq<Label>>, reported: set<Position>) {
    forall p :: p in reported <==> RepeatsLabel(groups, p)
  }

  /** Reported as defaults too many: exactly the default labels after the first. */
  ghost predicate ExactlyExtraDefaults(groups: seq<seq<Label>>, extra: set<Position>) {
    forall p :: p in extra <==> HasLabel(groups, p, Default) && exists q :: HasLabel(groups, q, Default) && Before(q, p)
  }

  /** Of the default labels before place (j, k), the first is kept and the others are reported. */
  ghost predicate DefaultsUpTo(groups: seq<seq<Label>>, j: nat, k: nat, kept: Option<Position>, extra: set<Position>) {
    && (forall p :: HasLabel(groups, p, Default) && Before(p, Position(j, k)) <==> kept == Some(p) || p in extra)
    && (forall p :: p in extra ==> kept.Some? && Before(kept.value, p))
  }

  /** Each label has a number of its own, and the numbers are those below the number of labels. */
  ghost predicate Bijective(groups: seq<seq<Label>>, mapIndex: map<Position, nat>) {
    && (forall p :: p in mapIndex <==> IsLabel(groups, p))
    && (forall p, q :: p in mapIndex && q in mapIndex && mapIndex[p] == mapIndex[q] ==> p == q)
    && (forall p :: p in mapIndex ==> mapIndex[p] < CountLabels(groups))
    && (forall n :: 0 <= n < CountLabels(groups) ==> n in mapIndex.Values)
  }

  ghost predicate AllValid(groups: seq<seq<Label>>) {
    forall p :: IsLabel(groups, p) ==> !groups[p.block][p.index].Rejected?
  }

  lemma {:induction false} CountLabelsGrows(groups: seq<seq<Label>>, j: nat)
    requires j <= |groups|
    ensures CountLabels(groups[..j]) <= CountLabels(groups)
    decreases |groups|
  {
    if j < |groups| {
      var n := |groups| - 1;
      assert groups[..n][..j] == groups[..j];
      CountLabelsGrows(groups[..n], j);
    } else {
      assert groups[..j] == groups;
    }
  }

  /** There is room for one more case. */
  lemma {:induction false} RoomLeft(groups: seq<seq<Label>>, j: nat, k: nat)
    requires j < |groups| && k < |groups[j]|
    ensures |AllCases(groups[..j])| + |GroupCases(j, groups[j][..k])| < CountLabels(groups)
  {
    AllCasesMeaning(groups[..j]);
    GroupCasesMeaning(j, groups[j][..k]);
    CountLabelsGrows(groups, j + 1);
    assert groups[..j + 1][..j] == groups[..j];
  }

  /** The label at (j, k) added to the cases found so far. */
  lemma {:induction false} GroupCasesStep(groups: seq<seq<Label>>, j: nat, k: nat)
    requires j < |groups| && k < |groups[j]|
    ensures GroupCases(j, groups[j][..k + 1]) ==
            GroupCases(j, groups[j][..k]) + if groups[j][k].Case? then [CaseElement(j, k, groups[j][k].value)] else []
  {
    assert groups[j][..k + 1][..k] == groups[j][..k];
  }

  lemma {:induction false} AllCasesStep(groups: seq<seq<Label>>, j: nat)
    requires j < |groups|
    ensures AllCases(groups[..j + 1]) == AllCases(groups[..j]) + GroupCases(j, groups[j])
  {
    assert groups[..j + 1][..j] == groups[..j];
  }

  /** What is known before label (j, k) is read. */
  ghost predicate Collected(sw: Switch, groups: seq<seq<Label>>, j: nat, k: nat, kept: Option<Position>,
                            extra: set<Position>)
    requires j <= |groups| && if j < |groups| then k <= |groups[j]| else k == 0
    reads sw, sw.cases
  {
    && sw.Valid() && sw.cases.Length == CountLabels(groups) + 1
    && sw.cases[1..sw.numCases + 1] == AllCases(groups[..j]) + (if k == 0 then [] else GroupCases(j, groups[j][..k]))
    && DefaultsUpTo(groups, j, k, kept, extra)
    && (if kept.Some? then sw.defaultCase.Some? && At(sw.defaultCase.value) == kept.value else sw.defaultCase.None?)
  }

  lemma {:induction false} DefaultsStep(groups: seq<seq<Label>>, j: nat, k: nat, kept: Option<Position>,
                                        extra: set<Position>)
    requires j < |groups| && k < |groups[j]| && DefaultsUpTo(groups, j, k, kept, extra)
    ensures !groups[j][k].Default? ==> DefaultsUpTo(groups, j, k + 1, kept, extra)
    ensures groups[j][k].Default? && kept.None? ==> DefaultsUpTo(groups, j, k + 1, Some(Position(j, k)), extra)
    ensures groups[j][k].Default? && kept.Some? ==> DefaultsUpTo(groups, j, k + 1, kept, extra + {Position(j, k)})
  {
    forall p ensures Before(p, Position(j, k + 1)) <==> Before(p, Position(j, k)) || p == Position(j, k) {}
  }

  lemma {:induction false} DefaultsNextGroup(groups: seq<seq<Label>>, j: nat, kept: Option<Position>,
                                             extra: set<Position>)
    requires j < |groups| && DefaultsUpTo(groups, j, |groups[j]|, kept, extra)
    ensures DefaultsUpTo(groups, j + 1, 0, kept, extra)
  {
    forall p | IsLabel(groups, p) ensures Before(p, Position(j + 1, 0)) <==> Before(p, Position(j, |groups[j]|)) {}
  }

  method CollectLabel(sw: Switch, groups: seq<seq<Label>>, j: nat, k: nat, kept0: Option<Position>,
                      extra0: set<Position>)
    returns (kept: Option<Position>, extra: set<Position>)
    requires j < |groups| && k < |groups[j]| && Collected(sw, groups, j, k, kept0, extra0)
    modifies sw`numCases, sw`defaultCase, sw.cases
    ensures Collected(sw, groups, j, k + 1, kept, extra)
  {
    RoomLeft(groups, j, k);
    GroupCasesStep(groups, j, k);
    DefaultsStep(groups, j, k, kept0, extra0);
    hide DefaultsUpTo, AllCases, GroupCases, CountLabels;
    kept, extra := kept0, extra0;
    match groups[j][k]
    case Case(v) => sw.AddCase(CaseElement(j, k, v));
    case Rejected =>
    case Default =>
      if sw.defaultCase.None? {
        sw.defaultCase := Some(CaseElement(j, k, 0));
        kept := Some(Position(j, k));
      } else {
        extra := extra + {Position(j, k)};
      }
  }

  /** Steps through the labels in source order: valid cases are added, the first default is kept. */
  method CollectLabels(groups: seq<seq<Label>>) returns (sw: Switch, kept: Option<Position>, extra: set<Position>)
    ensures fresh(sw) && fresh(sw.cases) && sw.Valid() && sw.cases[1..sw.numCases + 1] == AllCases(groups)
    ensures DefaultsUpTo(groups, |groups|, 0, kept, extra)
    ensures if kept.Some? then sw.defaultCase.Some? && At(sw.defaultCase.value) == kept.value else sw.defaultCase.None?
  {
    hide AllCases, GroupCases, CountLabels, DefaultsUpTo;
    sw := new Switch(CountLabels(groups));
    kept, extra := None, {};
    NothingCollected(groups);
    for j := 0 to |groups|
      invariant fresh(sw) && fresh(sw.cases) && Collected(sw, groups, j, 0, kept, extra)
    {
      AllCasesStep(groups, j);
      for k := 0 to |groups[j]|
        invariant fresh(sw) && fresh(sw.cases) && Collected(sw, groups, j, k, kept, extra)
      {
        kept, extra := CollectLabel(sw, groups, j, k, kept, extra);
      }
      assert groups[j][..|groups[j]|] == groups[j];
      DefaultsNextGroup(groups, j, kept, extra);
    }
    assert groups[..|groups|] == groups;
  }

  lemma {:induction false} NothingCollected(groups: seq<seq<Label>>)
    ensures AllCases(groups[..0]) == [] && DefaultsUpTo(groups, 0, 0, None, {})
    ensures forall j :: GroupCases(j, []) == []
  {
  }

  /** The loop over the sorted cases: numbers them and reports each that equals the one before it. */
  method NumberCases(sw: Switch, initial: map<Position, nat>)
    returns (reported: set<Position>, mapIndex: map<Position, nat>)
    requires sw.Valid()
    ensures var t := sw.cases[1..sw.numCases + 1];
            reported == Reported(t, |t|) && mapIndex == Numbered(t, |t|, initial)
  {
    reported, mapIndex := {}, initial;
    ghost var t := sw.cases[1..sw.numCases + 1];
    for k := 0 to sw.numCases
      invariant reported == Reported(t, k) && mapIndex == Numbered(t, k, initial)
    {
      var c := sw.cases[k + 1];
      assert c == t[k];
      mapIndex := mapIndex[At(c) := k];
      if k > 0 && c.value == sw.cases[k].value {
        reported := reported + {At(c)};
      }
    }
  }

  // ---- Numbering is a bijection

  function Row(j: nat, n: nat): (row: set<Position>)
    ensures |row| == n && forall p :: p in row <==> p.block == j && p.index < n
  {
    if n == 0 then {} else Row(j, n - 1) + {Position(j, n - 1)}
  }

  /** All places of labels. */
  function Places(groups: seq<seq<Label>>): (places: set<Position>)
    ensures forall p :: p in places <==> IsLabel(groups, p)
    ensures |places| == CountLabels(groups)
  {
    if groups == [] then {} else
      var j := |groups| - 1;
      var before, row := Places(groups[..j]), Row(j, |groups[j]|);
      assert before !! row;
      assert |before + row| == |before| + |row|;
      before + row
  }

  lemma {:induction false} PlacesOfCases(t: seq<CaseElement>) returns (places: set<Position>)
    requires forall i, j :: 0 <= i < j < |t| ==> At(t[i]) != At(t[j])
    ensures |places| == |t| && forall p :: p in places <==> CaseAt(t, p)
  {
    if t == [] {
      places := {};
    } else {
      var n := |t| - 1;
      places := PlacesOfCases(t[..n]);
      CaseAtNext(t, n);
      assert t[..n + 1] == t;
      assert At(t[n]) !in places;
      places := places + {At(t[n])};
    }
  }

  lemma {:induction false} CaseAtMeaning(groups: seq<seq<Label>>, t: seq<CaseElement>, p: Position)
    requires multiset(t) == multiset(AllCases(groups))
    ensures CaseAt(t, p) <==> IsLabel(groups, p) && groups[p.block][p.index].Case?
  {
    AllCasesMeaning(groups);
    if CaseAt(t, p) {
      var i :| 0 <= i < |t| && At(t[i]) == p;
      assert t[i] in multiset(AllCases(groups));
    }
    if IsLabel(groups, p) && groups[p.block][p.index].Case? {
      assert CaseElement(p.block, p.index, groups[p.block][p.index].value) in multiset(t);
    }
  }

  /** With every label accepted, the cases and the default are all the labels. */
  lemma {:induction false} EveryLabel(groups: seq<seq<Label>>, t: seq<CaseElement>, kept: Option<Position>, p: Position)
    requires multiset(t) == multiset(AllCases(groups))
    requires AllValid(groups) && DefaultsUpTo(groups, |groups|, 0, kept, {})
    ensures IsLabel(groups, p) <==> CaseAt(t, p) || kept == Some(p)
    ensures kept == Some(p) ==> !CaseAt(t, p)
  {
    CaseAtMeaning(groups, t, p);
    if kept == Some(p) { assert HasLabel(groups, p, Default); }
    if IsLabel(groups, p) && groups[p.block][p.index].Default? {
      assert HasLabel(groups, p, Default) && Before(p, Position(|groups|, 0));
    }
  }

  lemma {:induction false} DistinctPlaces(s: seq<CaseElement>, t: seq<CaseElement>)
    requires Arranged(s, t)
    ensures forall i, j :: 0 <= i < j < |t| ==> At(t[i]) != At(t[j])
  {
    forall i, j | 0 <= i < j < |t| ensures At(t[i]) != At(t[j]) { ArrangedStrictly(s, t, i, j); }
  }

  function KeptPlace(kept: Option<Position>): set<Position> {
    if kept.Some? then {kept.value} else {}
  }

  lemma {:induction false} PlacesSplit(groups: seq<seq<Label>>, t: seq<CaseElement>, kept: Option<Position>,
                                       places: set<Position>)
    requires multiset(t) == multiset(AllCases(groups)) && forall p :: p in places <==> CaseAt(t, p)
    requires AllValid(groups) && DefaultsUpTo(groups, |groups|, 0, kept, {})
    ensures Places(groups) == places + KeptPlace(kept) && places !! KeptPlace(kept)
  {
    hide CaseAt, AllCases, AllValid, DefaultsUpTo, IsLabel, Places;
    forall p ensures (p in Places(groups) <==> p in places + KeptPlace(kept)) && !(p in places && kept == Some(p)) {
      EveryLabel(groups, t, kept, p);
    }
  }

  lemma {:induction false} CaseCount(groups: seq<seq<Label>>, t: seq<CaseElement>, kept: Option<Position>)
    requires Arranged(AllCases(groups), t) && AllValid(groups) && DefaultsUpTo(groups, |groups|, 0, kept, {})
    ensures |t| + |KeptPlace(kept)| == CountLabels(groups)
  {
    assert multiset(t) == multiset(AllCases(groups));
    DistinctPlaces(AllCases(groups), t);
    hide Arranged, AllValid, DefaultsUpTo, CaseAt, AllCases, IsLabel;
    var places := PlacesOfCases(t);
    PlacesSplit(groups, t, kept, places);
    assert |places + KeptPlace(kept)| == |places| + |KeptPlace(kept)|;
  }

  lemma {:induction false} NumberOf(groups: seq<seq<Label>>, t: seq<CaseElement>, kept: Option<Position>,
                                    initial: map<Position, nat>, p: Position)
    requires Arranged(AllCases(groups), t) && AllValid(groups) && DefaultsUpTo(groups, |groups|, 0, kept, {})
    requires initial.Keys == KeptPlace(kept) && (kept.Some? ==> initial[kept.value] == CountLabels(groups) - 1)
    ensures var m := Numbered(t, |t|, initial);
            && (p in m <==> IsLabel(groups, p))
            && (p in m ==> m[p] < CountLabels(groups) && if m[p] < |t| then At(t[m[p]]) == p else kept == Some(p))
  {
    CaseCount(groups, t, kept);
    NumberedMeaning(t, |t|, initial, p);
    EveryLabel(groups, t, kept, p);
    if CaseAt(t, p) {
      var i :| 0 <= i < |t| && At(t[i]) == p;
      NumberedAt(AllCases(groups), t, |t|, initial, i);
    }
    hide Numbered, Arranged, AllCases, CountLabels, IsLabel, AllValid, DefaultsUpTo;
    assert t[..|t|] == t;
  }

  lemma {:induction false} NumbersBijective(groups: seq<seq<Label>>, t: seq<CaseElement>, kept: Option<Position>,
                                            initial: map<Position, nat>)
    requires Arranged(AllCases(groups), t) && AllValid(groups) && DefaultsUpTo(groups, |groups|, 0, kept, {})
    requires initial.Keys == KeptPlace(kept) && (kept.Some? ==> initial[kept.value] == CountLabels(groups) - 1)
    ensures Bijective(groups, Numbered(t, |t|, initial))
  {
    hide Numbered, Arranged, AllCases, CountLabels, IsLabel, AllValid, DefaultsUpTo;
    var m := Numbered(t, |t|, initial);
    forall p ensures && (p in m <==> IsLabel(groups, p))
                     && (p in m ==>
                           m[p] < CountLabels(groups) && if m[p] < |t| then At(t[m[p]]) == p else kept == Some(p)) {
      NumberOf(groups, t, kept, initial, p);
    }
    forall n | 0 <= n < CountLabels(groups) ensures n in m.Values {
      EveryNumber(groups, t, kept, initial, n);
    }
  }

  lemma {:induction false} EveryNumber(groups: seq<seq<Label>>, t: seq<CaseElement>, kept: Option<Position>,
                                       initial: map<Position, nat>, n: nat)
    requires Arranged(AllCases(groups), t) && AllValid(groups) && DefaultsUpTo(groups, |groups|, 0, kept, {})
    requires initial.Keys == KeptPlace(kept) && (kept.Some? ==> initial[kept.value] == CountLabels(groups) - 1)
    requires n < CountLabels(groups)
    ensures n in Numbered(t, |t|, initial).Values
  {
    CaseCount(groups, t, kept);
    var m := Numbered(t, |t|, initial);
    if n < |t| {
      NumberedAt(AllCases(groups), t, |t|, initial, n);
      assert m[At(t[n])] == n;
    } else {
      NumberedMeaning(t, |t|, initial, kept.value);
      EveryLabel(groups, t, kept, kept.value);
      hide Numbered, Arranged, AllCases, CountLabels, IsLabel, AllValid, DefaultsUpTo;
      assert t[..|t|] == t;
      assert m[kept.value] == n;
    }
  }

  lemma {:induction false} ArrangedAfterSort(groups: seq<seq<Label>>, s: seq<CaseElement>, t: seq<CaseElement>, n: nat)
    requires Reordered(s, t, n) && Sorted(t, 1, n) && s[1..n + 1] == AllCases(groups)
    ensures Arranged(AllCases(groups), t[1..n + 1])
  {
    hide AllCases, InOrder, IsLabel;
    AllCasesMeaning(groups);
    if n > 0 { SectionElements(s, t, 1, n); }
  }

  lemma {:induction false} RepeatsLabelMeaning(groups: seq<seq<Label>>, c: CaseElement)
    requires c in AllCases(groups)
    ensures Repeats(AllCases(groups), c) <==> RepeatsLabel(groups, At(c))
  {
    var s := AllCases(groups);
    AllCasesMeaning(groups);
    if Repeats(s, c) {
      var d :| d in s && d.value == c.value && Before(At(d), At(c));
      assert HasLabel(groups, At(c), Case(d.value)) && HasLabel(groups, At(d), Case(d.value));
    }
    if RepeatsLabel(groups, At(c)) {
      var q, v :| HasLabel(groups, At(c), Case(v)) && HasLabel(groups, q, Case(v)) && Before(q, At(c));
      assert CaseElement(q.block, q.index, v) in s;
    }
  }

  lemma {:induction false} RepeatsMeaning(groups: seq<seq<Label>>, t: seq<CaseElement>, p: Position)
    requires Arranged(AllCases(groups), t)
    ensures p in Reported(t, |t|) <==> RepeatsLabel(groups, p)
  {
    var s := AllCases(groups);
    ReportedMeaning(s, t, |t|, p);
    CaseAtMeaning(groups, t, p);
    assert RepeatsLabel(groups, p) ==> CaseAt(t, p);
    hide RepeatsLabel, Repeats, AllCases, Reported;
    forall i | 0 <= i < |t| ensures Repeats(s, t[i]) <==> RepeatsLabel(groups, At(t[i])) {
      assert t[i] in multiset(s);
      RepeatsLabelMeaning(groups, t[i]);
    }
  }

  /** What the switch statement does with its labels, whatever they are. */
  method ProcessLabels(groups: seq<seq<Label>>)
    returns (sw: Switch, duplicates: set<Position>, extra: set<Position>, mapIndex: map<Position, nat>)
    requires CountLabels(groups) <= MAX_CASES
    ensures sw.Valid() && Sorted(sw.cases[..], 1, sw.numCases)
    ensures multiset(sw.cases[1..sw.numCases + 1]) == multiset(AllCases(groups))
    ensures ExactlyRepeats(groups, duplicates)
    ensures |duplicates| + |Values(AllCases(groups))| == |AllCases(groups)|
    ensures ExactlyExtraDefaults(groups, extra)
    ensures AllValid(groups) && extra == {} ==> Bijective(groups, mapIndex)
  {
    hide AllCases, CountLabels, DefaultsUpTo, Sorted, Bijective, ExactlyRepeats, ExactlyExtraDefaults, AllValid,
      Reported, Numbered, Arranged;
    var kept;
    sw, kept, extra := CollectLabels(groups);
    ExtraMeaning(groups, kept, extra);
    var initial := map[];
    if kept.Some? {
      initial := map[kept.value := CountLabels(groups) - 1];
    }
    SortLabels(sw, groups);
    ghost var t := sw.cases[1..sw.numCases + 1];
    duplicates, mapIndex := NumberCases(sw, initial);
    LabelsDone(groups, t, kept, extra, initial);
  }

  method SortLabels(sw: Switch, groups: seq<seq<Label>>)
    requires sw.Valid() && CountLabels(groups) <= MAX_CASES && sw.cases[1..sw.numCases + 1] == AllCases(groups)
    modifies sw.cases
    ensures Sorted(sw.cases[..], 1, sw.numCases) && Arranged(AllCases(groups), sw.cases[1..sw.numCases + 1])
  {
    hide AllCases, CountLabels, Sorted, Arranged, Reordered;
    ghost var before := sw.cases[..];
    assert before[1..sw.numCases + 1] == AllCases(groups);
    CasesBound(groups);
    if sw.numCases > 0 {
      SmallSums(before, sw.numCases);
      ghost var visited := sw.SortCases();
    } else {
      NothingToSort(before);
    }
    ArrangedAfterSort(groups, before, sw.cases[..], sw.numCases);
    assert sw.cases[..][1..sw.numCases + 1] == sw.cases[1..sw.numCases + 1];
  }

  lemma {:induction false} CasesBound(groups: seq<seq<Label>>)
    ensures |AllCases(groups)| <= CountLabels(groups)
  {
    AllCasesMeaning(groups);
  }

  lemma {:induction false} NothingToSort(s: seq<CaseElement>)
    requires |s| > 0
    ensures Reordered(s, s, 0) && Sorted(s, 1, 0)
  {
  }

  lemma {:induction false} ExtraMeaning(groups: seq<seq<Label>>, kept: Option<Position>, extra: set<Position>)
    requires DefaultsUpTo(groups, |groups|, 0, kept, extra)
    ensures ExactlyExtraDefaults(groups, extra)
    ensures kept.Some? ==> CountLabels(groups) >= 1
  {
    if kept.Some? {
      assert HasLabel(groups, kept.value, Default);
      assert kept.value in Places(groups);
    }
    forall p | HasLabel(groups, p, Default) ensures Before(p, Position(|groups|, 0)) {}
  }

  lemma {:induction false} LabelsDone(groups: seq<seq<Label>>, t: seq<CaseElement>, kept: Option<Position>,
                                      extra: set<Position>, initial: map<Position, nat>)
    requires Arranged(AllCases(groups), t) && DefaultsUpTo(groups, |groups|, 0, kept, extra)
    requires initial.Keys == KeptPlace(kept)
    requires kept.Some? ==> initial[kept.value] == CountLabels(groups) - 1
    ensures ExactlyRepeats(groups, Reported(t, |t|))
    ensures |Reported(t, |t|)| + |Values(AllCases(groups))| == |AllCases(groups)|
    ensures multiset(t) == multiset(AllCases(groups))
    ensures AllValid(groups) && extra == {} ==> Bijective(groups, Numbered(t, |t|, initial))
  {
    var s := AllCases(groups);
    forall p ensures p in Reported(t, |t|) <==> RepeatsLabel(groups, p) {
      RepeatsMeaning(groups, t, p);
    }
    ReportedCount(s, t, |t|);
    assert t[..|t|] == t && |t| == |multiset(t)| == |multiset(s)| == |s|;
    SameValues(s, t);
    if AllValid(groups) && extra == {} { NumbersBijective(groups, t, kept, initial); }
    hide Arranged, AllCases, Reported, RepeatsLabel, Numbered, Bijective, DefaultsUpTo, AllValid;
  }

  lemma {:induction false} SameValues(s: seq<CaseElement>, t: seq<CaseElement>)
    requires multiset(s) == multiset(t)
    ensures Values(s) == Values(t)
  {
    forall c ensures c in s <==> c in t {
      assert c in multiset(s) <==> c in multiset(t);
    }
  }
}
