/** The labels of a switch on strings: each is compared by a hash code, so a label can be reported as a
    duplicate of a different string. */
module StringLabels {
  import opened CaseSort
  import opened CaseLabels

  type Byte = b: nat | b < 256

  /** A label with the UTF-8 bytes of its constant, a label that was rejected, or the default label. */
  datatype TextLabel = Text(text: seq<Byte>) | BadText | NoText

  const WORD := 0x1_0000_0000

  /** The value of an i4 that n is stored in. */
  function Wrapped(n: int): int {
    var m := n % WORD;
    if m < 0x8000_0000 then m else m - WORD
  }

  // ---- The hash code

  /** The code after the bytes of a text, each step wrapped to 32 bits. */
  function Hash(text: seq<Byte>): int {
    if text == [] then 0 else Wrapped(31 * Hash(text[..|text| - 1]) + text[|text| - 1])
  }

  /** The polynomial that it stands for, in unbounded integers. */
  function Polynomial(text: seq<Byte>): int {
    if text == [] then 0 else 31 * Polynomial(text[..|text| - 1]) + text[|text| - 1]
  }

  lemma {:induction false} WrapsOnce(n: int, b: int)
    ensures Wrapped(31 * Wrapped(n) + b) == Wrapped(31 * n + b)
  {
    var k := if n % WORD < 0x8000_0000 then n / WORD else n / WORD + 1;
    assert Wrapped(n) == n - k * WORD;
    assert 31 * Wrapped(n) + b == 31 * n + b - 31 * k * WORD;
  }

  /** Wrapping at each step is wrapping the polynomial once. */
  lemma {:induction false} HashMeaning(text: seq<Byte>)
    ensures Hash(text) == Wrapped(Polynomial(text))
  {
    if text != [] {
      var rest := text[..|text| - 1];
      HashMeaning(rest);
      WrapsOnce(Polynomial(rest), text[|text| - 1]);
    }
  }

  method HashOf(text: seq<Byte>) returns (hash: int)
    ensures hash == Wrapped(Polynomial(text))
  {
    hash := 0;
    for i := 0 to |text|
      invariant hash == Hash(text[..i])
    {
      assert text[..i + 1][..i] == text[..i];
      hash := Wrapped(31 * hash + text[i]);
    }
    assert text[..|text|] == text;
    HashMeaning(text);
  }

  // ---- Labels

  function Encode(l: TextLabel): Label {
    match l
    case Text(t) => Case(Hash(t))
    case BadText => Rejected
    case NoText => Default
  }

  /** What the label loop makes of the labels. */
  ghost predicate Encodes(groups: seq<seq<TextLabel>>, codes: seq<seq<Label>>) {
    && |codes| == |groups|
    && forall j :: 0 <= j < |groups| ==> EncodesGroup(groups[j], codes[j])
  }

  ghost predicate EncodesGroup(labels: seq<TextLabel>, codes: seq<Label>) {
    |codes| == |labels| && forall k :: 0 <= k < |labels| ==> codes[k] == Encode(labels[k])
  }

  function CountTexts(groups: seq<seq<TextLabel>>): nat {
    if groups == [] then 0 else CountTexts(groups[..|groups| - 1]) + |groups[|groups| - 1]|
  }

  lemma {:induction false} SameCount(groups: seq<seq<TextLabel>>, codes: seq<seq<Label>>)
    requires Encodes(groups, codes)
    ensures CountLabels(codes) == CountTexts(groups)
  {
    if groups != [] {
      var n := |groups| - 1;
      assert EncodesGroup(groups[n], codes[n]);
      assert forall j :: 0 <= j < n ==> groups[..n][j] == groups[j] && codes[..n][j] == codes[j];
      SameCount(groups[..n], codes[..n]);
    }
  }

  ghost predicate HasText(groups: seq<seq<TextLabel>>, p: Position, t: seq<Byte>) {
    p.block < |groups| && p.index < |groups[p.block]| && groups[p.block][p.index] == Text(t)
  }

  /** Some earlier label has the same string. */
  ghost predicate RepeatsText(groups: seq<seq<TextLabel>>, p: Position) {
    exists q, t :: HasText(groups, p, t) && HasText(groups, q, t) && Before(q, p)
  }

  /** Some earlier label has a string with the same hash code. */
  ghost predicate RepeatsHash(groups: seq<seq<TextLabel>>, p: Position) {
    exists q, t, u :: HasText(groups, p, t) && HasText(groups, q, u) && Hash(t) == Hash(u) && Before(q, p)
  }

  ghost predicate ExactlyRepeatedTexts(groups: seq<seq<TextLabel>>, reported: set<Position>) {
    forall p :: p in reported <==> RepeatsText(groups, p)
  }

  /** Different strings among the labels have different hash codes. */
  ghost predicate HashesTellApart(groups: seq<seq<TextLabel>>) {
    forall p, q, t, u :: HasText(groups, p, t) && HasText(groups, q, u) && Hash(t) == Hash(u) ==> t == u
  }

  lemma {:induction false} TextsAreCases(groups: seq<seq<TextLabel>>, codes: seq<seq<Label>>, p: Position, v: int)
    requires Encodes(groups, codes)
    ensures HasLabel(codes, p, Case(v)) <==> exists t :: HasText(groups, p, t) && Hash(t) == v
  {
    if p.block < |groups| {
      assert EncodesGroup(groups[p.block], codes[p.block]);
      if p.index < |groups[p.block]| && groups[p.block][p.index].Text? {
        assert HasText(groups, p, groups[p.block][p.index].text);
      }
    }
  }

  lemma {:induction false} RepeatsHashMeaning(groups: seq<seq<TextLabel>>, codes: seq<seq<Label>>, p: Position)
    requires Encodes(groups, codes)
    ensures RepeatsLabel(codes, p) <==> RepeatsHash(groups, p)
  {
    hide Encodes, Hash;
    if RepeatsLabel(codes, p) {
      var q, v :| HasLabel(codes, p, Case(v)) && HasLabel(codes, q, Case(v)) && Before(q, p);
      TextsAreCases(groups, codes, p, v);
      TextsAreCases(groups, codes, q, v);
    }
    if RepeatsHash(groups, p) {
      var q, t, u :| HasText(groups, p, t) && HasText(groups, q, u) && Hash(t) == Hash(u) && Before(q, p);
      TextsAreCases(groups, codes, p, Hash(t));
      TextsAreCases(groups, codes, q, Hash(t));
    }
  }

  /** The first label with the string t. */
  lemma {:induction false} FirstText(groups: seq<seq<TextLabel>>, p: Position, t: seq<Byte>) returns (first: Position)
    requires HasText(groups, p, t)
    ensures HasText(groups, first, t) && !RepeatsText(groups, first)
    decreases p.block, p.index
  {
    if RepeatsText(groups, p) {
      var q, u :| HasText(groups, p, u) && HasText(groups, q, u) && Before(q, p);
      first := FirstText(groups, q, t);
    } else {
      first := p;
    }
  }

  /** If labels that repeat a hash code are reported, just the labels that repeat a string are reported if and
      only if different strings among the labels have different hash codes. */
  lemma {:induction false} StringReportsExact(groups: seq<seq<TextLabel>>, reported: set<Position>)
    requires forall p :: p in reported <==> RepeatsHash(groups, p)
    ensures ExactlyRepeatedTexts(groups, reported) <==> HashesTellApart(groups)
    ensures forall p :: RepeatsText(groups, p) ==> p in reported
  {
    hide Hash;
    if ExactlyRepeatedTexts(groups, reported) {
      forall p, q, t, u | HasText(groups, p, t) && HasText(groups, q, u) && Hash(t) == Hash(u) ensures t == u {
        var a := FirstText(groups, p, t);
        var b := FirstText(groups, q, u);
        assert Before(a, b) ==> RepeatsHash(groups, b);
        assert Before(b, a) ==> RepeatsHash(groups, a);
        assert a == b;
      }
    }
    if HashesTellApart(groups) {
      forall p ensures RepeatsHash(groups, p) ==> RepeatsText(groups, p) {
        if RepeatsHash(groups, p) {
          var q, t, u :| HasText(groups, p, t) && HasText(groups, q, u) && Hash(t) == Hash(u) && Before(q, p);
        }
      }
    }
  }

  lemma {:induction false} SameHash()
    ensures Hash([65, 97]) == Hash([66, 66]) == 2112
  {
    var a: seq<Byte>, b: seq<Byte> := [65, 97], [66, 66];
    assert a[..1] == [65] && b[..1] == [66] && [65][..0] == [] && [66][..0] == [];
    assert Hash([65]) == 65 && Hash([66]) == 66;
  }

  /** "Aa" and "BB": the second label is reported, and no label repeats a string. */
  lemma {:induction false} DifferentStringReported()
    ensures var groups: seq<seq<TextLabel>> := [[Text([65, 97]), Text([66, 66])]];
            && Hash([65, 97]) == Hash([66, 66]) == 2112
            && RepeatsHash(groups, Position(0, 1)) && !RepeatsText(groups, Position(0, 1))
  {
    hide Hash;
    SameHash();
    var a: seq<Byte>, b: seq<Byte> := [65, 97], [66, 66];
    var groups: seq<seq<TextLabel>> := [[Text(a), Text(b)]];
    assert HasText(groups, Position(0, 1), b) && HasText(groups, Position(0, 0), a) && a[0] != b[0];
  }

  /** The labels of a string switch: duplicates are found by hash code. */
  method ProcessStringLabels(groups: seq<seq<TextLabel>>) returns (duplicates: set<Position>)
    requires CountTexts(groups) <= MAX_CASES
    ensures forall p :: p in duplicates <==> RepeatsHash(groups, p)
    ensures ExactlyRepeatedTexts(groups, duplicates) <==> HashesTellApart(groups)
    ensures forall p :: RepeatsText(groups, p) ==> p in duplicates
  {
    hide Hash, Polynomial, RepeatsHash, RepeatsText, RepeatsLabel, HashesTellApart, ExactlyRepeatedTexts, CountTexts,
      CountLabels;
    var codes: seq<seq<Label>> := [];
    for j := 0 to |groups|
      invariant |codes| == j && forall i :: 0 <= i < j ==> EncodesGroup(groups[i], codes[i])
    {
      var labels: seq<Label> := [];
      for k := 0 to |groups[j]|
        invariant |labels| == k && forall i :: 0 <= i < k ==> labels[i] == Encode(groups[j][i])
      {
        var l := groups[j][k];
        if l.Text? {
          var hash := HashOf(l.text);
          HashMeaning(l.text);
          labels := labels + [Case(hash)];
        } else {
          labels := labels + [if l.BadText? then Rejected else Default];
        }
      }
      codes := codes + [labels];
    }
    SameCount(groups, codes);
    var sw, reported, extra, mapIndex := ProcessLabels(codes);
    duplicates := reported;
    forall p ensures p in duplicates <==> RepeatsHash(groups, p) {
      RepeatsHashMeaning(groups, codes, p);
    }
    StringReportsExact(groups, duplicates);
  }
}
