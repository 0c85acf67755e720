/** Strings packed by overlapping the tail of one with the head of another. */
module Packing {
  import opened Options

  /** The list of strings; merged ones leave a gap. */
  type Blocks = seq<Option<string>>

  predicate Live(b: Blocks, i: int) {
    0 <= i < |b| && b[i].Some?
  }

  function Length(o: Option<string>): nat {
    if o.Some? then |o.value| else 0
  }

  function TotalLength(b: Blocks): nat {
    if b == [] then 0 else TotalLength(b[..|b| - 1]) + Length(b[|b| - 1])
  }

  function CountLive(b: Blocks): nat {
    if b == [] then 0 else CountLive(b[..|b| - 1]) + if b[|b| - 1].Some? then 1 else 0
  }

  function Head(s: string, j: nat): string
    requires j <= |s|
  {
    s[..j]
  }

  function Tail(s: string, j: nat): string
    requires j <= |s|
  {
    s[|s| - j..]
  }

  predicate OccursAt(s: string, key: string, i: int) {
    0 <= i <= |s| - |key| && s[i..i + |key|] == key
  }

  ghost predicate Contains(s: string, key: string) {
    exists i :: OccursAt(s, key, i)
  }

  /** Every live string has at least `size` characters. */
  ghost predicate LongEnough(b: Blocks, size: nat) {
    forall i :: Live(b, i) ==> |b[i].value| >= size
  }

  /** Every key is still part of some live string. */
  ghost predicate Covers(b: Blocks, keys: set<string>) {
    forall key :: key in keys ==> exists i :: Live(b, i) && Contains(b[i].value, key)
  }

  /** String m overlaps string i: its last j characters are the first j of the other. */
  ghost predicate Overlap(b: Blocks, m: int, i: int, j: nat)
    requires LongEnough(b, j)
  {
    Live(b, m) && Live(b, i) && Tail(b[m].value, j) == Head(b[i].value, j)
  }

  /** No two different strings overlap by j characters. */
  ghost predicate NoOverlap(b: Blocks, j: nat)
    requires LongEnough(b, j)
  {
    forall m, i :: m != i ==> !Overlap(b, m, i, j)
  }

  /** No other string overlaps one of the first k. */
  ghost predicate Settled(b: Blocks, k: nat, j: nat)
    requires LongEnough(b, j)
  {
    forall m, i :: m != i && i < k ==> !Overlap(b, m, i, j)
  }

  // ---- One merge

  /** `front` followed by what of `back` lies past their overlap. */
  function Merged(front: string, back: string, j: nat): string
    requires j <= |back|
  {
    front + back[j..]
  }

  lemma {:induction false} MergedEnds(front: string, back: string, j: nat)
    requires j <= |front| && j <= |back| && Tail(front, j) == Head(back, j)
    ensures Merged(front, back, j) == front[..|front| - j] + back
    ensures |Merged(front, back, j)| == |front| + |back| - j
  {
    assert front == front[..|front| - j] + Tail(front, j) && back == Head(back, j) + back[j..];
  }

  lemma {:induction false} MergedParts(front: string, back: string, j: nat, n: nat)
    requires j <= |front| && j <= |back| && Tail(front, j) == Head(back, j)
    ensures n <= |front| ==> Head(Merged(front, back, j), n) == Head(front, n)
    ensures n <= |back| ==> Tail(Merged(front, back, j), n) == Tail(back, n)
  {
    MergedEnds(front, back, j);
  }

  lemma {:induction false} MergedContains(front: string, back: string, j: nat, key: string)
    requires j <= |front| && j <= |back| && Tail(front, j) == Head(back, j)
    requires Contains(front, key) || Contains(back, key)
    ensures Contains(Merged(front, back, j), key)
  {
    var s := Merged(front, back, j);
    MergedEnds(front, back, j);
    if Contains(front, key) {
      var i :| OccursAt(front, key, i);
      assert s[i..i + |key|] == front[i..i + |key|];
      assert OccursAt(s, key, i);
    } else {
      var i :| OccursAt(back, key, i);
      var d := |front| - j;
      assert s[d + i..d + i + |key|] == back[i..i + |key|];
      assert OccursAt(s, key, d + i);
    }
  }

  /** String `other` and string k become one, at the lower of the two places. */
  function Merge(b: Blocks, k: nat, other: nat, j: nat): Blocks
    requires Live(b, k) && Live(b, other) && j <= |b[k].value|
  {
    var s := Some(Merged(b[other].value, b[k].value, j));
    if other < k then b[k := None][other := s] else b[k := s][other := None]
  }

  /** What a merge needs: two different strings with room for an overlap of j, shorter than any string. */
  ghost predicate Mergeable(b: Blocks, k: nat, other: nat, j: nat, size: nat) {
    0 < j < size && LongEnough(b, size) && k != other && Overlap(b, other, k, j)
  }

  lemma {:induction false} UpdateTotals(b: Blocks, i: nat, o: Option<string>)
    requires i < |b|
    ensures TotalLength(b[i := o]) == TotalLength(b) - Length(b[i]) + Length(o)
    ensures CountLive(b[i := o]) == CountLive(b) - (if b[i].Some? then 1 else 0) + (if o.Some? then 1 else 0)
    decreases |b|
  {
    var n := |b| - 1;
    if i < n {
      assert b[i := o][..n] == b[..n][i := o];
      UpdateTotals(b[..n], i, o);
    } else {
      assert b[i := o][..n] == b[..n];
    }
  }

  lemma {:induction false} MergeTotals(b: Blocks, k: nat, other: nat, j: nat, size: nat)
    requires Mergeable(b, k, other, j, size)
    ensures TotalLength(Merge(b, k, other, j)) == TotalLength(b) - j
    ensures CountLive(Merge(b, k, other, j)) == CountLive(b) - 1
  {
    var s := Some(Merged(b[other].value, b[k].value, j));
    if other < k {
      UpdateTotals(b, k, None);
      UpdateTotals(b[k := None], other, s);
    } else {
      UpdateTotals(b, k, s);
      UpdateTotals(b[k := s], other, None);
    }
  }

  lemma {:induction false} MergeLongEnough(b: Blocks, k: nat, other: nat, j: nat, size: nat)
    requires Mergeable(b, k, other, j, size)
    ensures LongEnough(Merge(b, k, other, j), size)
  {
  }

  lemma {:induction false} MergeCovers(b: Blocks, k: nat, other: nat, j: nat, size: nat, keys: set<string>)
    requires Mergeable(b, k, other, j, size) && Covers(b, keys)
    ensures Covers(Merge(b, k, other, j), keys)
  {
    var c := Merge(b, k, other, j);
    var low := if other < k then other else k;
    forall key | key in keys ensures exists i :: Live(c, i) && Contains(c[i].value, key) {
      var i :| Live(b, i) && Contains(b[i].value, key);
      if i == k || i == other {
        MergedContains(b[other].value, b[k].value, j, key);
        assert Live(c, low) && Contains(c[low].value, key);
      } else {
        assert Live(c, i) && Contains(c[i].value, key);
      }
    }
  }

  /** The ends, up to n characters, of the strings after a merge are ends of strings before it. */
  lemma {:induction false} MergeEnds(b: Blocks, k: nat, other: nat, j: nat, size: nat, n: nat, i: int)
    requires Mergeable(b, k, other, j, size) && n <= size && Live(Merge(b, k, other, j), i)
    ensures var c, low := Merge(b, k, other, j), if other < k then other else k;
            && LongEnough(c, size) && Live(b, i)
            && Head(c[i].value, n) == Head(b[if i == low then other else i].value, n)
            && Tail(c[i].value, n) == Tail(b[if i == low then k else i].value, n)
  {
    MergeLongEnough(b, k, other, j, size);
    MergedParts(b[other].value, b[k].value, j, n);
  }

  /** A pass for a shorter overlap does not bring back a longer one. */
  lemma {:induction false} MergeKeepsNoOverlap(b: Blocks, k: nat, other: nat, j: nat, size: nat, n: nat)
    requires Mergeable(b, k, other, j, size) && n <= size && NoOverlap(b, n)
    ensures LongEnough(Merge(b, k, other, j), size) && NoOverlap(Merge(b, k, other, j), n)
  {
    var c, low := Merge(b, k, other, j), if other < k then other else k;
    MergeLongEnough(b, k, other, j, size);
    forall m, i | m != i ensures !Overlap(c, m, i, n) {
      if Live(c, m) && Live(c, i) {
        MergeEnds(b, k, other, j, size, n, m);
        MergeEnds(b, k, other, j, size, n, i);
        assert !Overlap(b, if m == low then k else m, if i == low then other else i, n);
      }
    }
  }

  lemma {:induction false} MergeKeepsSettled(b: Blocks, k: nat, other: nat, j: nat, size: nat)
    requires Mergeable(b, k, other, j, size) && Settled(b, k, j)
    ensures LongEnough(Merge(b, k, other, j), size) && Settled(Merge(b, k, other, j), k, j)
  {
    var c, low := Merge(b, k, other, j), if other < k then other else k;
    MergeLongEnough(b, k, other, j, size);
    forall m, i | m != i && i < k ensures !Overlap(c, m, i, j) {
      if Live(c, m) && Live(c, i) {
        MergeEnds(b, k, other, j, size, j, m);
        MergeEnds(b, k, other, j, size, j, i);
        assert !Overlap(b, if m == low then k else m, if i == low then other else i, j);
      }
    }
  }

  // ---- The lists of tails

  ghost predicate NoRepeats(l: seq<nat>) {
    forall x, y :: 0 <= x < y < |l| ==> l[x] != l[y]
  }

  /** The tail of each live string. */
  ghost function TailsOf(b: Blocks, j: nat): map<nat, string>
    requires LongEnough(b, j)
  {
    map i: nat | i < |b| && Live(b, i) :: Tail(b[i].value, j)
  }

  /** Each index stands exactly once in the lists, under its own tail, and nothing else does. */
  ghost predicate Listed(tails: map<string, seq<nat>>, own: map<nat, string>) {
    && (forall t :: t in tails ==> tails[t] != [] && NoRepeats(tails[t]))
    && (forall t, i :: t in tails && i in tails[t] ==> i in own && own[i] == t)
    && (forall i :: i in own ==> own[i] in tails && i in tails[own[i]])
  }

  function ReplaceAll(l: seq<nat>, x: nat, y: nat): (r: seq<nat>)
    ensures |r| == |l| && forall n :: 0 <= n < |l| ==> r[n] == if l[n] == x then y else l[n]
  {
    if l == [] then [] else [if l[0] == x then y else l[0]] + ReplaceAll(l[1..], x, y)
  }

  /** The entry for `head` shortened, or dropped when nothing is left. */
  function Shortened(tails: map<string, seq<nat>>, head: string, entry: seq<nat>): map<string, seq<nat>> {
    if entry == [] then tails - {head} else tails[head := entry]
  }

  /** `entry` is what the list `l` holds besides `other`. */
  ghost predicate Without(l: seq<nat>, other: nat, entry: seq<nat>) {
    NoRepeats(entry) && (forall i :: i in entry <==> i in l && i != other) && other in l
  }

  lemma {:induction false} ShortenedListed(tails: map<string, seq<nat>>, own: map<nat, string>, head: string,
                                           other: nat, entry: seq<nat>)
    requires Listed(tails, own) && head in tails && Without(tails[head], other, entry)
    ensures Listed(Shortened(tails, head, entry), own - {other})
  {
    var next := Shortened(tails, head, entry);
    assert own[other] == head;
    forall t, i | t in next && i in next[t] ensures i in own && own[i] == t && i != other {
      assert i in tails[t];
    }
    forall i | i in own && i != other ensures own[i] in next && i in next[own[i]] {
      assert own[i] == head ==> i in entry;
    }
  }

  /** Index k is renamed to `other`. */
  lemma {:induction false} ReplacedListed(tails: map<string, seq<nat>>, own: map<nat, string>, k: nat, other: nat)
    requires Listed(tails, own) && k in own && other !in own
    ensures Listed(tails[own[k] := ReplaceAll(tails[own[k]], k, other)], (own - {k})[other := own[k]])
  {
    var l := tails[own[k]];
    ReplaceAllListed(l, k, other);
  }

  lemma {:induction false} ReplaceAllListed(l: seq<nat>, x: nat, y: nat)
    requires NoRepeats(l) && x in l && y !in l
    ensures NoRepeats(ReplaceAll(l, x, y))
    ensures forall i :: i in ReplaceAll(l, x, y) <==> i == y || (i in l && i != x)
  {
    var r := ReplaceAll(l, x, y);
    forall i | i in l && i != x ensures i in r {
      var n :| 0 <= n < |l| && l[n] == i;
      assert r[n] == i;
    }
    var n :| 0 <= n < |l| && l[n] == x;
    assert r[n] == y;
  }

  lemma {:induction false} MergedTails(b: Blocks, k: nat, other: nat, j: nat, size: nat)
    requires Mergeable(b, k, other, j, size)
    ensures var c, own := Merge(b, k, other, j), TailsOf(b, j);
            && LongEnough(c, j) && k in own && other in own && own[other] == Head(b[k].value, j)
            && TailsOf(c, j) == (if other < k then (own - {other} - {k})[other := own[k]] else own - {other})
  {
    var c, low := Merge(b, k, other, j), if other < k then other else k;
    MergeLongEnough(b, k, other, j, size);
    forall i: nat | Live(c, i) ensures Tail(c[i].value, j) == Tail(b[if i == low then k else i].value, j) {
      MergeEnds(b, k, other, j, size, j, i);
    }
  }

  /** The list under the tail of k is still there when k is to be renamed in it. */
  lemma {:induction false} ListedAfterMerge(b: Blocks, k: nat, other: nat, j: nat, size: nat,
                                            tails: map<string, seq<nat>>, entry: seq<nat>)
    requires Mergeable(b, k, other, j, size) && Listed(tails, TailsOf(b, j))
    requires var head := Head(b[k].value, j); head in tails && Without(tails[head], other, entry)
    ensures var c, tail := Merge(b, k, other, j), Tail(b[k].value, j);
            var next := Shortened(tails, Head(b[k].value, j), entry);
            && LongEnough(c, j)
            && (other > k ==> Listed(next, TailsOf(c, j)))
            && (other < k ==> && Tail(c[other].value, j) == tail && tail in next
                              && Listed(next[tail := ReplaceAll(next[tail], k, other)], TailsOf(c, j)))
  {
    var own := TailsOf(b, j);
    MergedTails(b, k, other, j, size);
    ShortenedListed(tails, own, Head(b[k].value, j), other, entry);
    var next := Shortened(tails, Head(b[k].value, j), entry);
    if other < k {
      MergedParts(b[other].value, b[k].value, j, j);
      assert k in own - {other};
      ReplacedListed(next, own - {other}, k, other);
    }
  }
}
