/** Where packed strings come from: each is spelled by blocks of the table, and each block is used once. */
module Origins {
  import opened Options
  import opened Packing

  /** How a string was put together: a block, or two strings that share `overlap` characters. */
  datatype Origin = Whole(text: string) | Joint(front: Origin, back: Origin, overlap: nat)

  function Spelled(o: Origin): string {
    match o
    case Whole(t) => t
    case Joint(f, b, j) => Spelled(f) + if j <= |Spelled(b)| then Spelled(b)[j..] else []
  }

  /** The overlaps are real, and shorter than a block. */
  predicate Honest(o: Origin, size: nat) {
    match o
    case Whole(t) => |t| == size
    case Joint(f, b, j) =>
      && Honest(f, size) && Honest(b, size) && 0 < j < size
      && j <= |Spelled(f)| && j <= |Spelled(b)| && Tail(Spelled(f), j) == Head(Spelled(b), j)
  }

  function BlocksIn(o: Origin): multiset<string> {
    match o
    case Whole(t) => multiset{t}
    case Joint(f, b, _) => BlocksIn(f) + BlocksIn(b)
  }

  function Saved(o: Origin): nat {
    match o
    case Whole(_) => 0
    case Joint(f, b, j) => Saved(f) + Saved(b) + j
  }

  lemma {:induction false} SpelledLength(o: Origin, size: nat)
    requires Honest(o, size)
    ensures |Spelled(o)| + Saved(o) == |BlocksIn(o)| * size
  {
    match o
    case Whole(_) =>
    case Joint(f, b, _) =>
      SpelledLength(f, size);
      SpelledLength(b, size);
      hide Honest;
      Distributed(|BlocksIn(f)|, |BlocksIn(b)|, size);
  }

  lemma {:induction false} Distributed(a: nat, b: nat, size: nat)
    ensures (a + b) * size == a * size + b * size
  {
  }

  function Part(s: Option<string>, o: Origin): multiset<string> {
    if s.Some? then BlocksIn(o) else multiset{}
  }

  /** The blocks in all strings. */
  function AllBlocks(b: Blocks, os: seq<Origin>): multiset<string>
    requires |b| == |os|
  {
    if b == [] then multiset{} else
      var n := |b| - 1;
      AllBlocks(b[..n], os[..n]) + Part(b[n], os[n])
  }

  /** The strings are spelled as `os` says, from the blocks `keys`, each used exactly once. */
  ghost predicate Traced(b: Blocks, os: seq<Origin>, size: nat, keys: set<string>) {
    && |os| == |b| && (forall i :: Live(b, i) ==> Honest(os[i], size) && Spelled(os[i]) == b[i].value)
    && AllBlocks(b, os) == multiset(keys)
  }

  ghost predicate Accounted(b: Blocks, size: nat, keys: set<string>) {
    exists os :: Traced(b, os, size, keys)
  }

  lemma {:induction false} Swapped(a: multiset<string>, p: multiset<string>, q: multiset<string>)
    ensures a + p + q == a + q + p
  {
  }

  lemma {:induction false} AllBlocksUpdate(b: Blocks, os: seq<Origin>, i: nat, s: Option<string>, o: Origin)
    requires |b| == |os| && i < |b|
    ensures AllBlocks(b[i := s], os[i := o]) + Part(b[i], os[i]) == AllBlocks(b, os) + Part(s, o)
    decreases |b|
  {
    hide Part;
    var n := |b| - 1;
    if i < n {
      assert b[i := s][..n] == b[..n][i := s] && os[i := o][..n] == os[..n][i := o];
      AllBlocksUpdate(b[..n], os[..n], i, s, o);
      var last := Part(b[n], os[n]);
      assert b[..n][i] == b[i] && os[..n][i] == os[i];
      Swapped(AllBlocks(b[..n][i := s], os[..n][i := o]), last, Part(b[i], os[i]));
      Swapped(AllBlocks(b[..n], os[..n]), Part(s, o), last);
    } else {
      assert b[i := s][..n] == b[..n] && os[i := o][..n] == os[..n];
      Swapped(AllBlocks(b[..n], os[..n]), Part(s, o), Part(b[i], os[i]));
    }
  }

  lemma {:induction false} SameBlocks(all: multiset<string>, next: multiset<string>, last: multiset<string>,
                                      o: multiset<string>, k: multiset<string>)
    requires (next + k == all && last + o == next + (o + k)) || (next + k == all + (o + k) && last + o == next)
    ensures last == all
  {
    forall x ensures last[x] == all[x] {
      if next + k == all {
        assert (next + k)[x] == all[x] && (last + o)[x] == (next + (o + k))[x];
      } else {
        assert (next + k)[x] == (all + (o + k))[x] && (last + o)[x] == next[x];
      }
    }
  }

  lemma {:induction false} JointHonest(b: Blocks, os: seq<Origin>, k: nat, other: nat, j: nat, size: nat)
    requires Mergeable(b, k, other, j, size) && |os| == |b|
    requires Honest(os[k], size) && Spelled(os[k]) == b[k].value
    requires Honest(os[other], size) && Spelled(os[other]) == b[other].value
    ensures var o := Joint(os[other], os[k], j);
            Honest(o, size) && Spelled(o) == Merged(b[other].value, b[k].value, j)
  {
  }

  /** The blocks of a merged list are those before. */
  lemma {:induction false} MergeBlocks(b: Blocks, os: seq<Origin>, k: nat, other: nat, j: nat, size: nat)
    returns (next: seq<Origin>)
    requires Mergeable(b, k, other, j, size) && |os| == |b|
    ensures next == (if other < k then os[other := Joint(os[other], os[k], j)]
                     else os[k := Joint(os[other], os[k], j)])
    ensures AllBlocks(Merge(b, k, other, j), next) == AllBlocks(b, os)
  {
    hide AllBlocks;
    var joint := Joint(os[other], os[k], j);
    var s := Some(Merged(b[other].value, b[k].value, j));
    var o, p := BlocksIn(os[other]), BlocksIn(os[k]);
    if other < k {
      next := os[other := joint];
      AllBlocksUpdate(b, os, k, None, os[k]);
      assert os[k := os[k]] == os;
      AllBlocksUpdate(b[k := None], os, other, s, joint);
      assert AllBlocks(b, os) + multiset{} == AllBlocks(b, os);
      SameBlocks(AllBlocks(b, os), AllBlocks(b[k := None], os), AllBlocks(b[k := None][other := s], next), o, p);
    } else {
      next := os[k := joint];
      AllBlocksUpdate(b, os, k, s, joint);
      AllBlocksUpdate(b[k := s], next, other, None, os[other]);
      assert next[other := os[other]] == next;
      assert AllBlocks(b[k := s], next) + multiset{} == AllBlocks(b[k := s], next);
      SameBlocks(AllBlocks(b, os), AllBlocks(b[k := s], next), AllBlocks(b[k := s][other := None], next), o, p);
    }
  }

  /** A merge joins two origins. */
  lemma {:induction false} MergeAccounted(b: Blocks, k: nat, other: nat, j: nat, size: nat, keys: set<string>)
    requires Mergeable(b, k, other, j, size) && Accounted(b, size, keys)
    ensures Accounted(Merge(b, k, other, j), size, keys)
  {
    hide AllBlocks, Honest, Spelled;
    var os :| Traced(b, os, size, keys);
    JointHonest(b, os, k, other, j, size);
    var next := MergeBlocks(b, os, k, other, j, size);
    assert Traced(Merge(b, k, other, j), next, size, keys);
  }

  /** At the start each string is a block. */
  lemma {:induction false} StartBlocks(b: Blocks, os: seq<Origin>, keys: set<string>)
    requires |os| == |b| && forall i :: 0 <= i < |b| ==> Live(b, i) && os[i] == Whole(b[i].value)
    requires forall i, k :: 0 <= i < k < |b| ==> b[i] != b[k]
    requires forall key :: key in keys <==> exists i :: 0 <= i < |b| && b[i] == Some(key)
    ensures AllBlocks(b, os) == multiset(keys)
  {
    if b == [] {
      assert keys == {};
    } else {
      var n := |b| - 1;
      var last := b[n].value;
      assert b[n] == Some(last);
      var rest := keys - {last};
      forall key ensures key in rest <==> exists i :: 0 <= i < n && b[..n][i] == Some(key) {
        if i :| 0 <= i < n && b[..n][i] == Some(key) { assert b[i] == Some(key); }
        if key in rest {
          var i :| 0 <= i < |b| && b[i] == Some(key);
          assert b[..n][i] == Some(key);
        }
      }
      StartBlocks(b[..n], os[..n], rest);
      assert keys == rest + {last};
    }
  }

  lemma {:induction false} StartAccounted(b: Blocks, size: nat, keys: set<string>)
    requires forall i :: 0 <= i < |b| ==> Live(b, i) && |b[i].value| == size && b[i].value in keys
    requires forall i, k :: 0 <= i < k < |b| ==> b[i] != b[k]
    requires forall key :: key in keys ==> exists i :: Live(b, i) && b[i].value == key
    ensures Accounted(b, size, keys)
  {
    var os := seq(|b|, i requires 0 <= i < |b| => Whole(if b[i].Some? then b[i].value else []));
    forall key ensures key in keys <==> exists i :: 0 <= i < |b| && b[i] == Some(key) {
      if key in keys {
        var i :| Live(b, i) && b[i].value == key;
        assert b[i] == Some(key);
      }
    }
    StartBlocks(b, os, keys);
    assert Traced(b, os, size, keys);
  }

  lemma {:induction false} TracedSizes(b: Blocks, os: seq<Origin>, size: nat, keys: set<string>)
    requires Traced(b, os, size, keys)
    ensures |os| == |b|
  {
  }

  // ---- The length of a packing

  function AllSaved(b: Blocks, os: seq<Origin>): nat
    requires |b| == |os|
  {
    if b == [] then 0 else
      var n := |b| - 1;
      AllSaved(b[..n], os[..n]) + if b[n].Some? then Saved(os[n]) else 0
  }

  lemma {:induction false} LengthSaved(b: Blocks, os: seq<Origin>, size: nat)
    requires |os| == |b| && forall i :: Live(b, i) ==> Honest(os[i], size) && Spelled(os[i]) == b[i].value
    ensures TotalLength(b) + AllSaved(b, os) == |AllBlocks(b, os)| * size
  {
    hide Honest, Spelled, Saved, BlocksIn;
    if b != [] {
      var n := |b| - 1;
      LengthSaved(b[..n], os[..n], size);
      if b[n].Some? { SpelledLength(os[n], size); }
      Distributed(|AllBlocks(b[..n], os[..n])|, |Part(b[n], os[n])|, size);
    }
  }

  /** All that is saved on the blocks one after the other is the overlaps. */
  lemma {:induction false} AccountedLength(b: Blocks, os: seq<Origin>, size: nat, keys: set<string>)
    requires Traced(b, os, size, keys)
    ensures TotalLength(b) + AllSaved(b, os) == |keys| * size
  {
    LengthSaved(b, os, size);
    CardinalityOf(keys);
  }

  lemma {:induction false} CardinalityOf(keys: set<string>)
    ensures |multiset(keys)| == |keys|
  {
  }
}
