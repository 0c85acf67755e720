/** The generator of the compressed character table: blocks of the table are collected, packed by
    overlapping them, and found again in the packed string. */
module CodeTable {
  import opened Arithmetic
  import opened Options
  import opened Origins
  import opened Packing

  /** The strings hold all keys and are spelled by them, each used once; they are at least a block long, and
      have no overlap longer than j. */
  ghost predicate Packed(b: Blocks, size: nat, j: nat, keys: set<string>) {
    && LongEnough(b, size) && Covers(b, keys) && Accounted(b, size, keys)
    && forall n :: j < n < size ==> NoOverlap(b, n)
  }

  lemma {:induction false} MergePacked(b: Blocks, k: nat, other: nat, j: nat, size: nat, keys: set<string>)
    requires Mergeable(b, k, other, j, size) && Packed(b, size, j, keys)
    ensures Packed(Merge(b, k, other, j), size, j, keys)
  {
    MergeLongEnough(b, k, other, j, size);
    MergeCovers(b, k, other, j, size, keys);
    MergeAccounted(b, k, other, j, size, keys);
    hide Accounted;
    forall n | j < n < size ensures NoOverlap(Merge(b, k, other, j), n) {
      MergeKeepsNoOverlap(b, k, other, j, size, n);
    }
  }

  lemma {:induction false} FirstOther(l: seq<nat>, k: nat)
    requires NoRepeats(l) && l != []
    ensures l[0] != k ==> Without(l, l[0], l[1..])
    ensures l[0] == k && |l| > 1 ==> l[1] != k && Without(l, l[1], l[2..] + [k])
  {
    if l[0] == k && |l| > 1 {
      var e := l[2..] + [k];
      forall i ensures i in e <==> i in l && i != l[1] {
        if i in l && i != l[1] {
          var n :| 0 <= n < |l| && l[n] == i;
          if n >= 2 { assert e[n - 2] == i; } else { assert e[|e| - 1] == k; }
        }
      }
    }
  }

  /** All that is known while string k looks for strings that end with its head. */
  ghost predicate Merging(b: Blocks, size: nat, j: nat, keys: set<string>, k: nat, tails: map<string, seq<nat>>) {
    && 0 < j < size && Packed(b, size, j, keys) && Listed(tails, TailsOf(b, j)) && Settled(b, k, j)
  }

  lemma {:induction false} MergeStep(b: Blocks, size: nat, j: nat, keys: set<string>, k: nat,
                                     tails: map<string, seq<nat>>, other: nat, entry: seq<nat>)
    requires Merging(b, size, j, keys, k, tails) && Live(b, k) && other != k
    requires var head := Head(b[k].value, j); head in tails && Without(tails[head], other, entry)
    ensures Mergeable(b, k, other, j, size)
    ensures CountLive(Merge(b, k, other, j)) == CountLive(b) - 1
            && TotalLength(Merge(b, k, other, j)) == TotalLength(b) - j
    ensures var c, tail := Merge(b, k, other, j), Tail(b[k].value, j);
            var next := Shortened(tails, Head(b[k].value, j), entry);
            && (other > k ==> Merging(c, size, j, keys, k, next))
            && (other < k ==> && j <= |c[other].value| && Tail(c[other].value, j) == tail && tail in next
                              && Merging(c, size, j, keys, k + 1, next[tail := ReplaceAll(next[tail], k, other)]))
  {
    assert other in TailsOf(b, j);
    var c := Merge(b, k, other, j);
    assert Overlap(b, other, k, j);
    MergePacked(b, k, other, j, size, keys);
    MergeTotals(b, k, other, j, size);
    MergeKeepsSettled(b, k, other, j, size);
    ListedAfterMerge(b, k, other, j, size, tails, entry);
    hide Listed, Packed, Without, TotalLength, CountLive;
    if other < k {
      SettledNext(c, k, j);
    }
  }

  lemma {:induction false} SettledNext(b: Blocks, k: nat, j: nat)
    requires LongEnough(b, j) && Settled(b, k, j) && forall m :: m != k ==> !Overlap(b, m, k, j)
    ensures Settled(b, k + 1, j)
  {
  }

  lemma {:induction false} OverlapsListed(b: Blocks, k: nat, j: nat, tails: map<string, seq<nat>>)
    requires LongEnough(b, j) && Listed(tails, TailsOf(b, j))
    ensures forall m: int :: Overlap(b, m, k, j) ==>
              var head := Head(b[k].value, j); head in tails && m >= 0 && m in tails[head]
  {
    forall m: int | Overlap(b, m, k, j) ensures
      var head := Head(b[k].value, j); head in tails && m >= 0 && m in tails[head] {
      assert m in TailsOf(b, j);
    }
  }

  /** When no other index is listed under the head of string k, string k is settled. */
  lemma {:induction false} MergingEnds(b: Blocks, size: nat, j: nat, keys: set<string>, k: nat,
                                       tails: map<string, seq<nat>>)
    requires Merging(b, size, j, keys, k, tails)
    requires Live(b, k) ==> var head := Head(b[k].value, j); head in tails ==> tails[head] == [k]
    ensures Merging(b, size, j, keys, k + 1, tails)
  {
    OverlapsListed(b, k, j, tails);
    SettledNext(b, k, j);
  }

  lemma {:induction false} MergingFacts(b: Blocks, size: nat, j: nat, keys: set<string>, k: nat,
                                        tails: map<string, seq<nat>>)
    requires Merging(b, size, j, keys, k, tails)
    ensures 0 < j && (Live(b, k) ==> j <= |b[k].value|)
    ensures forall t :: t in tails ==> tails[t] != [] && NoRepeats(tails[t])
  {
  }

  class Packer {
    /** Length of a block. */
    const size: nat
    var blkArray: Blocks
    var tails: map<string, seq<nat>>
    var blockLen: int
    var blkNum: int

    constructor (size: nat)
      ensures this.size == size && blkArray == [] && Counted()
    {
      this.size := size;
      blkArray, tails, blockLen, blkNum := [], map[], 0, 0;
    }

    /** The running length and number are those of the strings left. */
    ghost predicate Counted()
      reads this
    {
      blockLen == TotalLength(blkArray) && blkNum == CountLive(blkArray)
    }

    // ---- One pass

    method RecordTails(j: nat)
      requires LongEnough(blkArray, j)
      modifies this`tails
      ensures Listed(tails, TailsOf(blkArray, j))
    {
      hide Listed, TailsOf, LongEnough;
      tails := map[];
      NothingListed(blkArray, j);
      for k := 0 to |blkArray|
        invariant LongEnough(blkArray[..k], j) && Listed(tails, TailsOf(blkArray[..k], j))
      {
        TailsOfNext(blkArray, k, j);
        if blkArray[k].Some? {
          var str := blkArray[k].value;
          var tail := str[|str| - j..];
          ListedNext(tails, TailsOf(blkArray[..k], j), k, tail);
          if tail !in tails {
            tails := tails[tail := [k]];
          } else {
            tails := tails[tail := tails[tail] + [k]];
          }
        }
      }
      assert blkArray[..|blkArray|] == blkArray;
    }

    /** Takes an index other than k from the list for `head`. */
    method TakeTail(head: string, k: nat) returns (found: bool, other: nat, ghost entry: seq<nat>)
      requires forall t :: t in tails ==> tails[t] != [] && NoRepeats(tails[t])
      modifies this`tails
      ensures !found ==> tails == old(tails) && (head in tails ==> tails[head] == [k])
      ensures found ==> other != k && head in old(tails) && Without(old(tails)[head], other, entry)
      ensures found ==> tails == Shortened(old(tails), head, entry)
    {
      hide Without, NoRepeats;
      other, entry := 0, [];
      if head !in tails {
        return false, other, entry;
      }
      var list := tails[head];
      FirstOther(list, k);
      other, list := list[0], list[1..];
      if other == k {
        list := list + [other];
        if |list| == 1 {
          assert list == tails[head];
          return false, other, entry;
        }
        assert list[1..] == tails[head][2..] + [k];
        other, list := list[0], list[1..];
      }
      tails := if list == [] then tails - {head} else tails[head := list];
      return true, other, list;
    }

    method MergeInto(k: nat, j: nat, ghost keys: set<string>)
      requires k < |blkArray| && Counted() && Merging(blkArray, size, j, keys, k, tails)
      modifies this`blkArray, this`tails, this`blockLen, this`blkNum
      ensures |blkArray| == old(|blkArray|) && Counted() && Merging(blkArray, size, j, keys, k + 1, tails)
    {
      hide Merging, Without, TotalLength, CountLive, NoRepeats;
      if blkArray[k].None? {
        MergingEnds(blkArray, size, j, keys, k, tails);
        return;
      }
      var tomerge := blkArray[k].value;
      while true
        invariant |blkArray| == old(|blkArray|) && Live(blkArray, k) && blkArray[k].value == tomerge
        invariant Counted() && Merging(blkArray, size, j, keys, k, tails)
        decreases blkNum
      {
        MergingFacts(blkArray, size, j, keys, k, tails);
        var head := tomerge[..j];
        ghost var b, before := blkArray, tails;
        var found, other, entry := TakeTail(head, k);
        if !found {
          MergingEnds(b, size, j, keys, k, before);
          return;
        }
        MergeStep(b, size, j, keys, k, before, other, entry);
        var merge := blkArray[other].value + tomerge[j..];
        blockLen, blkNum := blockLen - j, blkNum - 1;
        if other < k {
          blkArray := blkArray[k := None];
          blkArray := blkArray[other := Some(merge)];
          var tail := merge[|merge| - j..];
          tails := tails[tail := ReplaceAll(tails[tail], k, other)];
          return;
        }
        blkArray := blkArray[k := Some(merge)];
        blkArray := blkArray[other := None];
        tomerge := merge;
      }
    }

    method Pass(j: nat, ghost keys: set<string>)
      requires 0 < j < size && Counted() && Packed(blkArray, size, j, keys)
      modifies this`blkArray, this`tails, this`blockLen, this`blkNum
      ensures Counted() && Packed(blkArray, size, j - 1, keys)
    {
      RecordTails(j);
      for k := 0 to |blkArray|
        invariant |blkArray| == old(|blkArray|) && Counted() && Merging(blkArray, size, j, keys, k, tails)
      {
        MergeInto(k, j, keys);
      }
    }

    /** Packs the strings by ever shorter overlaps. At the end no two of them overlap at all. */
    method PackAll(ghost keys: set<string>)
      requires size > 0 && Counted() && LongEnough(blkArray, size) && Covers(blkArray, keys)
      requires Accounted(blkArray, size, keys)
      modifies this`blkArray, this`tails, this`blockLen, this`blkNum
      ensures Counted() && Packed(blkArray, size, 0, keys)
    {
      for j := size downto 1
        invariant Counted() && Packed(blkArray, size, j - 1, keys)
      {
        Pass(j, keys);
      }
    }

    // ---- Before and after

    /** One string for each different block of the table. */
    method CollectBlocks(info: string)
      requires size > 0 && |info| % size == 0 && blkArray == []
      modifies this`blkArray, this`blockLen, this`blkNum
      ensures Counted() && LongEnough(blkArray, size) && Covers(blkArray, BlocksOf(info, size, |info|))
      ensures OneEach(blkArray, BlocksOf(info, size, |info|)) && Accounted(blkArray, size, BlocksOf(info, size, |info|))
    {
      hide BlocksOf, TotalLength, CountLive, Collected, OneEach, Covers, LongEnough, Accounted;
      var blocks: map<string, nat> := map[];
      var j := 0;
      CollectedStart(info, size);
      assert blocks.Keys == {};
      while j < |info|
        invariant j <= |info| && j % size == 0 && Collected(blkArray, blocks.Keys, info, size, j)
      {
        NextMultiple(j, |info|, size);
        var key := info[j..j + size];
        CollectedNext(blkArray, blocks.Keys, info, size, j);
        if key !in blocks {
          blkArray := blkArray + [Some(key)];
          assert blocks[key := |blkArray|].Keys == blocks.Keys + {key};
          blocks := blocks[key := |blkArray|];
        }
        j := j + size;
      }
      blkNum := |blkArray|;
      blockLen := blkNum * size;
      CollectedCover(blkArray, blocks.Keys, info, size);
    }

    /** The strings left, one after the other. */
    method Concatenate() returns (blockStr: string)
      requires Counted()
      ensures blockStr == Joined(blkArray) && |blockStr| == blockLen
    {
      blockStr := [];
      for k := 0 to |blkArray|
        invariant blockStr == Joined(blkArray[..k])
      {
        assert blkArray[..k + 1][..k] == blkArray[..k];
        if blkArray[k].Some? {
          blockStr := blockStr + blkArray[k].value;
        }
      }
      assert blkArray[..|blkArray|] == blkArray;
      JoinedLength(blkArray);
      assert |blockStr| == blockLen;
    }
  }

  lemma {:induction false} NothingListed(b: Blocks, j: nat)
    ensures LongEnough(b[..0], j) && Listed(map[], TailsOf(b[..0], j))
  {
  }

  lemma {:induction false} TailsOfNext(b: Blocks, k: nat, j: nat)
    requires k < |b| && LongEnough(b, j)
    ensures LongEnough(b[..k], j) && LongEnough(b[..k + 1], j) && (b[k].Some? ==> |b[k].value| >= j)
    ensures TailsOf(b[..k + 1], j) == if b[k].Some? then TailsOf(b[..k], j)[k := Tail(b[k].value, j)]
            else TailsOf(b[..k], j)
    ensures k !in TailsOf(b[..k], j)
  {
  }

  lemma {:induction false} ListedNext(tails: map<string, seq<nat>>, own: map<nat, string>, k: nat, tail: string)
    requires Listed(tails, own) && k !in own
    ensures Listed(tails[tail := if tail in tails then tails[tail] + [k] else [k]], own[k := tail])
  {
  }

  // ---- Blocks of the table

  /** The blocks of the table before position n, a multiple of the size. */
  function BlocksOf(info: string, size: nat, n: nat): set<string>
    requires size > 0 && n <= |info|
    decreases n
  {
    if n < size then {} else BlocksOf(info, size, n - size) + {info[n - size..n]}
  }

  lemma {:induction false} NextMultiple(j: nat, n: nat, size: nat)
    requires size > 0 && j % size == 0 && n % size == 0 && j < n
    ensures j + size <= n && (j + size) % size == 0
  {
    DivMod(j, size);
    DivMod(n, size);
    DivUnique(j / size + 1, 0, size);
    if n / size <= j / size {
      if n / size < j / size { MulLess(n / size, j / size, size); }
    } else if j / size + 1 < n / size {
      MulLess(j / size + 1, n / size, size);
    }
  }

  lemma {:induction false} EarlierBlock(q: nat, n: nat, size: nat)
    requires size > 0 && n % size == 0 && q * size + size < n
    ensures 0 <= n - size && (n - size) % size == 0 && q * size + size <= n - size
  {
    DivMod(n, size);
    var p := n / size;
    DivUnique(p - 1, 0, size);
    if p - 1 < q + 1 { SmallerMultiple(q + 1, p, size); } else if q + 1 < p - 1 { MulLess(q + 1, p - 1, size); }
  }

  lemma {:induction false} InBlocksOf(info: string, size: nat, n: nat, q: nat)
    requires size > 0 && n <= |info| && n % size == 0 && q * size + size <= n
    ensures info[q * size..q * size + size] in BlocksOf(info, size, n)
    decreases n
  {
    if q * size + size < n {
      EarlierBlock(q, n, size);
      InBlocksOf(info, size, n - size, q);
    }
  }

  lemma {:induction false} SmallerMultiple(q: nat, p: nat, size: nat)
    requires q * size < p * size
    ensures q < p
  {
    if p < q { MulLess(p, q, size); }
  }

  lemma {:induction false} EqualLengths(b: Blocks, size: nat)
    requires forall i :: 0 <= i < |b| ==> Live(b, i) && |b[i].value| == size
    ensures TotalLength(b) == |b| * size && CountLive(b) == |b| && LongEnough(b, size)
  {
    if b != [] { EqualLengths(b[..|b| - 1], size); }
  }

  /** The strings are those of the set, each once. */
  ghost predicate OneEach(b: Blocks, keys: set<string>) {
    && (forall i :: 0 <= i < |b| ==> Live(b, i) && b[i].value in keys)
    && (forall i, k :: 0 <= i < k < |b| ==> b[i] != b[k])
    && (forall key :: key in keys ==> exists i :: Live(b, i) && b[i].value == key)
  }

  /** The strings are the blocks before position j, and `found` holds the same strings. */
  ghost predicate Collected(b: Blocks, found: set<string>, info: string, size: nat, j: nat)
    requires size > 0 && j <= |info|
  {
    && (forall i :: 0 <= i < |b| ==> Live(b, i) && |b[i].value| == size)
    && OneEach(b, found) && found == BlocksOf(info, size, j)
  }

  lemma {:induction false} CollectedStart(info: string, size: nat)
    requires size > 0
    ensures Collected([], {}, info, size, 0)
  {
  }

  lemma {:induction false} CollectedNext(b: Blocks, found: set<string>, info: string, size: nat, j: nat)
    requires size > 0 && j + size <= |info| && Collected(b, found, info, size, j)
    ensures var key := info[j..j + size];
            && (key in found ==> Collected(b, found, info, size, j + size))
            && (key !in found ==> Collected(b + [Some(key)], found + {key}, info, size, j + size))
  {
    var key := info[j..j + size];
    var c := b + [Some(key)];
    forall x | x in found + {key} ensures exists i :: Live(c, i) && c[i].value == x {
      if x in found {
        var i :| Live(b, i) && b[i].value == x;
        assert c[i] == b[i];
      } else {
        assert c[|b|].value == x;
      }
    }
  }

  lemma {:induction false} CollectedCover(b: Blocks, found: set<string>, info: string, size: nat)
    requires size > 0 && Collected(b, found, info, size, |info|)
    ensures Covers(b, BlocksOf(info, size, |info|)) && OneEach(b, BlocksOf(info, size, |info|))
    ensures Accounted(b, size, BlocksOf(info, size, |info|))
    ensures TotalLength(b) == |b| * size && CountLive(b) == |b| && LongEnough(b, size)
  {
    EqualLengths(b, size);
    StartAccounted(b, size, BlocksOf(info, size, |info|));
    forall key | key in BlocksOf(info, size, |info|) ensures exists i :: Live(b, i) && Contains(b[i].value, key) {
      var i :| Live(b, i) && b[i].value == key;
      assert OccursAt(key, key, 0);
    }
  }

  function Joined(b: Blocks): string {
    if b == [] then [] else
      var last := b[|b| - 1];
      Joined(b[..|b| - 1]) + if last.Some? then last.value else []
  }

  lemma {:induction false} JoinedLength(b: Blocks)
    ensures |Joined(b)| == TotalLength(b)
  {
    if b != [] { JoinedLength(b[..|b| - 1]); }
  }

  lemma {:induction false} JoinedContains(b: Blocks, i: nat, key: string)
    requires Live(b, i) && Contains(b[i].value, key)
    ensures Contains(Joined(b), key)
    decreases |b|
  {
    var n := |b| - 1;
    var front := Joined(b[..n]);
    if i < n {
      JoinedContains(b[..n], i, key);
      var x :| OccursAt(front, key, x);
      assert Joined(b)[x..x + |key|] == front[x..x + |key|];
      assert OccursAt(Joined(b), key, x);
    } else {
      var x :| OccursAt(b[n].value, key, x);
      assert Joined(b)[|front| + x..|front| + x + |key|] == b[n].value[x..x + |key|];
      assert OccursAt(Joined(b), key, |front| + x);
    }
  }

  // ---- The generated table

  /** What is written to the generated source: the packed string, and for each block of 2^shift characters
      the 16-bit distance from the block to its place in the string. */
  datatype Table = Table(shift: nat, codes: string, blocks: seq<nat>)

  const WIDTH := 0x1_0000

  /** The index the look-up expression computes for codepoint c, in 16-bit arithmetic. */
  function Index(t: Table, c: nat): nat
    requires Quotient(c, Pow2(t.shift)) < |t.blocks|
  {
    (t.blocks[Quotient(c, Pow2(t.shift))] + c) % WIDTH
  }

  /** First place of key in s, or -1. */
  function IndexOf(s: string, key: string): (i: int)
    ensures i == -1 || OccursAt(s, key, i)
    ensures i == -1 ==> !Contains(s, key)
  {
    IndexFrom(s, key, 0)
  }

  function IndexFrom(s: string, key: string, from: nat): (i: int)
    ensures i == -1 || (from <= i && OccursAt(s, key, i))
    ensures i == -1 ==> forall n :: from <= n ==> !OccursAt(s, key, n)
    decreases |s| - from
  {
    if from + |key| > |s| then -1
    else if s[from..from + |key|] == key then from
    else IndexFrom(s, key, from + 1)
  }

  /** Where codepoint c really is in the packed string. */
  function Place(info: string, codes: string, size: nat, c: nat): int
    requires size > 0 && c < |info| && |info| % size == 0
  {
    BlockFits(info, size, c);
    IndexOf(codes, info[c - c % size..c - c % size + size]) + c % size
  }

  lemma {:induction false} BlockFits(info: string, size: nat, c: nat)
    requires size > 0 && c < |info| && |info| % size == 0
    ensures c - c % size + size <= |info| && c - c % size == Quotient(c, size) * size
  {
    DivMod(c, size);
    DivMod(|info|, size);
    if |info| / size <= c / size {
      if |info| / size < c / size { MulLess(|info| / size, c / size, size); }
    } else if c / size + 1 < |info| / size {
      MulLess(c / size + 1, |info| / size, size);
    }
  }

  /** The packed string still holds every block. */
  ghost predicate Holds(codes: string, info: string, size: nat)
    requires size > 0
  {
    forall key :: key in BlocksOf(info, size, |info|) ==> Contains(codes, key)
  }

  lemma {:induction false} PlaceHolds(info: string, codes: string, size: nat, c: nat)
    requires size > 0 && c < |info| && |info| % size == 0 && Holds(codes, info, size)
    ensures 0 <= Place(info, codes, size, c) < |codes| && codes[Place(info, codes, size, c)] == info[c]
  {
    BlockFits(info, size, c);
    DivMod(c, size);
    var start := c - c % size;
    var key := info[start..start + size];
    InBlocksOf(info, size, |info|, c / size);
    assert Contains(codes, key);
    var i := IndexOf(codes, key);
    assert codes[i..i + size][c % size] == key[c % size];
  }

  /** The table entries are the wrapped distances. */
  ghost predicate Distances(t: Table, info: string, size: nat)
    requires size > 0
  {
    && |t.blocks| * size == |info|
    && forall n :: 0 <= n < |t.blocks| ==> t.blocks[n] == Distance(t.codes, info, size, n)
  }

  function Distance(codes: string, info: string, size: nat, n: nat): nat {
    if n * size + size <= |info| then (IndexOf(codes, info[n * size..n * size + size]) - n * size) % WIDTH else 0
  }

  /** The 16-bit wrap-around of the distance cancels that of the sum. */
  lemma {:induction false} IndexWraps(t: Table, info: string, c: nat)
    requires var size := Pow2(t.shift);
             |info| % size == 0 && c < |info| && Distances(t, info, size) && Holds(t.codes, info, size)
    ensures Quotient(c, Pow2(t.shift)) < |t.blocks|
    ensures Index(t, c) == Place(info, t.codes, Pow2(t.shift), c) % WIDTH
  {
    hide BlocksOf, Pow2, IndexFrom;
    var size := Pow2(t.shift);
    BlockFits(info, size, c);
    DivMod(c, size);
    var n := Quotient(c, size);
    SmallerMultiple(n, |t.blocks|, size);
    PlaceHolds(info, t.codes, size, c);
    assert t.blocks[n] == Distance(t.codes, info, size, n);
    WrapCancels(IndexOf(t.codes, info[n * size..n * size + size]), n * size, c % size);
  }

  lemma {:induction false} WrapCancels(i: int, start: nat, r: nat)
    ensures ((i - start) % WIDTH + (start + r)) % WIDTH == (i + r) % WIDTH
  {
  }

  /** The look-up finds the right place exactly if that place is below 2^16. */
  lemma {:induction false} IndexExact(t: Table, info: string, c: nat)
    requires var size := Pow2(t.shift);
             |info| % size == 0 && c < |info| && Distances(t, info, size) && Holds(t.codes, info, size)
    ensures Quotient(c, Pow2(t.shift)) < |t.blocks|
    ensures Index(t, c) == Place(info, t.codes, Pow2(t.shift), c) <==> Place(info, t.codes, Pow2(t.shift), c) < WIDTH
  {
    hide Distances, Holds, Index, Place;
    IndexWraps(t, info, c);
    PlaceHolds(info, t.codes, Pow2(t.shift), c);
  }

  /** The compressed table agrees with the plain one. */
  lemma {:induction false} LookupAgrees(t: Table, info: string, c: nat)
    requires var size := Pow2(t.shift);
             |info| % size == 0 && c < |info| && Distances(t, info, size) && Holds(t.codes, info, size)
    requires |t.codes| <= WIDTH
    ensures Quotient(c, Pow2(t.shift)) < |t.blocks| && Index(t, c) < |t.codes| && t.codes[Index(t, c)] == info[c]
  {
    IndexExact(t, info, c);
    PlaceHolds(info, t.codes, Pow2(t.shift), c);
  }

  // ---- The generator

  /** The lengths tried divide the length of the table, 0x110000 for all of Unicode. */
  lemma {:induction false} ShiftDivides(n: nat, shift: nat)
    requires n % 2048 == 0 && 3 <= shift < 12
    ensures n % Pow2(shift) == 0 && Pow2(shift) >= 8
  {
    hide Pow2;
    Pow2Values();
    Pow2Grows(3, shift);
    Pow2Divides(n, shift, 11);
  }

  /** The strings are joined into `codes`, no two of them overlap, and together they hold every block. */
  ghost predicate IsPacking(strings: Blocks, codes: string, info: string, size: nat)
    requires size > 0
  {
    codes == Joined(strings) && Packed(strings, size, 0, BlocksOf(info, size, |info|))
  }

  lemma {:induction false} PackingHolds(strings: Blocks, codes: string, info: string, size: nat)
    requires size > 0 && IsPacking(strings, codes, info, size)
    ensures Holds(codes, info, size)
  {
    forall key | key in BlocksOf(info, size, |info|) ensures Contains(codes, key) {
      var i :| Live(strings, i) && Contains(strings[i].value, key);
      JoinedContains(strings, i, key);
    }
  }

  /** A packing is as long as the different blocks one after the other, less the overlaps of its strings. */
  lemma {:induction false} PackingLength(strings: Blocks, codes: string, info: string, size: nat)
    requires size > 0 && IsPacking(strings, codes, info, size)
    ensures var keys := BlocksOf(info, size, |info|);
            exists os :: Traced(strings, os, size, keys) && |codes| + AllSaved(strings, os) == |keys| * size
  {
    hide Traced;
    var keys := BlocksOf(info, size, |info|);
    var os :| Traced(strings, os, size, keys);
    TracedSizes(strings, os, size, keys);
    AccountedLength(strings, os, size, keys);
    JoinedLength(strings);
  }

  method PackTable(info: string, shift: nat) returns (codes: string, estimate: nat, ghost strings: Blocks)
    requires |info| % 2048 == 0 && 3 <= shift < 12
    ensures IsPacking(strings, codes, info, Pow2(shift))
    ensures estimate == |codes| + Quotient(|info|, Pow2(shift - 1))
  {
    ShiftDivides(|info|, shift);
    var packer := new Packer(Pow2(shift));
    packer.CollectBlocks(info);
    packer.PackAll(BlocksOf(info, Pow2(shift), |info|));
    strings := packer.blkArray;
    codes := packer.Concatenate();
    estimate := packer.blockLen + Quotient(|info|, Pow2(shift - 1));
  }

  method FindDistances(info: string, shift: nat, codes: string) returns (blocks: seq<nat>)
    requires |info| % Pow2(shift) == 0 && Holds(codes, info, Pow2(shift))
    ensures Distances(Table(shift, codes, blocks), info, Pow2(shift))
  {
    hide Pow2, BlocksOf, Holds, IndexFrom, Distance;
    var size := Pow2(shift);
    blocks := [];
    var j := 0;
    while j < |info|
      invariant j <= |info| && j % size == 0 && j == |blocks| * size
      invariant forall n :: 0 <= n < |blocks| ==> blocks[n] == Distance(codes, info, size, n)
    {
      NextMultiple(j, |info|, size);
      DistanceAt(codes, info, size, |blocks|);
      var key := info[j..j + size];
      var index := IndexOf(codes, key);
      assert index != -1;
      blocks := blocks + [(index - j) % WIDTH];
      j := j + size;
    }
  }

  lemma {:induction false} DistanceAt(codes: string, info: string, size: nat, n: nat)
    requires size > 0 && |info| % size == 0 && Holds(codes, info, size) && n * size + size <= |info|
    ensures var j := n * size;
            && IndexOf(codes, info[j..j + size]) != -1 && (n + 1) * size == j + size
            && Distance(codes, info, size, n) == (IndexOf(codes, info[j..j + size]) - j) % WIDTH
  {
    hide Holds, BlocksOf, IndexFrom;
    MulNext(n, size);
    InBlocksOf(info, size, |info|, n);
    HoldsBlock(codes, info, size, info[n * size..n * size + size]);
  }

  lemma {:induction false} HoldsBlock(codes: string, info: string, size: nat, key: string)
    requires size > 0 && Holds(codes, info, size) && key in BlocksOf(info, size, |info|)
    ensures Contains(codes, key)
  {
  }

  /** The best of the estimates so far, if any is below the length of the plain table. */
  predicate Best(estimates: seq<nat>, limit: nat, shift: nat) {
    if shift == 0 then forall n :: 0 <= n < |estimates| ==> limit <= estimates[n] else
      && 3 <= shift < |estimates| + 3 && estimates[shift - 3] < limit
      && (forall n :: 0 <= n < |estimates| ==> estimates[shift - 3] <= estimates[n])
      && (forall n :: 0 <= n < shift - 3 ==> estimates[shift - 3] < estimates[n])
  }

  /** What was packed for one shift. */
  datatype Pack = Pack(strings: Blocks, codes: string)

  /** Estimate n is the size of a table with shift n + 3: the characters of a packing for blocks of that
      size, and two for each block. */
  ghost predicate Estimated(estimates: seq<nat>, packs: seq<Pack>, info: string) {
    && |packs| == |estimates|
    && forall n :: 0 <= n < |packs| ==>
         && IsPacking(packs[n].strings, packs[n].codes, info, Pow2(n + 3))
         && estimates[n] == |packs[n].codes| + Quotient(|info|, Pow2(n + 2))
  }

  lemma {:induction false} EstimatedNext(estimates: seq<nat>, packs: seq<Pack>, info: string, e: nat, p: Pack)
    requires Estimated(estimates, packs, info) && IsPacking(p.strings, p.codes, info, Pow2(|packs| + 3))
    requires e == |p.codes| + Quotient(|info|, Pow2(|packs| + 2))
    ensures Estimated(estimates + [e], packs + [p], info)
  {
    hide IsPacking, Pow2, Quotient;
  }

  /** The generator for any table. It fails if no shift makes the table smaller; otherwise the first best
      shift is used, and with at most 2^16 packed characters each look-up gives the plain table's entry. */
  method Generate(info: string) returns (table: Option<Table>, estimates: seq<nat>, ghost packs: seq<Pack>)
    requires |info| % 2048 == 0
    ensures |estimates| == 9 && Estimated(estimates, packs, info)
    ensures Best(estimates, |info|, if table.Some? then table.value.shift else 0)
    ensures table.Some? ==>
              var t := table.value;
              t.shift >= 3 && t.codes == packs[t.shift - 3].codes && Distances(t, info, Pow2(t.shift))
    ensures table.Some? && |table.value.codes| <= WIDTH ==>
              forall c :: 0 <= c < |info| ==>
                var t := table.value;
                Quotient(c, Pow2(t.shift)) < |t.blocks| && Index(t, c) < |t.codes| && t.codes[Index(t, c)] == info[c]
  {
    hide IsPacking, Distances, Index, Pow2, Quotient;
    var bestShift, bestEst, bestBlkStr := 0, |info|, [];
    estimates, packs := [], [];
    for i := 3 to 12
      invariant |estimates| == i - 3 && Estimated(estimates, packs, info) && Best(estimates, |info|, bestShift)
      invariant bestEst == if bestShift == 0 then |info| else estimates[bestShift - 3]
      invariant bestShift != 0 ==> bestBlkStr == packs[bestShift - 3].codes
    {
      var codes, estimate, strings := PackTable(info, i);
      EstimatedNext(estimates, packs, info, estimate, Pack(strings, codes));
      estimates, packs := estimates + [estimate], packs + [Pack(strings, codes)];
      if estimate < bestEst {
        bestEst, bestShift, bestBlkStr := estimate, i, codes;
      }
    }
    if bestShift == 0 {
      return None, estimates, packs;
    }
    ShiftDivides(|info|, bestShift);
    PackingHolds(packs[bestShift - 3].strings, bestBlkStr, info, Pow2(bestShift));
    var blocks := FindDistances(info, bestShift, bestBlkStr);
    table := Some(Table(bestShift, bestBlkStr, blocks));
    if |bestBlkStr| <= WIDTH {
      forall c | 0 <= c < |info| ensures
        var t := table.value;
        Quotient(c, Pow2(t.shift)) < |t.blocks| && Index(t, c) < |t.codes| && t.codes[Index(t, c)] == info[c] {
        LookupAgrees(table.value, info, c);
      }
    }
  }
}
