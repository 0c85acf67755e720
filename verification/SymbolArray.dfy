/** The segmented array: grows by segments taken from a storage pool and never moves an element. */
module SymbolArray {
  import opened Arithmetic
  import opened Options
  import opened Pool

  /** A segment pointer after subtracting the number of elements before the segment, so that it can be
      indexed by the whole index. */
  datatype Adjusted = Adjusted(segment: nat, start: int)

  const SHORT := 0x1_0000

  /** Element i of the segment that p points to. */
  predicate InMemory(memory: seq<seq<int>>, p: Adjusted, i: int) {
    p.segment < |memory| && 0 <= p.start + i < |memory[p.segment]|
  }

  function At(memory: seq<seq<int>>, p: Adjusted, i: int): int {
    if InMemory(memory, p, i) then memory[p.segment][p.start + i] else 0
  }

  /** The segment with index k, of blk elements from k * blk on, is the region `own[k]` of the pool. */
  ghost predicate Placed(p: Option<Adjusted>, r: Region, k: nat, blk: nat) {
    p == Some(Adjusted(r.segment, r.start - k * blk)) && r.size == blk
  }

  /** Elements of the array, all `count` of them, whether below the top or not. */
  ghost function Elements(memory: seq<seq<int>>, base: seq<Option<Adjusted>>, blk: nat, count: nat): (s: seq<int>)
    requires blk > 0
    ensures |s| == count
  {
    seq(count, i requires 0 <= i => Element(memory, base, blk, i))
  }

  ghost function Element(memory: seq<seq<int>>, base: seq<Option<Adjusted>>, blk: nat, i: nat): int
    requires blk > 0
  {
    var k := Quotient(i, blk);
    if k < |base| && base[k].Some? then At(memory, base[k].value, i) else 0
  }

  /** The first `count` segments are regions of the pool, no two the same. */
  ghost predicate Segments(base: seq<Option<Adjusted>>, given: seq<Region>, own: seq<nat>, blk: nat) {
    && |own| <= |base|
    && (forall k :: 0 <= k < |own| ==> own[k] < |given| && Placed(base[k], given[own[k]], k, blk))
    && (forall k, l :: 0 <= k < l < |own| ==> own[k] != own[l])
  }

  /** Which segment and which cell of it an index falls in. */
  lemma {:induction false} Locate(i: nat, blk: nat, count: nat)
    requires blk > 0 && i < count * blk
    ensures var k := Quotient(i, blk); k < count && k * blk <= i < k * blk + blk
  {
    DivMod(i, blk);
    var k := Quotient(i, blk);
    if count <= k {
      if count < k { MulLess(count, k, blk); }
    }
  }

  /** All regions of the segments lie in memory, and no two regions overlap. */
  ghost predicate Separate(memory: seq<seq<int>>, given: seq<Region>) {
    && (forall r :: r in given ==> r.segment < |memory| && r.start + r.size <= |memory[r.segment]|)
    && (forall i, j :: 0 <= i < j < |given| ==> !Overlap(given[i], given[j]))
  }

  /** Where element i is kept. */
  lemma {:induction false} ElementAt(memory: seq<seq<int>>, base: seq<Option<Adjusted>>, given: seq<Region>,
                                     own: seq<nat>, blk: nat, i: nat)
    requires blk > 0 && Segments(base, given, own, blk) && Separate(memory, given) && i < |own| * blk
    ensures var k := Quotient(i, blk);
            && k < |own| && own[k] < |given| && base[k].Some? && InMemory(memory, base[k].value, i)
            && var r, p := given[own[k]], base[k].value;
            && r.start <= p.start + i < r.start + r.size && r.segment == p.segment
            && Element(memory, base, blk, i) == memory[p.segment][p.start + i]
  {
    Locate(i, blk, |own|);
    var k := Quotient(i, blk);
    assert Placed(base[k], given[own[k]], k, blk);
    assert given[own[k]] in given;
  }

  /** Different elements are kept in different cells. */
  lemma {:induction false} ElementsApart(memory: seq<seq<int>>, base: seq<Option<Adjusted>>, given: seq<Region>,
                                         own: seq<nat>, blk: nat, i: nat, j: nat)
    requires blk > 0 && Segments(base, given, own, blk) && Separate(memory, given)
    requires i < |own| * blk && j < |own| * blk && i != j
    ensures var k, l := Quotient(i, blk), Quotient(j, blk);
            && k < |own| && l < |own| && base[k].Some? && base[l].Some?
            && (base[k].value.segment != base[l].value.segment || base[k].value.start + i != base[l].value.start + j)
  {
    ElementAt(memory, base, given, own, blk, i);
    ElementAt(memory, base, given, own, blk, j);
    var k, l := Quotient(i, blk), Quotient(j, blk);
    if k != l {
      assert own[k] != own[l];
      assert !Overlap(given[own[k]], given[own[l]]) || !Overlap(given[own[l]], given[own[k]]);
    }
  }

  /** Storing to element i changes that element only. */
  lemma {:induction false} Stored(memory: seq<seq<int>>, base: seq<Option<Adjusted>>, given: seq<Region>, own: seq<nat>,
                                  blk: nat, i: nat, v: int)
    requires blk > 0 && Segments(base, given, own, blk) && Separate(memory, given) && i < |own| * blk
    ensures var k := Quotient(i, blk);
            && k < |own| && base[k].Some? && InMemory(memory, base[k].value, i)
            && var p := base[k].value;
            var next := memory[p.segment := memory[p.segment][p.start + i := v]];
            Elements(next, base, blk, |own| * blk) == Elements(memory, base, blk, |own| * blk)[i := v]
  {
    ElementAt(memory, base, given, own, blk, i);
    var k := Quotient(i, blk);
    var p := base[k].value;
    var next := memory[p.segment := memory[p.segment][p.start + i := v]];
    forall j: nat | j < |own| * blk
      ensures Element(next, base, blk, j) == if j == i then v else Element(memory, base, blk, j)
    {
      ElementAt(memory, base, given, own, blk, j);
      if j != i { ElementsApart(memory, base, given, own, blk, i, j); }
    }
  }

  /** Another client of the pool, writing to a region that is not a segment of the array, changes nothing. */
  lemma {:induction false} OtherWrite(memory: seq<seq<int>>, base: seq<Option<Adjusted>>, given: seq<Region>,
                                      own: seq<nat>, blk: nat, n: nat, cell: nat, v: int)
    requires blk > 0 && Segments(base, given, own, blk) && Separate(memory, given)
    requires n < |given| && n !in own && given[n].start <= cell < given[n].start + given[n].size
    requires given[n].segment < |memory| && cell < |memory[given[n].segment]|
    ensures var s := given[n].segment;
            Elements(memory[s := memory[s][cell := v]], base, blk, |own| * blk) ==
            Elements(memory, base, blk, |own| * blk)
  {
    var s := given[n].segment;
    var next := memory[s := memory[s][cell := v]];
    forall j: nat | j < |own| * blk ensures Element(next, base, blk, j) == Element(memory, base, blk, j) {
      ElementAt(memory, base, given, own, blk, j);
      var l := own[Quotient(j, blk)];
      assert l in own;
      assert !Overlap(given[l], given[n]) || !Overlap(given[n], given[l]);
    }
  }

  /** More requests to the pool, by anyone, change no element. */
  lemma {:induction false} MoreGiven(memory: seq<seq<int>>, more: seq<seq<int>>, base: seq<Option<Adjusted>>,
                                     given: seq<Region>, r: Region, own: seq<nat>, blk: nat)
    requires blk > 0 && Segments(base, given, own, blk) && Separate(memory, given)
    requires |memory| <= |more| && more[..|memory|] == memory
    ensures Segments(base, given + [r], own, blk)
    ensures Elements(more, base, blk, |own| * blk) == Elements(memory, base, blk, |own| * blk)
  {
    forall j: nat | j < |own| * blk ensures Element(more, base, blk, j) == Element(memory, base, blk, j) {
      ElementAt(memory, base, given, own, blk, j);
      var s := base[Quotient(j, blk)].value.segment;
      assert more[s] == more[..|memory|][s] == memory[s];
    }
  }

  /** A longer base vector holds the same segments. */
  lemma {:induction false} LongerBase(memory: seq<seq<int>>, base: seq<Option<Adjusted>>, given: seq<Region>,
                                      own: seq<nat>, blk: nat, tail: seq<Option<Adjusted>>)
    requires blk > 0 && Segments(base, given, own, blk) && Separate(memory, given)
    ensures Segments(base + tail, given, own, blk)
    ensures Elements(memory, base + tail, blk, |own| * blk) == Elements(memory, base, blk, |own| * blk)
  {
    forall k | 0 <= k < |own| ensures Placed((base + tail)[k], given[own[k]], k, blk) {
      assert (base + tail)[k] == base[k];
    }
    forall j: nat | j < |own| * blk ensures Element(memory, base + tail, blk, j) == Element(memory, base, blk, j) {
      ElementAt(memory, base, given, own, blk, j);
      assert (base + tail)[Quotient(j, blk)] == base[Quotient(j, blk)];
    }
  }

  /** A new segment appends zeros. */
  lemma {:induction false} NewSegment(memory: seq<seq<int>>, base: seq<Option<Adjusted>>, given: seq<Region>,
                                      own: seq<nat>, blk: nat)
    requires blk > 0 && |own| < |base| && given != [] && Segments(base, given[..|given| - 1], own, blk)
             && Separate(memory, given)
    requires var r := given[|given| - 1];
             r.size == blk && r.segment < |memory| && r.start + blk <= |memory[r.segment]| &&
             forall c :: r.start <= c < r.start + blk ==> memory[r.segment][c] == 0
    ensures var k, n, r := |own|, |given| - 1, given[|given| - 1];
            var next := base[k := Some(Adjusted(r.segment, r.start - k * blk))];
            && Segments(next, given, own + [n], blk)
            && Elements(memory, next, blk, k * blk + blk) == Elements(memory, base, blk, k * blk) + Zeros(blk)
  {
    var k, n, r := |own|, |given| - 1, given[|given| - 1];
    var next, all := base[k := Some(Adjusted(r.segment, r.start - k * blk))], own + [n];
    forall l | 0 <= l < |all| ensures all[l] < |given| && Placed(next[l], given[all[l]], l, blk) {
      if l < k { assert given[..n][own[l]] == given[own[l]]; }
    }
    MulNext(k, blk);
    forall j: nat | j < k * blk + blk ensures
      Element(memory, next, blk, j) == if j < k * blk then Element(memory, base, blk, j) else 0 {
      ElementAt(memory, next, given, all, blk, j);
      if j < k * blk {
        Locate(j, blk, k);
      } else {
        DivUnique(k, j - k * blk, blk);
        assert Quotient(j, blk) == k;
      }
    }
  }

  // ---- Choosing the segment size

  /** The smallest exponent from 1 on whose power reaches the estimate, at most 31. */
  ghost predicate Reaches(log: nat, estimate: nat) {
    1 <= log <= 31 && (log > 1 ==> Pow2(log - 1) < estimate) && (log == 31 || estimate <= Pow2(log))
  }

  /** The number of elements that 1 << log stands for; the shift is on int, so 1 << 31 is negative and
      becomes huge as a size. */
  function Shifted(log: nat): nat {
    if log == 31 then 0x1_0000_0000_0000_0000 - 0x8000_0000 else Pow2(log)
  }

  /** The growth of the base vector, kept in 16 bits. */
  function Increment(log: nat, poolBlk: nat): nat
    requires poolBlk > 0
  {
    (if Shifted(log) > poolBlk then Quotient(Shifted(log), poolBlk) * 2 else 2) % SHORT
  }

  lemma {:induction false} PowerIncrement(log: nat, p: nat)
    requires p < log < 31
    ensures Increment(log, Pow2(p)) == Pow2(log - p + 1) % SHORT
  {
    assert Pow2(p + 1) == 2 * Pow2(p) && Pow2(log - p + 1) == 2 * Pow2(log - p);
    Pow2Grows(p + 1, log);
    Pow2Sum(log - p, p);
    assert log - p + p == log;
    hide Pow2, Quotient;
    QuotientOf(Pow2(log), Pow2(log - p), Pow2(p));
  }

  lemma {:induction false} ShortPower(e: nat)
    ensures Pow2(e) % SHORT == 0 <==> e >= 16
  {
    Pow2Values();
    assert Pow2(15) == 0x8000 && Pow2(16) == SHORT by { Pow2Sum(8, 7); Pow2Sum(8, 8); assert Pow2(7) == 128; }
    if e >= 16 {
      Pow2Sum(16, e - 16);
      DivUnique(Pow2(e - 16), 0, SHORT);
    } else {
      Pow2Grows(e, 15);
    }
  }

  lemma {:induction false} HugeIncrement(p: nat)
    requires p == 8 || p == 10 || p == 12
    ensures Increment(31, Pow2(p)) == 0
  {
    Pow2Values();
  }

  /** The 16-bit growth is zero, so that the first element has nowhere to go, exactly if the estimate is
      more than 2^14 pool segments. */
  lemma {:induction false} IncrementPositive(log: nat, estimate: nat, p: nat)
    requires Reaches(log, estimate) && (p == 8 || p == 10 || p == 12)
    ensures Increment(log, Pow2(p)) > 0 <==> estimate <= Pow2(p + 14)
  {
    hide Pow2;
    if log == 31 {
      HugeIncrement(p);
      Pow2Grows(p + 14, 30);
    } else if log <= p {
      Pow2Grows(log, p);
      Pow2Grows(log, p + 14);
    } else {
      PowerIncrement(log, p);
      ShortPower(log - p + 1);
      if log <= p + 14 { Pow2Grows(log, p + 14); } else { Pow2Grows(p + 14, log - 1); }
    }
  }

  class VariableSymbolArray {
    const pool: StoragePool
    var base: seq<Option<Adjusted>>
    var top: nat
    var size: nat
    const logBlksize: nat
    const baseIncrement: nat

    /** Which of the pool's regions the segments are. */
    ghost var own: seq<nat>

    function Blksize(): nat {
      Pow2(logBlksize)
    }

    ghost predicate Valid()
      reads this, pool
    {
      && pool.Valid() && Blksize() < pool.Blksize() && size == |own| * Blksize() && top <= size
      && Segments(base, pool.given, own, Blksize())
    }

    /** Every element there is room for. */
    ghost function All(): (s: seq<int>)
      reads this, pool
      ensures |s| == size
    {
      Elements(pool.memory, base, Blksize(), size)
    }

    /** The array as its users see it. */
    ghost function Contents(): seq<int>
      reads this, pool
      requires top <= size
    {
      All()[..top]
    }

    lemma {:induction false} Separated()
      requires Valid()
      ensures Separate(pool.memory, pool.given)
    {
    }

    constructor (pool: StoragePool, estimate: nat)
      requires pool.Valid() && estimate < 0x1_0000_0000
      ensures this.pool == pool && Valid() && Contents() == [] && base == [] && fresh(this)
      ensures exists log :: (if estimate == 0 then log == 6 else Reaches(log, estimate)) &&
                baseIncrement == Increment(log, pool.Blksize()) && 1 <= logBlksize <= log
    {
      hide Increment, Elements;
      var log := 6;
      if estimate != 0 {
        log := 1;
        while Pow2(log) < estimate && log < 31
          invariant 1 <= log <= 31 && (log > 1 ==> Pow2(log - 1) < estimate)
          decreases 31 - log
        {
          log := log + 1;
        }
      }
      var chosen := log;
      while Shifted(log) >= pool.Blksize()
        invariant 1 <= log <= chosen
        decreases log
      {
        if log == 1 { Pow2Values(); }
        log := log - 1;
      }
      this.pool := pool;
      logBlksize := log;
      baseIncrement := Increment(chosen, pool.Blksize());
      base, top, size, own := [], 0, 0, [];
    }

    /** The base vector has a slot left or may grow within a segment of the pool. */
    predicate CanGrow()
      reads this
    {
      Quotient(size, Blksize()) < |base| || (baseIncrement > 0 && |base| + baseIncrement <= pool.Blksize())
    }

    method GrowBase()
      requires Valid() && baseIncrement > 0 && |base| + baseIncrement <= pool.Blksize()
      modifies this`base, pool
      ensures Valid() && All() == old(All())
      ensures |base| == |old(base)| + baseIncrement
      ensures |old(pool.given)| <= |pool.given| && pool.given[..|old(pool.given)|] == old(pool.given)
    {
      Separated();
      ghost var memory, given := pool.memory, pool.given;
      var region := pool.AllocSmall(CELL * (|base| + baseIncrement));
      MoreGiven(memory, pool.memory, base, given, region, own, Blksize());
      Separated();
      ghost var before := base;
      base := base + seq(baseIncrement, i => None);
      LongerBase(pool.memory, before, pool.given, own, Blksize(), seq(baseIncrement, i => None));
    }

    /** Another segment; no element moves. */
    method AllocateMoreSpace()
      requires Valid() && top <= size && CanGrow()
      modifies this`base, this`size, this`own, pool
      ensures Valid() && size == old(size) + Blksize() && All() == old(All()) + Zeros(Blksize())
      ensures |base| == |old(base)| + if |old(own)| == |old(base)| then baseIncrement else 0
    {
      DivUnique(|own|, 0, Blksize());
      var k := Quotient(size, Blksize());
      if k == |base| {
        GrowBase();
      }
      AddSegment(k);
    }

    method AddSegment(k: nat)
      requires Valid() && k == |own| < |base|
      modifies this`base, this`size, this`own, pool
      ensures Valid() && size == old(size) + Blksize() && All() == old(All()) + Zeros(Blksize())
      ensures |base| == |old(base)|
    {
      hide Segments, Elements, Separate;
      Separated();
      ghost var memory, given := pool.memory, pool.given;
      var region := pool.AllocSmall(CELL * Blksize());
      MoreGiven(memory, pool.memory, base, given, region, own, Blksize());
      Separated();
      NewSegment(pool.memory, base, pool.given, own, Blksize());
      MulNext(k, Blksize());
      base := base[k := Some(Adjusted(region.segment, region.start - size))];
      own := own + [|given|];
      size := size + Blksize();
    }

    // ---- The operations

    /** Adds an element, with whatever value its place holds. */
    method NextIndex() returns (i: nat)
      requires Valid() && (top == size ==> CanGrow())
      modifies this`base, this`size, this`own, this`top, pool
      ensures Valid() && i == old(top) && top == i + 1
      ensures All() == old(All()) + (if old(top) == old(size) then Zeros(Blksize()) else [])
    {
      i := top;
      if i == size {
        AllocateMoreSpace();
      }
      top := top + 1;
    }

    /** Reads element i through the adjusted pointer of its segment. */
    method Get(i: nat) returns (v: int)
      requires Valid() && i < size
      ensures v == All()[i]
    {
      Separated();
      ElementAt(pool.memory, base, pool.given, own, Blksize(), i);
      var p := base[Quotient(i, Blksize())].value;
      v := pool.memory[p.segment][p.start + i];
    }

    /** Stores to element i through the adjusted pointer of its segment. */
    method Set(i: nat, v: int)
      requires Valid() && i < size
      modifies pool
      ensures Valid() && All() == old(All())[i := v]
    {
      Separated();
      ElementAt(pool.memory, base, pool.given, own, Blksize(), i);
      Stored(pool.memory, base, pool.given, own, Blksize(), i, v);
      hide Segments, Elements, Separate;
      var p := base[Quotient(i, Blksize())].value;
      pool.Write(own[Quotient(i, Blksize())], p.segment, p.start + i, v);
    }

    /** Next() = v appends v. */
    method Next(v: int)
      requires Valid() && (top == size ==> CanGrow())
      modifies this`base, this`size, this`own, this`top, pool
      ensures Valid() && Contents() == old(Contents()) + [v]
      ensures size >= old(size) && forall i :: old(top) < i < old(size) ==> All()[i] == old(All())[i]
    {
      ghost var all := All();
      var i := NextIndex();
      Set(i, v);
      assert All()[..i] == all[..i];
    }

    /** Shortens the array, or lengthens it again to elements it still has room for; nothing is erased. */
    method Reset(n: nat)
      requires Valid() && n <= size
      modifies this`top
      ensures Valid() && All() == old(All()) && Contents() == All()[..n]
      ensures n <= old(top) ==> Contents() == old(Contents())[..n]
    {
      top := n;
    }
  }
}
