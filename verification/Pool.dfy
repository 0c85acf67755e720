/** The storage pool: objects are carved out of segments that are freed together. Memory is a list of
    segments, and a pointer is a segment number and a cell in it. */
module Pool {
  import opened Arithmetic
  import opened Options

  /** Size of a cell in bytes, and the most bytes whose count of cells fits 32 bits. */
  const CELL := 8
  const MAX_REQUEST := 8 * 0xFFFF_FFFF

  function Chunks(n: nat): nat {
    (n + CELL - 1) / CELL
  }

  /** What an allocation hands out. */
  datatype Region = Region(segment: nat, start: nat, size: nat)

  /** Segment size and growth of the base vector, fixed by the constructor. */
  datatype Sizes = Sizes(blk: nat, increment: nat)

  /** `memory` has the contents of every segment ever allocated, `freed` the segments deleted, as often as
      they were. `base` is the vector of segments; those up to baseIndex are in use, and `offset` is the next
      free cell of the last one. */
  datatype State = State(memory: seq<seq<int>>, freed: multiset<nat>, base: seq<Option<nat>>, baseIndex: nat,
                         offset: nat)

  predicate Fits(z: Sizes) {
    z.blk >= 1 && z.increment >= 1
  }

  const EMPTY := State([], multiset{}, [], 0, 0)

  function Zeros(n: nat): (s: seq<int>)
    ensures |s| == n && forall i :: 0 <= i < n ==> s[i] == 0
  {
    seq(n, i => 0)
  }

  function Nones(n: nat): (s: seq<Option<nat>>)
    ensures |s| == n && forall i :: 0 <= i < n ==> s[i] == None
  {
    seq(n, i => None)
  }

  // ---- What the operations do to the state

  /** The base vector, long enough for slot `index`. */
  function Grown(base: seq<Option<nat>>, index: nat, increment: nat): seq<Option<nat>> {
    if index == |base| then base + Nones(increment) else base
  }

  /** A new segment for the next slot; a normal one (`large` is 0) only if the slot is empty. */
  function MoreSpace(st: State, large: nat, z: Sizes): State {
    var index := if st.offset != 0 then st.baseIndex + 1 else st.baseIndex;
    var base := Grown(st.base, index, z.increment);
    if index >= |base| then st
    else if large != 0 then
      State(st.memory + [Zeros(large)], if base[index].Some? then st.freed + multiset{base[index].value} else st.freed,
            base[index := Some(|st.memory|)], index, st.offset)
    else if base[index].None? then
      State(st.memory + [Zeros(z.blk)], st.freed, base[index := Some(|st.memory|)], index, st.offset)
    else
      st.(base := base, baseIndex := index)
  }

  function Segment(st: State, slot: nat): nat {
    if slot < |st.base| && st.base[slot].Some? then st.base[slot].value else 0
  }

  /** The state after a request for `chunk` cells, and the region handed out. */
  function Allocate(st: State, chunk: nat, z: Sizes): (State, Region) {
    if chunk > z.blk then
      var more := MoreSpace(st, chunk, z);
      var i := more.baseIndex;
      var result := Region(Segment(more, i), 0, chunk);
      if 0 < i < |more.base| then
        (more.(base := more.base[i := more.base[i - 1]][i - 1 := more.base[i]]), result)
      else
        (more, result)
    else
      var here := if st.base == [] || st.offset + chunk > z.blk then MoreSpace(st, 0, z).(offset := 0) else st;
      (here.(offset := here.offset + chunk), Region(Segment(here, here.baseIndex), here.offset, chunk))
  }

  // ---- Runs: requests, and clients writing to what they were given

  datatype Op = Request(bytes: nat) | Write(region: nat, cell: nat, value: int)

  datatype Execution = Execution(st: State, regions: seq<Region>)

  function Step(ex: Execution, op: Op, z: Sizes): Execution {
    match op
    case Request(n) =>
      var (st, r) := Allocate(ex.st, Chunks(n), z);
      Execution(st, ex.regions + [r])
    case Write(r, c, v) =>
      if r < |ex.regions| && c < ex.regions[r].size && ex.regions[r].segment < |ex.st.memory| &&
         ex.regions[r].start + c < |ex.st.memory[ex.regions[r].segment]| then
        var s, cell := ex.regions[r].segment, ex.regions[r].start + c;
        ex.(st := ex.st.(memory := ex.st.memory[s := ex.st.memory[s][cell := v]]))
      else ex
  }

  function Run(ops: seq<Op>, z: Sizes): Execution {
    if ops == [] then Execution(EMPTY, []) else Step(Run(ops[..|ops| - 1], z), ops[|ops| - 1], z)
  }

  predicate Overlap(a: Region, b: Region) {
    a.segment == b.segment && a.start < b.start + b.size && b.start < a.start + a.size
  }

  /** All regions handed out lie in segments not freed and are pairwise disjoint. */
  ghost predicate Sound(ex: Execution) {
    && (forall r :: r in ex.regions ==> && r.segment < |ex.st.memory| && r.start + r.size <= |ex.st.memory[r.segment]|
                                        && r.segment !in ex.st.freed)
    && (forall i, j :: 0 <= i < j < |ex.regions| ==> !Overlap(ex.regions[i], ex.regions[j]))
  }

  predicate Zero(st: State, r: Region) {
    && r.segment < |st.memory| && r.start + r.size <= |st.memory[r.segment]|
    && forall c :: r.start <= c < r.start + r.size ==> st.memory[r.segment][c] == 0
  }

  /** Requests are for at least one byte. */
  predicate WellFormed(ops: seq<Op>) {
    forall i :: 0 <= i < |ops| ==> ops[i].Request? ==> 1 <= ops[i].bytes <= MAX_REQUEST
  }

  /** At every point of the run the regions are sound, and each is what was asked for, rounded up to cells, and
      zero when it is handed out. */
  ghost predicate Good(ops: seq<Op>, z: Sizes) {
    forall k :: 0 <= k <= |ops| ==> GoodAt(ops, k, z)
  }

  ghost predicate GoodAt(ops: seq<Op>, k: nat, z: Sizes)
    requires k <= |ops|
  {
    var ex := Run(ops[..k], z);
    && Sound(ex)
    && (k > 0 && ops[k - 1].Request? ==>
          && ex.regions != [] && var r := ex.regions[|ex.regions| - 1];
          ops[k - 1].bytes <= r.size * CELL < ops[k - 1].bytes + CELL && Zero(ex.st, r))
  }

  // ---- The invariant once a normal segment is open

  function Current(st: State): nat {
    Segment(st, st.baseIndex)
  }

  /** Every segment ever allocated is in use in exactly one slot, and none has been freed. */
  ghost predicate Slots(st: State) {
    && st.baseIndex < |st.base| && |st.memory| == st.baseIndex + 1 && st.freed == multiset{}
    && (forall i :: 0 <= i <= st.baseIndex ==> st.base[i].Some? && st.base[i].value < |st.memory|)
    && (forall i, j :: 0 <= i < j <= st.baseIndex ==> st.base[i] != st.base[j])
    && (forall i :: st.baseIndex < i < |st.base| ==> st.base[i].None?)
  }

  /** The rest of the current segment has not been touched. */
  ghost predicate FreePart(st: State, z: Sizes) {
    && 0 < st.offset <= z.blk && Current(st) < |st.memory| && |st.memory[Current(st)]| == z.blk
    && forall c :: st.offset <= c < z.blk ==> st.memory[Current(st)][c] == 0
  }

  /** The regions keep off each other and off the rest of the current segment. */
  ghost predicate Regions(st: State, regions: seq<Region>) {
    && (forall r :: r in regions ==>
          && r.segment < |st.memory| && r.start + r.size <= |st.memory[r.segment]|
          && (r.segment == Current(st) ==> r.start + r.size <= st.offset))
    && (forall i, j :: 0 <= i < j < |regions| ==> !Overlap(regions[i], regions[j]))
  }

  ghost predicate Normal(ex: Execution, z: Sizes) {
    Slots(ex.st) && FreePart(ex.st, z) && Regions(ex.st, ex.regions)
  }

  /** A request that fits the current segment. */
  lemma {:induction false} AllocHere(ex: Execution, chunk: nat, z: Sizes)
    requires Fits(z) && Normal(ex, z) && 1 <= chunk && ex.st.offset + chunk <= z.blk
    ensures var (st, r) := Allocate(ex.st, chunk, z);
            Normal(Execution(st, ex.regions + [r]), z) && Zero(st, r) && r.size == chunk
  {
  }

  /** A request for which a normal segment is opened. */
  lemma {:induction false} AllocNext(ex: Execution, chunk: nat, z: Sizes)
    requires Fits(z) && Normal(ex, z) && 1 <= chunk <= z.blk && ex.st.offset + chunk > z.blk
    ensures var (st, r) := Allocate(ex.st, chunk, z);
            Normal(Execution(st, ex.regions + [r]), z) && Zero(st, r) && r.size == chunk
  {
  }

  lemma {:induction false} LargeState(st: State, chunk: nat, z: Sizes)
    requires Fits(z) && Slots(st) && st.offset > 0 && z.blk < chunk
    ensures var i := st.baseIndex;
            var base := Grown(st.base, i + 1, z.increment)[i := Some(|st.memory|)][i + 1 := st.base[i]];
            Allocate(st, chunk, z) ==
            (State(st.memory + [Zeros(chunk)], st.freed, base, i + 1, st.offset), Region(|st.memory|, 0, chunk))
  {
    var i, n: Option<nat> := st.baseIndex, Some(|st.memory|);
    var g: seq<Option<nat>> := Grown(st.base, i + 1, z.increment);
    assert g[i + 1 := n][i + 1 := g[i]][i := n] == g[i := n][i + 1 := st.base[i]];
  }

  /** A request larger than a segment: its segment goes before the current one, which stays current. */
  lemma {:induction false} AllocLarge(ex: Execution, chunk: nat, z: Sizes)
    requires Fits(z) && Normal(ex, z) && z.blk < chunk
    ensures var (st, r) := Allocate(ex.st, chunk, z);
            Normal(Execution(st, ex.regions + [r]), z) && Zero(st, r) && r.size == chunk
  {
    hide Allocate;
    LargeState(ex.st, chunk, z);
  }

  lemma {:induction false} AllocFirst(chunk: nat, z: Sizes)
    requires Fits(z) && 1 <= chunk <= z.blk
    ensures var (st, r) := Allocate(EMPTY, chunk, z);
            Normal(Execution(st, [r]), z) && Zero(st, r) && r.size == chunk
  {
  }

  /** Clients write only inside their regions, so the rest of the current segment stays zero. */
  lemma {:induction false} WriteNormal(ex: Execution, op: Op, z: Sizes)
    requires op.Write? && Normal(ex, z)
    ensures Normal(Step(ex, op, z), z) && Step(ex, op, z).regions == ex.regions
  {
    if op.region < |ex.regions| {
      assert ex.regions[op.region] in ex.regions;
    }
  }

  lemma {:induction false} RequestNormal(ex: Execution, op: Op, z: Sizes)
    requires Fits(z) && op.Request? && 1 <= Chunks(op.bytes) && Normal(ex, z)
    ensures var next := Step(ex, op, z);
            && Normal(next, z) && |next.regions| == |ex.regions| + 1
            && var r := next.regions[|ex.regions|]; Zero(next.st, r) && r.size == Chunks(op.bytes)
  {
    hide Normal, Zero, Allocate, Chunks;
    var chunk := Chunks(op.bytes);
    if chunk > z.blk {
      AllocLarge(ex, chunk, z);
    } else if ex.st.offset + chunk > z.blk {
      AllocNext(ex, chunk, z);
    } else {
      AllocHere(ex, chunk, z);
    }
  }

  // ---- A first request larger than a segment

  /** Only a large segment so far: the offset is still 0, as if nothing had been allocated. */
  ghost predicate Single(ex: Execution) {
    && ex.st.offset == 0 && ex.st.baseIndex == 0 && |ex.st.base| >= 1 && ex.st.base[0] == Some(0)
    && ex.st.freed == multiset{} && |ex.st.memory| == 1
    && |ex.regions| == 1 && ex.regions[0] == Region(0, 0, |ex.st.memory[0]|) && |ex.st.memory[0]| >= 1
  }

  lemma {:induction false} FirstLarge(chunk: nat, z: Sizes)
    requires Fits(z) && z.blk < chunk
    ensures var (st, r) := Allocate(EMPTY, chunk, z); Single(Execution(st, [r])) && Zero(st, r) && r.size == chunk
  {
  }

  lemma {:induction false} WriteSingle(ex: Execution, op: Op, z: Sizes)
    requires op.Write? && Single(ex)
    ensures Single(Step(ex, op, z))
  {
  }

  /** The next request is given the same memory again, or its segment replaces the first one, which is
      deleted. */
  lemma {:induction false} SecondUnsound(ex: Execution, op: Op, z: Sizes)
    requires Fits(z) && Single(ex) && op.Request? && Chunks(op.bytes) >= 1
    ensures !Sound(Step(ex, op, z))
  {
    var next := Step(ex, op, z);
    if Chunks(op.bytes) <= z.blk {
      assert Overlap(next.regions[0], next.regions[1]);
    } else {
      assert 0 in next.st.freed;
      assert next.regions[0] in next.regions;
    }
  }

  // ---- All runs

  /** The requests of a run, in cells. */
  function Requests(ops: seq<Op>): seq<nat> {
    if ops == [] then [] else
      var op := ops[|ops| - 1];
      Requests(ops[..|ops| - 1]) + if op.Request? then [Chunks(op.bytes)] else []
  }

  /** The first request needs more than a segment, and it is not the only one. */
  predicate StartsLarge(requests: seq<nat>, z: Sizes) {
    |requests| >= 2 && requests[0] > z.blk
  }

  ghost predicate Invariant(ex: Execution, requests: seq<nat>, z: Sizes) {
    if requests == [] then ex == Execution(EMPTY, [])
    else if requests[0] <= z.blk then Normal(ex, z)
    else Single(ex)
  }

  lemma {:induction false} ChunksEnough(n: nat)
    requires n >= 1
    ensures Chunks(n) >= 1 && n <= Chunks(n) * CELL < n + CELL
  {
  }

  lemma {:induction false} RunInvariant(ops: seq<Op>, z: Sizes)
    requires Fits(z) && WellFormed(ops) && !StartsLarge(Requests(ops), z)
    ensures Invariant(Run(ops, z), Requests(ops), z) && GoodAt(ops, |ops|, z)
  {
    assert ops[..|ops|] == ops;
    if ops != [] {
      var n := |ops| - 1;
      var before, op := ops[..n], ops[n];
      RunInvariant(before, z);
      StepInvariant(Run(before, z), Requests(before), op, z);
    }
  }

  lemma {:induction false} StepInvariant(ex: Execution, requests: seq<nat>, op: Op, z: Sizes)
    requires Fits(z) && Invariant(ex, requests, z) && (op.Request? ==> op.bytes >= 1)
    requires !StartsLarge(requests + if op.Request? then [Chunks(op.bytes)] else [], z)
    ensures var next := Step(ex, op, z);
            && Invariant(next, requests + (if op.Request? then [Chunks(op.bytes)] else []), z) && Sound(next)
            && (op.Request? ==> && next.regions != [] && var r := next.regions[|next.regions| - 1];
                                op.bytes <= r.size * CELL < op.bytes + CELL && Zero(next.st, r))
  {
    var next := Step(ex, op, z);
    match op
    case Request(n) =>
      ChunksEnough(n);
      if requests == [] {
        if Chunks(n) <= z.blk { AllocFirst(Chunks(n), z); } else { FirstLarge(Chunks(n), z); }
      } else {
        RequestNormal(ex, op, z);
      }
    case Write(_, _, _) =>
      assert requests + [] == requests;
      if requests != [] {
        if requests[0] <= z.blk { WriteNormal(ex, op, z); } else { WriteSingle(ex, op, z); }
      }
  }

  lemma {:induction false} BadRun(ops: seq<Op>, z: Sizes) returns (k: nat)
    requires Fits(z) && WellFormed(ops) && StartsLarge(Requests(ops), z)
    ensures k <= |ops| && !Sound(Run(ops[..k], z))
  {
    var n := |ops| - 1;
    var before, op := ops[..n], ops[n];
    if StartsLarge(Requests(before), z) {
      k := BadRun(before, z);
      assert before[..k] == ops[..k];
    } else {
      RunInvariant(before, z);
      ChunksEnough(op.bytes);
      SecondUnsound(Run(before, z), op, z);
      k := n + 1;
      assert ops[..k] == ops;
    }
  }

  lemma {:induction false} RequestsPrefix(ops: seq<Op>, k: nat)
    requires k <= |ops|
    ensures Requests(ops[..k]) <= Requests(ops)
    decreases |ops|
  {
    if k < |ops| {
      var n := |ops| - 1;
      assert ops[..n][..k] == ops[..k];
      RequestsPrefix(ops[..n], k);
    } else {
      assert ops[..k] == ops;
    }
  }

  /** The pool keeps its promises over a whole run, whatever the clients write into their regions, exactly
      if its first request fits a normal segment or is the only one. */
  lemma {:induction false} PoolSafety(ops: seq<Op>, z: Sizes)
    requires Fits(z) && WellFormed(ops)
    ensures Good(ops, z) <==> !StartsLarge(Requests(ops), z)
  {
    if StartsLarge(Requests(ops), z) {
      var k := BadRun(ops, z);
      assert !GoodAt(ops, k, z);
    } else {
      forall k | 0 <= k <= |ops| ensures GoodAt(ops, k, z) {
        RequestsPrefix(ops, k);
        RunInvariant(ops[..k], z);
        assert ops[..k][..k] == ops[..k];
      }
    }
  }

  /** The bounds every state of a pool keeps, also after a large first request. */
  predicate Bounded(st: State) {
    if st.base == [] then st.baseIndex == 0 && st.offset == 0
    else st.baseIndex < |st.base| && forall i :: 0 <= i <= st.baseIndex ==> st.base[i].Some?
  }

  lemma {:induction false} BoundedIndex(st: State)
    requires Bounded(st)
    ensures if st.base == [] then st.baseIndex == 0 && st.offset == 0 else st.baseIndex < |st.base|
  {
  }

  // ---- Freeing

  /** The segments in the first k slots. */
  function Deleted(base: seq<Option<nat>>, k: nat): multiset<nat>
    requires k <= |base|
  {
    if k == 0 then multiset{} else
      Deleted(base, k - 1) + if base[k - 1].Some? then multiset{base[k - 1].value} else multiset{}
  }

  lemma {:induction false} Associative(a: multiset<nat>, b: multiset<nat>, c: multiset<nat>)
    ensures a + b + c == a + (b + c)
  {
  }

  function Below(n: nat): (s: set<nat>)
    ensures |s| == n && forall i: nat :: i in s <==> i < n
  {
    if n == 0 then {} else Below(n - 1) + {n - 1}
  }

  lemma {:induction false} DeletedDistinct(base: seq<Option<nat>>, k: nat) returns (found: set<nat>)
    requires k <= |base| && forall i :: 0 <= i < k ==> base[i].Some?
    requires forall i, j :: 0 <= i < j < k ==> base[i] != base[j]
    ensures |found| == k && (forall s :: s in found <==> exists i :: 0 <= i < k && base[i].value == s)
    ensures Deleted(base, k) == multiset(found)
  {
    if k == 0 {
      found := {};
    } else {
      found := DeletedDistinct(base, k - 1);
      var last := base[k - 1].value;
      assert last !in found;
      WithOne(found, last);
      found := found + {last};
    }
  }

  lemma {:induction false} WithOne(found: set<nat>, last: nat)
    requires last !in found
    ensures multiset(found + {last}) == multiset(found) + multiset{last}
  {
  }

  /** Deleting what is in the used slots frees every segment exactly once. */
  lemma {:induction false} EachFreedOnce(st: State)
    ensures Slots(st) ==>
              st.freed == multiset{} && st.base != []
              && Deleted(st.base, st.baseIndex + 1) == multiset(Below(|st.memory|))
  {
    if Slots(st) {
      var found := DeletedDistinct(st.base, st.baseIndex + 1);
      SubsetOfSameSize(found, Below(|st.memory|));
    }
  }

  lemma {:induction false} AllFreed(st: State, freed: multiset<nat>)
    requires Bounded(st)
    requires freed == st.freed + (if st.base == [] then multiset{} else Deleted(st.base, st.baseIndex + 1))
    ensures Slots(st) ==> freed == multiset(Below(|st.memory|))
  {
    hide Slots, Deleted, Below;
    EachFreedOnce(st);
  }

  lemma {:induction false} SubsetOfSameSize(a: set<nat>, b: set<nat>)
    requires a <= b && |a| == |b|
    ensures a == b
  {
    var d := b - a;
    assert b == a + d;
    assert |b| == |a| + |d|;
  }

  /** The current slot is in use after every growth. */
  lemma {:induction false} MoreSpaceBounded(st: State, large: nat, z: Sizes)
    requires Fits(z) && Bounded(st)
    ensures var more := MoreSpace(st, large, z);
            more.base != [] && Bounded(more.(offset := 1)) && more.offset == st.offset
  {
  }

  lemma {:induction false} SmallKeepsMemory(st: State, chunk: nat, z: Sizes)
    requires chunk <= z.blk
    ensures var next := Allocate(st, chunk, z).0;
            |st.memory| <= |next.memory| && next.memory[..|st.memory|] == st.memory
  {
  }

  lemma {:induction false} SmallStep(st: State, regions: seq<Region>, n: nat, z: Sizes)
    requires Fits(z) && n >= 1 && Chunks(n) <= z.blk
    requires if regions == [] then st == EMPTY else Normal(Execution(st, regions), z)
    ensures var (next, r) := Allocate(st, Chunks(n), z);
            && Normal(Execution(next, regions + [r]), z) && Zero(next, r) && r.size == Chunks(n)
            && |st.memory| <= |next.memory| && next.memory[..|st.memory|] == st.memory
  {
    hide Normal, Zero, Allocate;
    ChunksEnough(n);
    SmallKeepsMemory(st, Chunks(n), z);
    if regions == [] {
      AllocFirst(Chunks(n), z);
      assert regions + [Allocate(st, Chunks(n), z).1] == [Allocate(st, Chunks(n), z).1];
    } else {
      RequestNormal(Execution(st, regions), Request(n), z);
    }
  }

  lemma {:induction false} EnoughSlots(log: nat, estimate: nat, blk: nat, increment: nat)
    requires blk * increment == Pow2(log) && (estimate <= Pow2(log) || log == 31) && estimate < 0x1_0000_0000
    ensures blk * (increment + increment + 3) >= estimate
  {
    Pow2Values();
    assert blk * (increment + increment + 3) == blk * increment + blk * increment + 3 * blk;
  }

  /** 2^log is the least power of two from 256 to 2^31 that reaches the estimate, or 2^31. */
  predicate LeastPower(log: nat, estimate: nat) {
    8 <= log <= 31 && (estimate <= Pow2(log) || log == 31) && (log == 8 || Pow2(log - 1) < estimate)
  }

  lemma {:induction false} PowersOrdered(a: nat, b: nat)
    requires a <= b
    ensures Pow2(a) <= Pow2(b)
  {
    Pow2Sum(a, b - a);
    assert Pow2(a) * Pow2(b - a) >= Pow2(a);
  }

  lemma {:induction false} SizeByEstimate(log: nat, estimate: nat)
    requires LeastPower(log, estimate)
    ensures (log < 13 <==> estimate <= 0x1000) && (log < 17 <==> estimate <= 0x1_0000)
  {
    hide Pow2;
    Pow2Values();
    Pow2Sum(8, 8);
    if log < 13 { PowersOrdered(log, 12); } else { PowersOrdered(12, log - 1); }
    if log < 17 { PowersOrdered(log, 16); } else { PowersOrdered(16, log - 1); }
  }

  class StoragePool {
    const logBlksize: nat
    const baseIncrement: nat

    // What is in memory, and what has been returned to it.
    var memory: seq<seq<int>>
    var freed: multiset<nat>

    var base: seq<Option<nat>>
    var baseIndex: nat
    var offset: nat

    /** Everything handed out so far. */
    ghost var given: seq<Region>

    /** No request larger than a segment has come first. */
    ghost predicate Valid()
      reads this
    {
      Fits(Z()) && Blksize() in {256, 1024, 4096} && Bounded(Snap()) &&
      if given == [] then Snap() == EMPTY else Normal(Execution(Snap(), given), Z())
    }

    function Blksize(): nat {
      Pow2(logBlksize)
    }

    function Z(): Sizes {
      Sizes(Blksize(), baseIncrement)
    }

    ghost function Snap(): State
      reads this
    {
      State(memory, freed, base, baseIndex, offset)
    }

    /** Segments of 256, 1024 or 4096 cells; one base vector has slots for all that is expected, twice over
        and three more, what is expected being rounded up to a power of two. */
    constructor (numTokens: nat)
      requires numTokens < 0x1_0000_0000
      ensures Snap() == EMPTY && given == [] && Valid() && Blksize() in {256, 1024, 4096}
      ensures Blksize() * baseIncrement >= (numTokens * 8) % 0x1_0000_0000
      ensures var estimate := (numTokens * 8) % 0x1_0000_0000;
              && Blksize() == (if estimate <= 0x1000 then 256 else if estimate <= 0x1_0000 then 1024 else 4096)
              && exists log :: LeastPower(log, estimate) && Blksize() * baseIncrement == 2 * Pow2(log) + 3 * Blksize()
    {
      hide Pow2;
      var estimate := (numTokens * 8) % 0x1_0000_0000;
      var log := 8;
      while Pow2(log) < estimate && log < 31
        invariant 8 <= log <= 31 && (log == 8 || Pow2(log - 1) < estimate)
        decreases 31 - log
      {
        log := log + 1;
      }
      var increment;
      if log < 13 {
        increment := Pow2(log - 8);
        logBlksize := 8;
      } else if log < 17 {
        increment := Pow2(log - 10);
        logBlksize := 10;
      } else {
        increment := Pow2(log - 12);
        logBlksize := 12;
      }
      Pow2Sum(8, log - 8);
      if log >= 10 { Pow2Sum(10, log - 10); }
      if log >= 12 { Pow2Sum(12, log - 12); }
      Pow2Values();
      SizeByEstimate(log, estimate);
      EnoughSlots(log, estimate, if log < 13 then 256 else if log < 17 then 1024 else 4096, increment);
      baseIncrement := increment + increment + 3;
      memory, freed, base, baseIndex, offset, given := [], multiset{}, [], 0, 0, [];
    }

    /** The slot of the base vector to use next, made if there is none. */
    method NextSlot()
      requires Fits(Z()) && (if base == [] then baseIndex == 0 && offset == 0 else baseIndex < |base|)
      modifies this`base, this`baseIndex
      ensures baseIndex == (if offset != 0 then old(baseIndex) + 1 else old(baseIndex)) && baseIndex < |base|
      ensures base == Grown(old(base), baseIndex, baseIncrement)
    {
      if offset != 0 {
        baseIndex := baseIndex + 1;
      }
      if baseIndex == |base| {
        base := base + Nones(baseIncrement);
      }
    }

    /** The next segment, of normal size unless `blockSize` is given. */
    method AllocateMoreSpace(blockSize: nat)
      requires Fits(Z()) && Bounded(Snap()) && (blockSize != 0 ==> blockSize > Blksize())
      modifies this
      ensures Snap() == MoreSpace(old(Snap()), blockSize, Z()) && given == old(given)
      ensures base != [] && Bounded(Snap().(offset := 1)) && offset == old(offset)
    {
      hide Bounded, Pow2, Grown, Zeros;
      MoreSpaceBounded(Snap(), blockSize, Z());
      BoundedIndex(Snap());
      NextSlot();
      if blockSize != 0 {
        if base[baseIndex].Some? {
          freed := freed + multiset{base[baseIndex].value};
        }
        PlaceSegment(blockSize);
      } else if base[baseIndex].None? {
        PlaceSegment(Blksize());
      }
    }

    /** A new segment, zeroed, in the current slot. */
    method PlaceSegment(cells: nat)
      requires baseIndex < |base|
      modifies this`base, this`memory
      ensures base == old(base)[baseIndex := Some(|old(memory)|)] && memory == old(memory) + [Zeros(cells)]
    {
      base := base[baseIndex := Some(|memory|)];
      memory := memory + [Zeros(cells)];
    }

    /** Hands out n bytes. */
    method Alloc(n: nat) returns (result: Region)
      requires Fits(Z()) && Bounded(Snap()) && n <= MAX_REQUEST
      modifies this
      ensures (Snap(), result) == Allocate(old(Snap()), Chunks(n), Z())
      ensures Bounded(Snap()) && base != [] && given == old(given) + [result]
    {
      hide MoreSpace, Pow2;
      var chunk := Chunks(n);
      if chunk > Blksize() {
        AllocateMoreSpace(chunk);
        result := Region(base[baseIndex].value, 0, chunk);
        if baseIndex != 0 {
          var temp := base[baseIndex];
          base := base[baseIndex := base[baseIndex - 1]];
          base := base[baseIndex - 1 := temp];
        }
        given := given + [result];
        return;
      }
      if base == [] || offset + chunk > Blksize() {
        AllocateMoreSpace(0);
        offset := 0;
      }
      result := Region(base[baseIndex].value, offset, chunk);
      offset := offset + chunk;
      given := given + [result];
    }

    /** A request of at most a segment keeps the pool valid: its region is zero, apart from all others, and
        no memory in use changes. */
    method AllocSmall(n: nat) returns (result: Region)
      requires Valid() && 1 <= n && Chunks(n) <= Blksize() && n <= MAX_REQUEST
      modifies this
      ensures Valid() && given == old(given) + [result] && result.size == Chunks(n)
      ensures Zero(Snap(), result) && |old(memory)| <= |memory| && memory[..|old(memory)|] == old(memory)
    {
      hide Normal, Allocate, Zero;
      ghost var st, regions := Snap(), given;
      SmallStep(st, regions, n, Z());
      result := Alloc(n);
    }

    /** A client writes to a cell of region k. */
    method Write(ghost k: nat, segment: nat, cell: nat, value: int)
      requires Valid() && k < |given|
      requires var r := given[k]; r.segment == segment && r.start <= cell < r.start + r.size
      requires segment < |memory| && cell < |memory[segment]|
      modifies this`memory
      ensures Valid() && memory == old(memory)[segment := old(memory)[segment][cell := value]]
    {
      WriteNormal(Execution(Snap(), given), Op.Write(k, cell - given[k].start, value), Z());
      memory := memory[segment := memory[segment][cell := value]];
    }

    method FreeSegments()
      requires Bounded(Snap())
      modifies this`freed
      ensures freed == old(freed) + if base == [] then multiset{} else Deleted(base, baseIndex + 1)
    {
      if base != [] {
        for i := 0 to baseIndex + 1
          invariant freed == old(freed) + Deleted(base, i)
        {
          freed := freed + multiset{base[i].value};
          Associative(old(freed), Deleted(base, i), multiset{base[i].value});
          hide Bounded;
        }
      }
    }

    /** The destructor: with a normal segment open, each segment goes back exactly once. */
    method Destroy()
      requires Bounded(Snap())
      modifies this`freed
      ensures Slots(old(Snap())) ==> freed == multiset(Below(|memory|))
    {
      ghost var st := Snap();
      FreeSegments();
      hide *;
      AllFreed(st, freed);
    }
  }
}
