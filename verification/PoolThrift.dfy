/** The pool uses its segments well: requests are placed one after the other, and no more than twice what was
    asked for is ever held, but for one segment. */
module PoolThrift {
  import opened Pool

  function Cells(memory: seq<seq<int>>): nat {
    if memory == [] then 0 else Cells(memory[..|memory| - 1]) + |memory[|memory| - 1]|
  }

  function Asked(regions: seq<Region>): nat {
    if regions == [] then 0 else Asked(regions[..|regions| - 1]) + regions[|regions| - 1].size
  }

  predicate Small(r: Region, z: Sizes) {
    r.size <= z.blk
  }

  /** Region i is the last of at most a segment before j. */
  ghost predicate Before(regions: seq<Region>, i: nat, j: nat, z: Sizes) {
    && i < j <= |regions| && Small(regions[i], z)
    && forall k :: i < k < j ==> !Small(regions[k], z)
  }

  /** Region j, of at most a segment, comes right behind region i if it fits there; else it starts a segment
      that no earlier region is in. */
  ghost predicate Behind(regions: seq<Region>, i: nat, j: nat, z: Sizes)
    requires i < j < |regions|
  {
    var r, s := regions[i], regions[j];
    if r.start + r.size + s.size <= z.blk then
      s.segment == r.segment && s.start == r.start + r.size
    else
      s.start == 0 && forall k :: 0 <= k < j ==> regions[k].segment != s.segment
  }

  ghost predicate NextFit(regions: seq<Region>, z: Sizes) {
    forall i: nat, j: nat :: j < |regions| && Small(regions[j], z) && Before(regions, i, j, z) ==>
      Behind(regions, i, j, z)
  }

  /** What a run keeps once a normal segment is open. */
  ghost predicate Thrifty(ex: Execution, z: Sizes) {
    && Cells(ex.st.memory) + ex.st.offset <= 2 * Asked(ex.regions) + z.blk
    && NextFit(ex.regions, z)
    && forall i: nat :: Before(ex.regions, i, |ex.regions|, z) ==>
         ex.regions[i].segment == Current(ex.st) && ex.regions[i].start + ex.regions[i].size == ex.st.offset
  }

  lemma {:induction false} CellsMore(memory: seq<seq<int>>, s: seq<int>)
    ensures Cells(memory + [s]) == Cells(memory) + |s|
  {
    assert (memory + [s])[..|memory|] == memory;
  }

  lemma {:induction false} AskedMore(regions: seq<Region>, r: Region)
    ensures Asked(regions + [r]) == Asked(regions) + r.size
  {
    assert (regions + [r])[..|regions|] == regions;
  }

  /** Writing changes no length. */
  lemma {:induction false} CellsSame(memory: seq<seq<int>>, memory': seq<seq<int>>)
    requires |memory| == |memory'| && forall i :: 0 <= i < |memory| ==> |memory[i]| == |memory'[i]|
    ensures Cells(memory) == Cells(memory')
  {
    if memory != [] { CellsSame(memory[..|memory| - 1], memory'[..|memory| - 1]); }
  }

  lemma {:induction false} BeforeMore(regions: seq<Region>, r: Region, i: nat, z: Sizes)
    ensures Before(regions + [r], i, |regions|, z) <==> Before(regions, i, |regions|, z)
    ensures Before(regions + [r], i, |regions| + 1, z) <==>
            if Small(r, z) then i == |regions| else Before(regions, i, |regions|, z)
  {
    var more := regions + [r];
    assert more[|regions|] == r && forall k :: 0 <= k < |regions| ==> more[k] == regions[k];
  }

  /** One more region keeps the law if it comes behind the last small one. */
  lemma {:induction false} NextFitMore(regions: seq<Region>, r: Region, z: Sizes)
    requires NextFit(regions, z)
    requires Small(r, z) ==>
               forall i: nat :: Before(regions, i, |regions|, z) ==> Behind(regions + [r], i, |regions|, z)
    ensures NextFit(regions + [r], z)
  {
    var more := regions + [r];
    assert forall k :: 0 <= k < |regions| ==> more[k] == regions[k];
    forall i: nat, j: nat | j < |more| && Small(more[j], z) && Before(more, i, j, z) ensures Behind(more, i, j, z) {
      if j < |regions| {
        assert Before(regions, i, j, z);
        assert Behind(regions, i, j, z);
      } else {
        BeforeMore(regions, r, i, z);
      }
    }
  }

  /** A request that leaves segment `cur` current, with its region at the end if it is small. */
  lemma {:induction false} ThriftyMore(ex: Execution, next: State, r: Region, z: Sizes)
    requires Thrifty(ex, z) && NextFit(ex.regions + [r], z)
    requires Cells(next.memory) + next.offset <= Cells(ex.st.memory) + ex.st.offset + 2 * r.size
    requires if Small(r, z) then r.segment == Current(next) && r.start + r.size == next.offset
             else Current(next) == Current(ex.st) && next.offset == ex.st.offset
    ensures Thrifty(Execution(next, ex.regions + [r]), z)
  {
    hide NextFit, Before, Current;
    AskedMore(ex.regions, r);
    var more := ex.regions + [r];
    assert more[|ex.regions|] == r;
    forall i: nat | Before(more, i, |more|, z)
      ensures i < |more| && more[i].segment == Current(next) && more[i].start + more[i].size == next.offset
    {
      BeforeMore(ex.regions, r, i, z);
      if !Small(r, z) { BeforeIn(ex.regions, i, z); }
    }
  }

  lemma {:induction false} BeforeIn(regions: seq<Region>, i: nat, z: Sizes)
    requires Before(regions, i, |regions|, z)
    ensures i < |regions|
  {
  }

  /** Regions keep their segments below the number of segments. */
  lemma {:induction false} SegmentsBelow(ex: Execution, z: Sizes)
    requires Normal(ex, z)
    ensures forall k :: 0 <= k < |ex.regions| ==> ex.regions[k].segment < |ex.st.memory|
  {
  }

  lemma {:induction false} HereState(st: State, chunk: nat, z: Sizes)
    requires st.base != [] && st.offset + chunk <= z.blk
    ensures Allocate(st, chunk, z) ==
            (st.(offset := st.offset + chunk), Region(Current(st), st.offset, chunk))
  {
  }

  lemma {:induction false} NextState(st: State, chunk: nat, z: Sizes)
    requires Fits(z) && Slots(st) && st.offset > 0 && chunk <= z.blk && st.offset + chunk > z.blk
    ensures var (next, r) := Allocate(st, chunk, z);
            && next.memory == st.memory + [Zeros(z.blk)] && next.offset == chunk && Current(next) == |st.memory|
            && r == Region(|st.memory|, 0, chunk)
  {
  }

  lemma {:induction false} LargeCurrent(st: State, chunk: nat, z: Sizes)
    requires Fits(z) && Slots(st) && st.offset > 0 && z.blk < chunk
    ensures var (next, r) := Allocate(st, chunk, z);
            && next.memory == st.memory + [Zeros(chunk)] && next.offset == st.offset && Current(next) == Current(st)
            && r == Region(|st.memory|, 0, chunk)
  {
    hide Allocate;
    LargeState(st, chunk, z);
  }

  lemma {:induction false} ThriftyRequest(ex: Execution, op: Op, z: Sizes)
    requires Fits(z) && Normal(ex, z) && Thrifty(ex, z) && op.Request? && Chunks(op.bytes) >= 1
    ensures Thrifty(Step(ex, op, z), z)
  {
    hide Chunks, Slots, Before;
    var chunk, st := Chunks(op.bytes), ex.st;
    var (next, r) := Allocate(st, chunk, z);
    SegmentsBelow(ex, z);
    SlotsHere(st);
    hide Allocate, Current, Regions;
    if chunk > z.blk {
      LargeCurrent(st, chunk, z);
      CellsMore(st.memory, Zeros(chunk));
    } else if st.offset + chunk > z.blk {
      NextState(st, chunk, z);
      CellsMore(st.memory, Zeros(z.blk));
    } else {
      HereState(st, chunk, z);
    }
    forall i: nat | Small(r, z) && Before(ex.regions, i, |ex.regions|, z)
      ensures i < |ex.regions| && Behind(ex.regions + [r], i, |ex.regions|, z)
    {
      BeforeIn(ex.regions, i, z);
    }
    NextFitMore(ex.regions, r, z);
    ThriftyMore(ex, next, r, z);
  }

  lemma {:induction false} SlotsHere(st: State)
    requires Slots(st)
    ensures st.base != []
  {
  }

  lemma {:induction false} ThriftyWrite(ex: Execution, op: Op, z: Sizes)
    requires op.Write? && Thrifty(ex, z)
    ensures Thrifty(Step(ex, op, z), z)
  {
    hide NextFit, Before;
    var next := Step(ex, op, z);
    CellsSame(ex.st.memory, next.st.memory);
  }

  lemma {:induction false} ThriftyFirst(chunk: nat, z: Sizes)
    requires Fits(z) && 1 <= chunk <= z.blk
    ensures var (st, r) := Allocate(EMPTY, chunk, z); Thrifty(Execution(st, [r]), z)
  {
    var (st, r) := Allocate(EMPTY, chunk, z);
    assert [r][..0] == [] && st.memory[..0] == [];
    CellsMore([], Zeros(z.blk));
    assert [] + [Zeros(z.blk)] == st.memory;
  }

  // ---- All runs

  lemma {:induction false} ThriftyStep(ex: Execution, requests: seq<nat>, op: Op, z: Sizes)
    requires Fits(z) && Invariant(ex, requests, z) && (op.Request? ==> op.bytes >= 1)
    requires var more := requests + (if op.Request? then [Chunks(op.bytes)] else []); more != [] && more[0] <= z.blk
    requires requests != [] ==> Thrifty(ex, z)
    ensures Thrifty(Step(ex, op, z), z)
  {
    hide Allocate, Normal, Thrifty, Chunks, Single;
    if op.Request? { ChunksEnough(op.bytes); }
    if requests == [] {
      assert requests + [Chunks(op.bytes)] == [Chunks(op.bytes)];
      ThriftyFirst(Chunks(op.bytes), z);
      assert [] + [Allocate(EMPTY, Chunks(op.bytes), z).1] == [Allocate(EMPTY, Chunks(op.bytes), z).1];
    } else if op.Request? {
      ThriftyRequest(ex, op, z);
    } else {
      ThriftyWrite(ex, op, z);
    }
  }

  lemma {:induction false} RunThrifty(ops: seq<Op>, z: Sizes)
    requires Fits(z) && WellFormed(ops) && Requests(ops) != [] && Requests(ops)[0] <= z.blk
    ensures Thrifty(Run(ops, z), z)
  {
    hide Step, Thrifty, Chunks, Invariant;
    var n := |ops| - 1;
    var before, op := ops[..n], ops[n];
    RequestsPrefix(ops, n);
    RunInvariant(before, z);
    if Requests(before) != [] { RunThrifty(before, z); }
    ThriftyStep(Run(before, z), Requests(before), op, z);
  }

  /** Over a whole run of a sound pool, each request of at most a segment comes right behind the one before it
      or opens a segment because it does not fit, and at most twice what was asked for is held, but for one
      segment. */
  lemma {:induction false} PoolThrift(ops: seq<Op>, z: Sizes)
    requires Fits(z) && WellFormed(ops) && !StartsLarge(Requests(ops), z)
    ensures var ex := Run(ops, z);
            NextFit(ex.regions, z) && Cells(ex.st.memory) <= 2 * Asked(ex.regions) + z.blk
  {
    hide Run;
    RunInvariant(ops, z);
    if Requests(ops) != [] {
      if Requests(ops)[0] <= z.blk {
        RunThrifty(ops, z);
      } else {
        SingleThrifty(Run(ops, z), z);
      }
    }
  }

  lemma {:induction false} SingleThrifty(ex: Execution, z: Sizes)
    requires Single(ex)
    ensures NextFit(ex.regions, z) && Cells(ex.st.memory) <= 2 * Asked(ex.regions)
  {
    assert ex.st.memory[..0] == [] && ex.regions[..0] == [];
  }
}
