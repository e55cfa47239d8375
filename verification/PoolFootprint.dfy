/** How much memory the pool asks malloc for: never a chunk more than the blocks that were live at
    once call for, and a freed block is the next one handed out. */
module PoolFootprint {
  import opened Common
  import opened MemoryPool

  // ---------------------------------------------------------------- chunks and live blocks

  /** The most blocks of class `c` live at once over a run, starting from `most`. */
  ghost function Peak(p: Pool, ops: seq<Op>, c: nat, most: nat): nat
    requires |p.free| == FREE_LISTS && LegalRun(p, ops)
    decreases |ops|
  {
    if ops == [] then most else
    var q := Apply(p, ops[0]);
    Peak(q, ops[1..], c, if |LiveOf(q, c)| > most then |LiveOf(q, c)| else most)
  }

  /** The chunks that so many blocks fill, the last of them perhaps in part. */
  function ChunksFor(blocks: nat): nat { (blocks + ADD_NODES - 1) / ADD_NODES }

  ghost predicate IsClassOf(op: Op, c: nat) { op.OpAlloc? && op.size >= 1 && FreeListIndex(op.size) == c }

  lemma {:induction false} OneChunkMore(chunks: seq<Chunk>, ch: Chunk, c: nat)
    ensures ChunksOf(chunks + [ch], c) == ChunksOf(chunks, c) + if ch.cls == c then 1 else 0
  {
    assert (chunks + [ch])[..|chunks|] == chunks;
  }

  /** A chunk is obtained exactly when a block is asked for and none of its class is free. */
  lemma {:induction false} ChunksAfter(p: Pool, op: Op, c: nat)
    requires Inv(p) && Legal(p, op) && c < FREE_LISTS
    ensures ChunksOf(Apply(p, op).chunks, c)
            == ChunksOf(p.chunks, c) + if IsClassOf(op, c) && p.free[c] == [] then 1 else 0
  {
    if op.OpAlloc? {
      ClassHoldsRequest(op.size);
      OneChunkMore(p.chunks, Chunk(op.got, FreeListIndex(op.size)), c);
    } else {
      ClassHoldsRequest(p.live[op.addr]);
    }
  }

  /** One allocation makes one more block of its class live, one free one fewer of its. */
  lemma {:induction false} LiveAfter(p: Pool, op: Op, c: nat)
    requires Inv(p) && Legal(p, op) && c < FREE_LISTS
    ensures var n := |LiveOf(Apply(p, op), c)|;
            if IsClassOf(op, c) then n == |LiveOf(p, c)| + 1 else n <= |LiveOf(p, c)|
  {
    ApplyKeepsInv(p, op);
    BlocksAreConserved(p, c);
    BlocksAreConserved(Apply(p, op), c);
    ChunksAfter(p, op, c);
    FreeAfter(p, op, c);
  }

  lemma {:induction false} FreeAfter(p: Pool, op: Op, c: nat)
    requires Inv(p) && Legal(p, op) && c < FREE_LISTS
    ensures var n := |Apply(p, op).free[c]|;
            if IsClassOf(op, c) then n == (if p.free[c] == [] then ADD_NODES else |p.free[c]|) - 1 else n >= |p.free[c]|
  {
    if op.OpAlloc? { ClassHoldsRequest(op.size); } else { ClassHoldsRequest(p.live[op.addr]); }
  }

  /** The chunks of a class are those that the most blocks ever live call for. */
  ghost predicate Tight(p: Pool, c: nat, most: nat) {
    |LiveOf(p, c)| <= most && ChunksOf(p.chunks, c) == ChunksFor(most)
  }

  lemma ChunksStep(live: nat, free: nat, chunks: nat, most: nat)
    requires live + free == ADD_NODES * chunks && live <= most && chunks == ChunksFor(most)
    ensures free == 0 ==> live == most && ChunksFor(live + 1) == chunks + 1
    ensures free > 0 && live + 1 > most ==> ChunksFor(live + 1) == chunks
  {
  }

  lemma {:induction false} ApplyKeepsTight(p: Pool, op: Op, c: nat, most: nat)
    requires Inv(p) && Legal(p, op) && c < FREE_LISTS && Tight(p, c, most)
    ensures var n := |LiveOf(Apply(p, op), c)|; Tight(Apply(p, op), c, if n > most then n else most)
  {
    BlocksAreConserved(p, c);
    ChunksAfter(p, op, c);
    LiveAfter(p, op, c);
    ChunksStep(|LiveOf(p, c)|, |p.free[c]|, ChunksOf(p.chunks, c), most);
  }

  lemma {:induction false} RunKeepsTight(p: Pool, ops: seq<Op>, c: nat, most: nat)
    requires Inv(p) && LegalRun(p, ops) && c < FREE_LISTS && Tight(p, c, most)
    ensures Tight(Run(p, ops), c, Peak(p, ops, c, most))
    decreases |ops|
  {
    if ops != [] {
      var q := Apply(p, ops[0]);
      ApplyKeepsInv(p, ops[0]);
      ApplyKeepsTight(p, ops[0], c, most);
      RunKeepsTight(q, ops[1..], c, if |LiveOf(q, c)| > most then |LiveOf(q, c)| else most);
    }
  }

  /** Over every run the pool has obtained, for each class, exactly as many chunks of twenty blocks as
      the most blocks of that class ever live at once fill. */
  lemma {:induction false} FootprintIsPeak(ops: seq<Op>, c: nat)
    requires LegalRun(EMPTY, ops) && c < FREE_LISTS
    ensures ChunksOf(Run(EMPTY, ops).chunks, c) == ChunksFor(Peak(EMPTY, ops, c, 0))
  {
    EmptyIsSafe();
    assert LiveOf(EMPTY, c) == {};
    RunKeepsTight(EMPTY, ops, c, 0);
  }

  // ---------------------------------------------------------------- which block is handed out

  /** What is handed out was not live, is live from then on with the size asked for, and nothing else changes hands. */
  lemma {:induction false} HandedOutOnce(p: Pool, size: int, got: int)
    requires Inv(p) && Legal(p, OpAlloc(size, got))
    ensures AllocAddress(p, size, got) !in p.live
    ensures Alloc(p, size, got).live == p.live[AllocAddress(p, size, got) := size]
  {
    var c := FreeListIndex(size);
    ClassHoldsRequest(size);
    if p.free[c] == [] {
      assert Blocks(got, c, ADD_NODES)[0] == Chunk(got, c).Block(0) == got;
      if got in p.live {
        LiveBlockIsBacked(p, got);
        OldBlockNotInFreshChunk(p, c, got, got, FreeListIndex(p.live[got]));
      }
    } else {
      assert p.free[c][0] in p.free[c];
    }
  }

  /** A block that is given back is the next one handed out for its class, whatever happens in the
      other classes in between. */
  lemma {:induction false} FreedIsNext(p: Pool, a: int, ops: seq<Op>, size: int, got: int)
    requires Inv(p) && a in p.live && 1 <= size <= MAX_BYTES && FreeListIndex(size) == FreeListIndex(p.live[a])
    requires |Release(p, a).free| == FREE_LISTS && LegalRun(Release(p, a), ops) && OtherClasses(Release(p, a), ops, FreeListIndex(size))
    ensures AllocAddress(Run(Release(p, a), ops), size, got) == a
  {
    ReleaseKeepsInv(p, a);
    ClassHoldsRequest(size);
    OthersLeaveList(Release(p, a), ops, FreeListIndex(size));
  }

  /** No call of the run is for class `c`. */
  ghost predicate OtherClasses(p: Pool, ops: seq<Op>, c: nat)
    requires |p.free| == FREE_LISTS && LegalRun(p, ops)
    decreases |ops|
  {
    ops == [] || (ClassOf(p, ops[0]) != c && OtherClasses(Apply(p, ops[0]), ops[1..], c))
  }

  ghost function ClassOf(p: Pool, op: Op): int
    requires |p.free| == FREE_LISTS && Legal(p, op)
  {
    if op.OpAlloc? then FreeListIndex(op.size) else FreeListIndex(p.live[op.addr])
  }

  lemma {:induction false} OthersLeaveList(p: Pool, ops: seq<Op>, c: nat)
    requires Inv(p) && LegalRun(p, ops) && c < FREE_LISTS && OtherClasses(p, ops, c)
    ensures Run(p, ops).free[c] == p.free[c]
    decreases |ops|
  {
    if ops != [] {
      ApplyKeepsInv(p, ops[0]);
      if ops[0].OpAlloc? { ClassHoldsRequest(ops[0].size); } else { ClassHoldsRequest(p.live[ops[0].addr]); }
      OthersLeaveList(Apply(p, ops[0]), ops[1..], c);
    }
  }
}
