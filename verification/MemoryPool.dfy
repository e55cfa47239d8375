/** The size-class allocator of base/MemoryPool.{h,cpp}.

    The module has two layers.  `Pool` is the abstract allocator: for each of
    the 32 size classes a list of free block addresses, the live blocks with the
    size their caller asked for, and the chunks obtained from malloc.  The class
    `MemoryPool` is the allocator as written: heads of intrusive lists whose
    links live inside the free blocks themselves, a carve-out window
    `poolStart..poolEnd`, and a byte memory that the caller of the allocator also writes.
 */
module MemoryPool {
  import opened Common

  const ALIGN := 8
  const MAX_BYTES := 256
  const FREE_LISTS := 32
  const ADD_NODES := 20

  // ---------------------------------------------------------------- sizes

  /** The index of the size class that serves a request of `size` bytes. */
  function FreeListIndex(size: int): int
    requires size >= 1
  {
    (size + ALIGN - 1) / ALIGN - 1
  }

  /** `(size + 7) & ~7`, as arithmetic. */
  function RoundUp(size: int): int
    requires size >= 1
  {
    (size + ALIGN - 1) / ALIGN * ALIGN
  }

  function BlockSize(cls: nat): nat { ALIGN * (cls + 1) }

  lemma ClassHoldsRequest(size: int)
    requires 1 <= size <= MAX_BYTES
    ensures 0 <= FreeListIndex(size) < FREE_LISTS
    ensures BlockSize(FreeListIndex(size)) == RoundUp(size)
    ensures size <= RoundUp(size) < size + ALIGN
    ensures FreeListIndex(RoundUp(size)) == FreeListIndex(size)
  {
  }

  // ---------------------------------------------------------------- the abstract allocator

  /** One malloc'd region, carved into ADD_NODES blocks of one class. */
  datatype Chunk = Chunk(start: int, cls: nat) {
    function Block(i: nat): int {
      if i == 0 then start else Block(i - 1) + BlockSize(cls)
    }
    function End(): int { start + ADD_NODES * BlockSize(cls) }
  }

  datatype Pool = Pool(free: seq<seq<int>>, live: map<int, int>, chunks: seq<Chunk>)

  ghost predicate IsBlock(chunks: seq<Chunk>, a: int, c: nat) {
    exists k, i :: 0 <= k < |chunks| && 0 <= i < ADD_NODES && chunks[k].cls == c && a == chunks[k].Block(i)
  }

  ghost predicate Disjoint(a: int, n: int, b: int, m: int) {
    a + n <= b || b + m <= a
  }

  ghost predicate ChunksApart(chunks: seq<Chunk>) {
    && (forall k :: 0 <= k < |chunks| ==> chunks[k].cls < FREE_LISTS && chunks[k].start > 0)
    && (forall k, l :: 0 <= k < l < |chunks| ==> chunks[k].End() <= chunks[l].start || chunks[l].End() <= chunks[k].start)
  }

  ghost predicate LiveIn(p: Pool, a: int, c: nat) {
    a in p.live && 1 <= p.live[a] <= MAX_BYTES && FreeListIndex(p.live[a]) == c
  }

  /** The safety invariant: every block of every chunk is in exactly one place,
      the free list of its own class or the live blocks of its own class. */
  ghost predicate Inv(p: Pool) {
    && |p.free| == FREE_LISTS
    && ChunksApart(p.chunks)
    && (forall a :: a in p.live ==> 1 <= p.live[a] <= MAX_BYTES)
    && (forall c :: 0 <= c < FREE_LISTS ==> NoRepeats(p.free[c]))
    && (forall c, a :: 0 <= c < FREE_LISTS && a in p.free[c] ==> a !in p.live)
    && (forall c, a :: 0 <= c < FREE_LISTS ==> (IsBlock(p.chunks, a, c) <==> a in p.free[c] || LiveIn(p, a, c)))
  }

  // ---------------------------------------------------------------- abstract operations

  /** A malloc'd region may stand anywhere that no other chunk stands. */
  ghost predicate Fresh(p: Pool, got: int, c: nat) {
    got > 0 && forall k :: 0 <= k < |p.chunks| ==> Disjoint(got, ADD_NODES * BlockSize(c), p.chunks[k].start, p.chunks[k].End() - p.chunks[k].start)
  }

  function Blocks(start: int, c: nat, n: nat): (s: seq<int>)
    ensures |s| == n
    ensures forall i :: 0 <= i < n ==> s[i] == Chunk(start, c).Block(i)
  {
    seq(n, i requires 0 <= i < n => Chunk(start, c).Block(i))
  }

  /** Carve a new chunk: all its blocks go onto the free list of its class. */
  ghost function Grow(p: Pool, c: nat, got: int): Pool
    requires c < |p.free|
  {
    Pool(p.free[c := Blocks(got, c, ADD_NODES)], p.live, p.chunks + [Chunk(got, c)])
  }

  ghost function Take(p: Pool, size: int): Pool
    requires 1 <= size <= MAX_BYTES && |p.free| == FREE_LISTS
    requires p.free[FreeListIndex(size)] != []
  {
    var c := FreeListIndex(size);
    Pool(p.free[c := p.free[c][1..]], p.live[p.free[c][0] := size], p.chunks)
  }

  /** What an allocation does when malloc, if asked, answers `got`. */
  ghost function Alloc(p: Pool, size: int, got: int): Pool
    requires 1 <= size <= MAX_BYTES && |p.free| == FREE_LISTS
  {
    var c := FreeListIndex(size);
    Take(if p.free[c] == [] then Grow(p, c, got) else p, size)
  }

  ghost function AllocAddress(p: Pool, size: int, got: int): int
    requires 1 <= size <= MAX_BYTES && |p.free| == FREE_LISTS
  {
    var c := FreeListIndex(size);
    if p.free[c] == [] then got else p.free[c][0]
  }

  ghost function Release(p: Pool, a: int): Pool
    requires a in p.live && 1 <= p.live[a] <= MAX_BYTES && |p.free| == FREE_LISTS
  {
    var c := FreeListIndex(p.live[a]);
    Pool(p.free[c := [a] + p.free[c]], p.live - {a}, p.chunks)
  }

  // ---------------------------------------------------------------- geometry of blocks

  lemma {:induction false} BlocksOfChunkApart(ch: Chunk, i: nat, j: nat)
    requires i < j
    ensures ch.Block(i) + BlockSize(ch.cls) <= ch.Block(j)
  {
    if i + 1 < j { BlocksOfChunkApart(ch, i, j - 1); }
  }

  lemma {:induction false} BlockIsMultiple(ch: Chunk, i: nat)
    ensures ch.Block(i) == ch.start + i * BlockSize(ch.cls)
  {
    if i > 0 { BlockIsMultiple(ch, i - 1); }
  }

  lemma {:induction false} BlockInsideChunk(ch: Chunk, i: nat)
    requires i < ADD_NODES
    ensures ch.start <= ch.Block(i) && ch.Block(i) + BlockSize(ch.cls) <= ch.End()
  {
    if i > 0 { BlocksOfChunkApart(ch, 0, i); }
    BlocksOfChunkApart(ch, i, ADD_NODES);
    BlockIsMultiple(ch, ADD_NODES);
  }

  /** Two blocks of the pool either are the same block or do not overlap. */
  lemma BlocksApart(chunks: seq<Chunk>, a: int, c: nat, b: int, d: nat)
    requires ChunksApart(chunks) && IsBlock(chunks, a, c) && IsBlock(chunks, b, d)
    ensures (a == b && c == d) || Disjoint(a, BlockSize(c), b, BlockSize(d))
  {
    var k, i :| 0 <= k < |chunks| && 0 <= i < ADD_NODES && chunks[k].cls == c && a == chunks[k].Block(i);
    var l, j :| 0 <= l < |chunks| && 0 <= j < ADD_NODES && chunks[l].cls == d && b == chunks[l].Block(j);
    BlockInsideChunk(chunks[k], i);
    BlockInsideChunk(chunks[l], j);
    if k == l {
      if i < j { BlocksOfChunkApart(chunks[k], i, j); }
      if j < i { BlocksOfChunkApart(chunks[k], j, i); }
    }
  }

  lemma BlockHasOneClass(chunks: seq<Chunk>, a: int, c: nat, d: nat)
    requires ChunksApart(chunks) && IsBlock(chunks, a, c) && IsBlock(chunks, a, d)
    ensures c == d
  {
    BlocksApart(chunks, a, c, a, d);
  }

  // ---------------------------------------------------------------- every operation keeps the invariant

  lemma GrowKeepsInv(p: Pool, c: nat, got: int)
    requires Inv(p) && c < FREE_LISTS && p.free[c] == [] && Fresh(p, got, c)
    ensures Inv(Grow(p, c, got))
  {
    var q := Grow(p, c, got);
    var ch := Chunk(got, c);
    assert ChunksApart(q.chunks);
    forall i, j | 0 <= i < j < ADD_NODES ensures q.free[c][i] != q.free[c][j] {
      BlocksOfChunkApart(ch, i, j);
    }
    forall a, d: nat ensures IsBlock(q.chunks, a, d) <==> IsBlock(p.chunks, a, d) || (d == c && a in q.free[c]) {
      GrowBlocks(p, c, got, a, d);
    }
    forall a | a in q.free[c] ensures a !in p.live {
      if a in p.live {
        var d := FreeListIndex(p.live[a]);
        ClassHoldsRequest(p.live[a]);
        assert LiveIn(p, a, d);
        OldBlockNotInFreshChunk(p, c, got, a, d);
      }
    }
  }

  lemma GrowBlocks(p: Pool, c: nat, got: int, a: int, d: nat)
    requires c < |p.free|
    ensures IsBlock(Grow(p, c, got).chunks, a, d) <==> IsBlock(p.chunks, a, d) || (d == c && a in Blocks(got, c, ADD_NODES))
  {
    var q := Grow(p, c, got);
    var n := |p.chunks|;
    if IsBlock(p.chunks, a, d) {
      var k, i :| 0 <= k < |p.chunks| && 0 <= i < ADD_NODES && p.chunks[k].cls == d && a == p.chunks[k].Block(i);
      assert q.chunks[k] == p.chunks[k];
    }
    if d == c && a in Blocks(got, c, ADD_NODES) {
      var i :| 0 <= i < ADD_NODES && a == Blocks(got, c, ADD_NODES)[i];
      assert q.chunks[n] == Chunk(got, c) && a == q.chunks[n].Block(i);
    }
    if IsBlock(q.chunks, a, d) {
      var k, i :| 0 <= k < |q.chunks| && 0 <= i < ADD_NODES && q.chunks[k].cls == d && a == q.chunks[k].Block(i);
      if k < n {
        assert IsBlock(p.chunks, a, d);
      } else {
        assert a == Blocks(got, c, ADD_NODES)[i];
      }
    }
  }

  lemma OldBlockNotInFreshChunk(p: Pool, c: nat, got: int, a: int, d: nat)
    requires ChunksApart(p.chunks) && Fresh(p, got, c) && IsBlock(p.chunks, a, d)
    ensures a !in Blocks(got, c, ADD_NODES)
  {
    var k, i :| 0 <= k < |p.chunks| && 0 <= i < ADD_NODES && p.chunks[k].cls == d && a == p.chunks[k].Block(i);
    BlockInsideChunk(p.chunks[k], i);
    if a in Blocks(got, c, ADD_NODES) {
      var j :| 0 <= j < ADD_NODES && a == Blocks(got, c, ADD_NODES)[j];
      BlockInsideChunk(Chunk(got, c), j);
    }
  }

  lemma TakeKeepsInv(p: Pool, size: int)
    requires Inv(p) && 1 <= size <= MAX_BYTES && p.free[FreeListIndex(size)] != []
    ensures Inv(Take(p, size))
  {
    var c := FreeListIndex(size);
    var a := p.free[c][0];
    var q := Take(p, size);
    assert IsBlock(p.chunks, a, c);
    forall d: nat, b | d < FREE_LISTS ensures IsBlock(q.chunks, b, d) <==> b in q.free[d] || LiveIn(q, b, d) {
      if b == a && IsBlock(p.chunks, b, d) { BlockHasOneClass(p.chunks, a, c, d); }
      if d == c {
        assert p.free[c] == [a] + q.free[c];
        assert b in p.free[c] <==> b == a || b in q.free[c];
      }
    }
    forall d: nat, b | d < FREE_LISTS && b in q.free[d] ensures b !in q.live {
      assert b in p.free[d];
      if b == a {
        BlockHasOneClass(p.chunks, a, c, d);
        assert false;
      }
    }
  }

  lemma ReleaseKeepsInv(p: Pool, a: int)
    requires Inv(p) && a in p.live
    ensures Inv(Release(p, a))
  {
    var c := FreeListIndex(p.live[a]);
    ClassHoldsRequest(p.live[a]);
    var q := Release(p, a);
    assert LiveIn(p, a, c);
    assert IsBlock(p.chunks, a, c);
    forall d: nat, b | d < FREE_LISTS ensures IsBlock(q.chunks, b, d) <==> b in q.free[d] || LiveIn(q, b, d) {
      assert b in q.free[c] <==> b == a || b in p.free[c];
      if b == a && IsBlock(p.chunks, b, d) { BlockHasOneClass(p.chunks, a, c, d); }
    }
    forall i, j | 0 <= i < j < |q.free[c]| ensures q.free[c][i] != q.free[c][j] {
      assert q.free[c][j] == p.free[c][j - 1];
      assert q.free[c][j] in p.free[c];
    }
  }

  // ---------------------------------------------------------------- what the invariant buys

  /** A live block is as large as asked for and lies inside one chunk. */
  lemma LiveBlockIsBacked(p: Pool, a: int)
    requires Inv(p) && a in p.live
    ensures IsBlock(p.chunks, a, FreeListIndex(p.live[a])) && p.live[a] <= BlockSize(FreeListIndex(p.live[a]))
    ensures exists k :: 0 <= k < |p.chunks| && p.chunks[k].start <= a && a + p.live[a] <= p.chunks[k].End()
  {
    var c := FreeListIndex(p.live[a]);
    ClassHoldsRequest(p.live[a]);
    assert LiveIn(p, a, c);
    var k, i :| 0 <= k < |p.chunks| && 0 <= i < ADD_NODES && p.chunks[k].cls == c && a == p.chunks[k].Block(i);
    BlockInsideChunk(p.chunks[k], i);
  }

  lemma LiveBlocksApart(p: Pool, a: int, b: int)
    requires Inv(p) && a in p.live && b in p.live && a != b
    ensures Disjoint(a, p.live[a], b, p.live[b])
  {
    LiveBlockIsBacked(p, a);
    LiveBlockIsBacked(p, b);
    BlocksApart(p.chunks, a, FreeListIndex(p.live[a]), b, FreeListIndex(p.live[b]));
  }

  lemma LiveAndFreeApart(p: Pool, a: int, c: nat, b: int)
    requires Inv(p) && a in p.live && c < FREE_LISTS && b in p.free[c]
    ensures Disjoint(a, p.live[a], b, BlockSize(c))
  {
    LiveBlockIsBacked(p, a);
    assert IsBlock(p.chunks, b, c);
    BlocksApart(p.chunks, a, FreeListIndex(p.live[a]), b, c);
  }

  lemma FreeBlocksApart(p: Pool, c: nat, a: int, d: nat, b: int)
    requires Inv(p) && c < FREE_LISTS && d < FREE_LISTS && a in p.free[c] && b in p.free[d] && (a != b || c != d)
    ensures Disjoint(a, BlockSize(c), b, BlockSize(d))
  {
    assert IsBlock(p.chunks, a, c) && IsBlock(p.chunks, b, d);
    BlocksApart(p.chunks, a, c, b, d);
  }

  ghost function LiveOf(p: Pool, c: nat): set<int> {
    set a | a in p.live && 1 <= p.live[a] && FreeListIndex(p.live[a]) == c
  }

  ghost function ChunksOf(chunks: seq<Chunk>, c: nat): nat {
    if chunks == [] then 0 else ChunksOf(chunks[..|chunks| - 1], c) + if chunks[|chunks| - 1].cls == c then 1 else 0
  }

  ghost function BlockSet(chunks: seq<Chunk>, c: nat): set<int> {
    set k, i | 0 <= k < |chunks| && 0 <= i < ADD_NODES && chunks[k].cls == c :: chunks[k].Block(i)
  }

  lemma {:induction false} BlockSetCounts(chunks: seq<Chunk>, c: nat)
    requires ChunksApart(chunks)
    ensures |BlockSet(chunks, c)| == ADD_NODES * ChunksOf(chunks, c)
  {
    if chunks != [] {
      BlockSetCounts(chunks[..|chunks| - 1], c);
      BlockSetGrows(chunks, c);
    }
  }

  lemma {:induction false} BlockSetGrows(chunks: seq<Chunk>, c: nat)
    requires ChunksApart(chunks) && chunks != []
    ensures var n := |chunks| - 1;
            |BlockSet(chunks, c)| == |BlockSet(chunks[..n], c)| + if chunks[n].cls == c then ADD_NODES else 0
  {
    var n := |chunks| - 1;
    if chunks[n].cls == c {
      var bs := Blocks(chunks[n].start, c, ADD_NODES);
      forall i, j | 0 <= i < j < ADD_NODES ensures bs[i] != bs[j] {
        BlocksOfChunkApart(chunks[n], i, j);
      }
      NoRepeatsCounts(bs);
      LastChunkBlocks(chunks, c);
      LastChunkIsNew(chunks, c);
      DisjointCard(BlockSet(chunks[..n], c), Elements(bs));
    } else {
      assert BlockSet(chunks, c) == BlockSet(chunks[..n], c);
    }
  }

  lemma DisjointCard(a: set<int>, b: set<int>)
    requires a !! b
    ensures |a + b| == |a| + |b|
  {
  }

  lemma {:induction false} LastChunkIsNew(chunks: seq<Chunk>, c: nat)
    requires ChunksApart(chunks) && chunks != [] && chunks[|chunks| - 1].cls == c
    ensures var n := |chunks| - 1;
            BlockSet(chunks[..n], c) !! Elements(Blocks(chunks[n].start, c, ADD_NODES))
  {
    var n := |chunks| - 1;
    var rest, last := chunks[..n], chunks[n];
    assert Fresh(Pool([], map[], rest), last.start, c);
    forall a | a in BlockSet(rest, c) ensures a !in Blocks(last.start, c, ADD_NODES) {
      assert IsBlock(rest, a, c);
      OldBlockNotInFreshChunk(Pool([], map[], rest), c, last.start, a, c);
    }
  }

  lemma {:induction false} LastChunkBlocks(chunks: seq<Chunk>, c: nat)
    requires chunks != [] && chunks[|chunks| - 1].cls == c
    ensures var n := |chunks| - 1;
            BlockSet(chunks, c) == BlockSet(chunks[..n], c) + Elements(Blocks(chunks[n].start, c, ADD_NODES))
  {
    var n := |chunks| - 1;
    var bs := Blocks(chunks[n].start, c, ADD_NODES);
    forall a ensures a in BlockSet(chunks, c) <==> a in BlockSet(chunks[..n], c) || a in bs {
      if a in bs {
        var i :| 0 <= i < ADD_NODES && a == bs[i];
        assert a == chunks[n].Block(i);
      }
      if a in BlockSet(chunks, c) {
        var k, i :| 0 <= k < |chunks| && 0 <= i < ADD_NODES && chunks[k].cls == c && a == chunks[k].Block(i);
        if k == n { assert a == bs[i]; } else { assert a == chunks[..n][k].Block(i); }
      }
    }
  }

  /** Conservation: live blocks plus free blocks of a class are exactly the
      blocks of the chunks malloc'd for that class. */
  lemma {:induction false} BlocksAreConserved(p: Pool, c: nat)
    requires Inv(p) && c < FREE_LISTS
    ensures |LiveOf(p, c)| + |p.free[c]| == ADD_NODES * ChunksOf(p.chunks, c)
  {
    var fs := Elements(p.free[c]);
    NoRepeatsCounts(p.free[c]);
    BlockSetCounts(p.chunks, c);
    BlocksPartition(p, c);
    DisjointCard(LiveOf(p, c), fs);
  }

  lemma BlocksPartition(p: Pool, c: nat)
    requires Inv(p) && c < FREE_LISTS
    ensures BlockSet(p.chunks, c) == LiveOf(p, c) + Elements(p.free[c])
    ensures LiveOf(p, c) !! Elements(p.free[c])
  {
    forall a ensures a in BlockSet(p.chunks, c) <==> IsBlock(p.chunks, a, c) {}
    forall a ensures a in LiveOf(p, c) <==> LiveIn(p, a, c) {}
    forall a ensures a in BlockSet(p.chunks, c) <==> a in LiveOf(p, c) || a in Elements(p.free[c]) {
      assert a in Elements(p.free[c]) <==> a in p.free[c];
      assert IsBlock(p.chunks, a, c) <==> a in p.free[c] || LiveIn(p, a, c);
    }
  }

  // ---------------------------------------------------------------- every run

  /** A call on the allocator: an allocation, with malloc's answer should the
      call need it, or a free with the size the block was asked with. */
  datatype Op = OpAlloc(size: int, got: int) | OpFree(addr: int, len: int)

  ghost predicate Legal(p: Pool, op: Op)
    requires |p.free| == FREE_LISTS
  {
    match op
    case OpAlloc(size, got) =>
      && 1 <= size <= MAX_BYTES
      && (p.free[FreeListIndex(size)] == [] ==> Fresh(p, got, FreeListIndex(size)))
    case OpFree(a, len) => 1 <= len <= MAX_BYTES && a in p.live && p.live[a] == len
  }

  ghost function Apply(p: Pool, op: Op): (q: Pool)
    requires |p.free| == FREE_LISTS && Legal(p, op)
    ensures |q.free| == FREE_LISTS
  {
    match op
    case OpAlloc(size, got) => Alloc(p, size, got)
    case OpFree(a, _) => Release(p, a)
  }

  lemma ApplyKeepsInv(p: Pool, op: Op)
    requires Inv(p) && Legal(p, op)
    ensures Inv(Apply(p, op))
  {
    match op
    case OpAlloc(size, got) =>
      var c := FreeListIndex(size);
      ClassHoldsRequest(size);
      if p.free[c] == [] {
        GrowKeepsInv(p, c, got);
        TakeKeepsInv(Grow(p, c, got), size);
      } else {
        TakeKeepsInv(p, size);
      }
    case OpFree(a, _) => ReleaseKeepsInv(p, a);
  }

  ghost const EMPTY: Pool := Pool(seq(FREE_LISTS, _ => []), map[], [])

  /** A run: every call is legal in the state the earlier calls left. */
  ghost predicate LegalRun(p: Pool, ops: seq<Op>)
    requires |p.free| == FREE_LISTS
    decreases |ops|
  {
    ops == [] || (Legal(p, ops[0]) && LegalRun(Apply(p, ops[0]), ops[1..]))
  }

  ghost function Run(p: Pool, ops: seq<Op>): (q: Pool)
    requires |p.free| == FREE_LISTS && LegalRun(p, ops)
    ensures |q.free| == FREE_LISTS
    decreases |ops|
  {
    if ops == [] then p else Run(Apply(p, ops[0]), ops[1..])
  }

  lemma EmptyIsSafe()
    ensures Inv(EMPTY)
  {
  }

  lemma {:induction false} RunKeepsInv(p: Pool, ops: seq<Op>)
    requires Inv(p) && LegalRun(p, ops)
    ensures Inv(Run(p, ops))
    decreases |ops|
  {
    if ops != [] {
      ApplyKeepsInv(p, ops[0]);
      RunKeepsInv(Apply(p, ops[0]), ops[1..]);
    }
  }

  /** Over every run from the empty pool: no two live blocks overlap, no live block overlaps a
      free one, no two free ones overlap, a free list holds each of its blocks once and only
      blocks of its own class, and every class conserves its blocks. */
  lemma {:induction false} EveryRunIsSafe(ops: seq<Op>)
    requires LegalRun(EMPTY, ops)
    ensures var p := Run(EMPTY, ops);
            && (forall a :: a in p.live ==> exists k :: 0 <= k < |p.chunks| && p.chunks[k].start <= a && a + p.live[a] <= p.chunks[k].End())
            && (forall a, b :: a in p.live && b in p.live && a != b ==> Disjoint(a, p.live[a], b, p.live[b]))
            && (forall a, c, b :: a in p.live && 0 <= c < FREE_LISTS && b in p.free[c] ==> Disjoint(a, p.live[a], b, BlockSize(c)))
            && (forall c :: 0 <= c < FREE_LISTS ==> NoRepeats(p.free[c]))
            && (forall c, a :: 0 <= c < FREE_LISTS && a in p.free[c] ==> IsBlock(p.chunks, a, c))
            && (forall c, a, d, b :: 0 <= c < FREE_LISTS && 0 <= d < FREE_LISTS && a in p.free[c] && b in p.free[d] && (a != b || c != d) ==>
                  Disjoint(a, BlockSize(c), b, BlockSize(d)))
            && (forall c :: 0 <= c < FREE_LISTS ==> |LiveOf(p, c)| + |p.free[c]| == ADD_NODES * ChunksOf(p.chunks, c))
  {
    EmptyIsSafe();
    RunKeepsInv(EMPTY, ops);
    var p := Run(EMPTY, ops);
    forall a | a in p.live ensures exists k :: 0 <= k < |p.chunks| && p.chunks[k].start <= a && a + p.live[a] <= p.chunks[k].End() {
      LiveBlockIsBacked(p, a);
    }
    forall a, b | a in p.live && b in p.live && a != b ensures Disjoint(a, p.live[a], b, p.live[b]) {
      LiveBlocksApart(p, a, b);
    }
    forall a, c, b | a in p.live && 0 <= c < FREE_LISTS && b in p.free[c] ensures Disjoint(a, p.live[a], b, BlockSize(c)) {
      LiveAndFreeApart(p, a, c, b);
    }
    forall c, a, d, b | 0 <= c < FREE_LISTS && 0 <= d < FREE_LISTS && a in p.free[c] && b in p.free[d] && (a != b || c != d)
      ensures Disjoint(a, BlockSize(c), b, BlockSize(d))
    {
      FreeBlocksApart(p, c, a, d, b);
    }
    forall c | 0 <= c < FREE_LISTS ensures |LiveOf(p, c)| + |p.free[c]| == ADD_NODES * ChunksOf(p.chunks, c) {
      BlocksAreConserved(p, c);
    }
  }

  // ---------------------------------------------------------------- memory

  /** A byte of memory: plain data, or one of the eight bytes of a stored link. */
  datatype Cell = Data(v: nat) | Link(target: int, part: int)

  type Memory = map<int, Cell>

  const NULLPTR := 0

  function Range(a: int, n: int): (r: set<int>)
    ensures forall k :: k in r <==> a <= k < a + n
    decreases n
  {
    if n <= 0 then {} else {a} + Range(a + 1, n - 1)
  }

  function StoreLink(mem: Memory, a: int, target: int): Memory {
    mem + map k | k in Range(a, ALIGN) :: Link(target, k - a)
  }

  function Fill(mem: Memory, a: int, n: int, v: nat): Memory {
    mem + map k | k in Range(a, n) :: Data(v)
  }

  ghost predicate Points(mem: Memory, a: int, target: int) {
    forall k :: a <= k < a + ALIGN ==> k in mem && mem[k] == Link(target, k - a)
  }

  function LoadLink(mem: Memory, a: int): (target: int)
    requires a in mem && mem[a].Link?
    ensures forall t :: Points(mem, a, t) ==> t == target
  {
    assert forall t :: Points(mem, a, t) ==> mem[a] == Link(t, 0);
    mem[a].target
  }

  /** The block linked after `s[i]`. */
  ghost function Next(s: seq<int>, i: nat): int { if i + 1 < |s| then s[i + 1] else NULLPTR }

  /** Following links from `head` visits exactly `s` and ends in null. */
  ghost predicate Chain(mem: Memory, head: int, s: seq<int>) {
    && head == (if s == [] then NULLPTR else s[0])
    && forall i :: 0 <= i < |s| ==> Points(mem, s[i], Next(s, i))
  }

  /** Every free list of `p` hangs off its head. */
  ghost predicate Lists(p: Pool, heads: seq<int>, mem: Memory) {
    && |heads| == |p.free| == FREE_LISTS
    && forall c :: 0 <= c < FREE_LISTS ==> Chain(mem, heads[c], p.free[c])
  }

  /** Memory outside `[a, a + n)` is untouched. */
  ghost predicate OnlyChanges(before: Memory, after: Memory, a: int, n: int) {
    forall k :: !(a <= k < a + n) ==> (k in before <==> k in after) && (k in before ==> before[k] == after[k])
  }

  lemma ChainKeeps(before: Memory, after: Memory, a: int, n: int, head: int, s: seq<int>)
    requires OnlyChanges(before, after, a, n) && Chain(before, head, s)
    requires forall i :: 0 <= i < |s| ==> Disjoint(a, n, s[i], ALIGN)
    ensures Chain(after, head, s)
  {
    forall i | 0 <= i < |s| ensures Points(after, s[i], Next(s, i)) {
      assert Points(before, s[i], Next(s, i));
    }
  }

  lemma ListsKeep(p: Pool, heads: seq<int>, before: Memory, after: Memory, a: int, n: int)
    requires Lists(p, heads, before) && OnlyChanges(before, after, a, n)
    requires forall c, b :: 0 <= c < FREE_LISTS && b in p.free[c] ==> Disjoint(a, n, b, ALIGN)
    ensures Lists(p, heads, after)
  {
    forall c | 0 <= c < FREE_LISTS ensures Chain(after, heads[c], p.free[c]) {
      ChainKeeps(before, after, a, n, heads[c], p.free[c]);
    }
  }

  /** A region that overlaps no chunk overlaps no free block. */
  lemma RegionApartFromFree(p: Pool, a: int, n: int)
    requires Inv(p)
    requires forall k :: 0 <= k < |p.chunks| ==> Disjoint(a, n, p.chunks[k].start, p.chunks[k].End() - p.chunks[k].start)
    ensures forall c, b :: 0 <= c < FREE_LISTS && b in p.free[c] ==> Disjoint(a, n, b, ALIGN)
  {
    forall c, b | 0 <= c < FREE_LISTS && b in p.free[c] ensures Disjoint(a, n, b, ALIGN) {
      assert IsBlock(p.chunks, b, c);
      var k, i :| 0 <= k < |p.chunks| && 0 <= i < ADD_NODES && p.chunks[k].cls == c && b == p.chunks[k].Block(i);
      BlockInsideChunk(p.chunks[k], i);
    }
  }

  /** User bytes of a live block overlap no free block. */
  lemma LiveApartFromFree(p: Pool, a: int)
    requires Inv(p) && a in p.live
    ensures forall c, b :: 0 <= c < FREE_LISTS && b in p.free[c] ==> Disjoint(a, p.live[a], b, ALIGN)
  {
    forall c, b | 0 <= c < FREE_LISTS && b in p.free[c] ensures Disjoint(a, p.live[a], b, ALIGN) {
      LiveAndFreeApart(p, a, c, b);
    }
  }

  // ---------------------------------------------------------------- the allocator as written

  datatype Answer = Granted(addr: int) | Aborted

  class MemoryPool {
    const heads: array<int>   // _free_list
    var poolStart: int
    var poolEnd: int
    var mallocVec: seq<int>
    var mem: Memory

    ghost var view: Pool
    ghost var leftovers: nat  // how often a leftover branch of ChunkAlloc ran
    ghost var deepest: nat    // deepest recursion of ChunkAlloc seen

    ghost predicate Valid()
      reads this, heads
    {
      && heads.Length == FREE_LISTS
      && Inv(view)
      && Lists(view, heads[..], mem)
      && poolStart == poolEnd
      && |mallocVec| == |view.chunks|
      && (forall k :: 0 <= k < |mallocVec| ==> mallocVec[k] == view.chunks[k].start)
      && leftovers == 0
      && deepest <= 1
    }

    constructor ()
      ensures Valid() && view == EMPTY && fresh(heads)
    {
      heads := new int[FREE_LISTS](_ => NULLPTR);
      poolStart, poolEnd := NULLPTR, NULLPTR;
      mallocVec := [];
      mem := map[];
      view := EMPTY;
      leftovers, deepest := 0, 0;
    }

    /** Carve `num` blocks of `size` bytes out of the window, asking malloc for a
        new region (`got`, null when malloc fails) when the window is too small.
        The contract covers every branch, also those the pool never takes. */
    method ChunkAlloc(size: int, num: int, got: int) returns (res: int, nums: int, failed: bool, ghost depth: nat)
      requires heads.Length == FREE_LISTS
      requires ALIGN <= size <= MAX_BYTES && num >= 1 && poolStart <= poolEnd
      modifies this`poolStart, this`poolEnd, this`mallocVec, this`mem, this`leftovers, heads
      ensures var left, need := old(poolEnd - poolStart), size * num;
        if left >= need then
          && !failed && depth == 0 && res == old(poolStart) && nums == num
          && poolStart == old(poolStart) + need && poolEnd == old(poolEnd) && mallocVec == old(mallocVec)
          && mem == old(mem) && heads[..] == old(heads[..]) && leftovers == old(leftovers)
        else if left >= size then
          && !failed && depth == 0 && res == old(poolStart) && nums == left / size
          && poolStart == old(poolStart) + size * nums && poolEnd == old(poolEnd) && mallocVec == old(mallocVec)
          && mem == old(mem) && heads[..] == old(heads[..]) && leftovers == old(leftovers) + 1
        else
          && depth <= 1 && failed == (got == NULLPTR)
          && (!failed ==> depth == 1 && res == got && nums == num && poolStart == poolEnd == got + need && mallocVec == old(mallocVec) + [got])
          && (left == 0 ==> mem == old(mem) && heads[..] == old(heads[..]) && leftovers == old(leftovers))
          && (left > 0 ==>
                && leftovers == old(leftovers) + 1
                && mem == StoreLink(old(mem), old(poolStart), old(heads[FreeListIndex(left)]))
                && heads[..] == old(heads[..])[FreeListIndex(size) := old(poolStart)])
      decreases if poolEnd - poolStart >= size * num then 0 else 1
    {
      var needBytes := size * num;
      var leftBytes := poolEnd - poolStart;
      if leftBytes >= needBytes {
        res := poolStart;
        poolStart := poolStart + needBytes;
        return res, num, false, 0;
      } else if leftBytes >= size {
        nums := leftBytes / size;
        needBytes := size * nums;
        res := poolStart;
        poolStart := poolStart + needBytes;
        leftovers := leftovers + 1;
        return res, nums, false, 0;
      }
      var bytesToGet := size * num;
      if leftBytes > 0 {
        var myFree := heads[FreeListIndex(leftBytes)];
        mem := StoreLink(mem, poolStart, myFree);
        heads[FreeListIndex(size)] := poolStart;
        leftovers := leftovers + 1;
      }
      poolStart := got;
      if poolStart == NULLPTR {
        return NULLPTR, num, true, 0;
      }
      mallocVec := mallocVec + [poolStart];
      poolEnd := poolStart + bytesToGet;
      res, nums, failed, depth := ChunkAlloc(size, num, got);
      depth := depth + 1;
    }

    method PoolMalloc(size: int, got: int) returns (r: Answer)
      requires Valid() && size >= 1
      // `got` is malloc's answer, should the call ask: null, or a region of its own
      requires size <= MAX_BYTES && view.free[FreeListIndex(size)] == [] ==> got == NULLPTR || Fresh(view, got, FreeListIndex(size))
      requires size > MAX_BYTES ==> got > 0 && forall k :: 0 <= k < |view.chunks| ==>
        Disjoint(got, size, view.chunks[k].start, view.chunks[k].End() - view.chunks[k].start)
      modifies this, heads
      ensures r.Aborted? <==> size <= MAX_BYTES && old(view.free[FreeListIndex(size)]) == [] && got == NULLPTR
      ensures r.Granted? ==> Valid() && (forall k :: r.addr <= k < r.addr + size ==> k in mem && mem[k] == Data(0))
      ensures r.Granted? && size > MAX_BYTES ==> r.addr == got && view == old(view)
      ensures r.Granted? && size <= MAX_BYTES ==>
        r.addr == AllocAddress(old(view), size, got) && view == Alloc(old(view), size, got)
    {
      if size > MAX_BYTES {
        RegionApartFromFree(view, got, size);
        ListsKeep(view, heads[..], mem, Fill(mem, got, size, 0), got, size);
        mem := Fill(mem, got, size, 0);
        return Granted(got);
      }
      r := TakeBlock(size, got);
      if r.Granted? {
        LiveApartFromFree(view, r.addr);
        ListsKeep(view, heads[..], mem, Fill(mem, r.addr, size, 0), r.addr, size);
        mem := Fill(mem, r.addr, size, 0);
      }
    }

    /** The steps PoolMalloc and PoolNew share: pop the head of the class, refilling it when empty. */
    method TakeBlock(size: int, got: int) returns (r: Answer)
      requires Valid() && 1 <= size <= MAX_BYTES
      requires view.free[FreeListIndex(size)] == [] ==> got == NULLPTR || Fresh(view, got, FreeListIndex(size))
      modifies this, heads
      ensures r.Aborted? <==> old(view.free[FreeListIndex(size)]) == [] && got == NULLPTR
      ensures r.Granted? ==> Valid() && r.addr == AllocAddress(old(view), size, got) && view == Alloc(old(view), size, got)
    {
      var c := FreeListIndex(size);
      ClassHoldsRequest(size);
      FreeListEmptyIffNull(view, heads[..], mem, c);
      var result := heads[c];
      if got != NULLPTR || view.free[c] != [] { ApplyKeepsInv(view, OpAlloc(size, got)); }
      if result == NULLPTR {
        r := ReFill(RoundUp(size), ADD_NODES, got);
        if r.Granted? {
          ThreadedChunkMakesLists(view, old(heads[..]), heads[..], old(mem), mem, size, got);
          view := Alloc(view, size, got);
        }
      } else {
        PopMakesLists(view, heads[..], mem, size);
        heads[c] := LoadLink(mem, result);
        view := Alloc(view, size, got);
        r := Granted(result);
      }
    }

    method PoolFree(addr: int, len: int)
      requires Valid()
      // a caller frees what it was given, with the size it asked for
      requires addr != NULLPTR && len <= MAX_BYTES ==> addr in view.live && view.live[addr] == len
      modifies this, heads
      ensures Valid()
      ensures view == if addr == NULLPTR || len > MAX_BYTES then old(view) else Release(old(view), addr)
    {
      if addr == NULLPTR {
        return;
      }
      if len > MAX_BYTES {
        return;  // handed back to malloc
      }
      var c := FreeListIndex(len);
      PushMakesLists(view, heads[..], mem, addr);
      ReleaseKeepsInv(view, addr);
      mem := StoreLink(mem, addr, heads[c]);
      heads[c] := addr;
      view := Release(view, addr);
    }

    /** The owner of a live block writes any byte of it: the pool is unaffected. */
    method UserWrite(addr: int, at: int, cell: Cell)
      requires Valid() && addr in view.live && addr <= at < addr + view.live[addr]
      modifies this`mem
      ensures Valid() && view == old(view) && mem == old(mem)[at := cell]
    {
      LiveApartFromFree(view, addr);
      ListsKeep(view, heads[..], mem, mem[at := cell], addr, view.live[addr]);
      mem := mem[at := cell];
    }

    /** Get `num` blocks of `size` bytes, hand out the first and thread the rest
        onto the empty free list of their class. */
    method ReFill(size: int, num: int, got: int) returns (r: Answer)
      requires heads.Length == FREE_LISTS && poolStart == poolEnd && deepest <= 1
      requires ALIGN <= size <= MAX_BYTES && BlockSize(FreeListIndex(size)) == size && num >= 1
      modifies this`poolStart, this`poolEnd, this`mallocVec, this`mem, this`leftovers, this`deepest, heads
      ensures r.Aborted? <==> got == NULLPTR
      ensures r.Granted? ==>
        var c := FreeListIndex(size);
        && r.addr == got
        && poolStart == poolEnd && mallocVec == old(mallocVec) + [got]
        && leftovers == old(leftovers) && deepest <= 1
        && (forall d :: 0 <= d < FREE_LISTS && d != c ==> heads[d] == old(heads[d]))
        && OnlyChanges(old(mem), mem, got, Chunk(got, c).Block(num) - got)
        && (if num == 1 then heads[c] == old(heads[c]) else Chain(mem, heads[c], Blocks(got, c, num)[1..]))
    {
      BytesPositive(size, num);
      var chunk, nums, failed, depth := ChunkAlloc(size, num, got);
      if failed {
        return Aborted;
      }
      deepest := if depth > deepest then depth else deepest;
      if nums == 1 {
        return Granted(chunk);
      }
      var c := FreeListIndex(size);
      heads[c] := chunk + size;
      ThreadBlocks(chunk, size, nums);
      return Granted(chunk);
    }

    /** The loop of ReFill: link the second to the last of `nums` adjoining blocks. */
    method ThreadBlocks(chunk: int, size: int, nums: int)
      requires ALIGN <= size <= MAX_BYTES && BlockSize(FreeListIndex(size)) == size && nums >= 2
      modifies this`mem
      ensures var region := Chunk(chunk, FreeListIndex(size));
        && Chain(mem, chunk + size, Blocks(chunk, region.cls, nums)[1..])
        && OnlyChanges(old(mem), mem, chunk, region.Block(nums) - chunk)
    {
      ghost var region := Chunk(chunk, FreeListIndex(size));
      var next := chunk + size;
      var i := 1;
      while true
        invariant 1 <= i < nums && next == region.Block(i)
        invariant Threaded(old(mem), mem, region, i)
        decreases nums - i
      {
        var current := next;
        next := next + size;
        if nums - 1 == i {
          LastLinkMakesChain(old(mem), mem, region, i);
          mem := StoreLink(mem, current, NULLPTR);
          break;
        } else {
          LinkOneMore(old(mem), mem, region, i);
          mem := StoreLink(mem, current, next);
        }
        i := i + 1;
      }
    }
  }

  lemma BytesPositive(size: int, num: int)
    requires size > 0 && num > 0
    ensures size * num > 0
  {
  }

  /** Blocks 1 to i - 1 link to their neighbours and nothing past them has changed. */
  ghost predicate Threaded(before: Memory, mem: Memory, ch: Chunk, i: nat) {
    && (forall j :: 1 <= j < i ==> Points(mem, ch.Block(j), ch.Block(j + 1)))
    && OnlyChanges(before, mem, ch.start, ch.Block(i) - ch.start)
  }

  lemma LinksOneMore(mem: Memory, ch: Chunk, i: nat)
    requires i >= 1 && forall j :: 1 <= j < i ==> Points(mem, ch.Block(j), ch.Block(j + 1))
    ensures forall j :: 1 <= j < i + 1 ==> Points(StoreLink(mem, ch.Block(i), ch.Block(i + 1)), ch.Block(j), ch.Block(j + 1))
  {
    StoreIsLocal(mem, ch.Block(i), ch.Block(i + 1));
    EarlierLinksStand(mem, StoreLink(mem, ch.Block(i), ch.Block(i + 1)), ch, i);
  }

  lemma ChangesOneMore(before: Memory, mem: Memory, ch: Chunk, i: nat)
    requires i >= 1 && OnlyChanges(before, mem, ch.start, ch.Block(i) - ch.start)
    ensures OnlyChanges(before, StoreLink(mem, ch.Block(i), ch.Block(i + 1)), ch.start, ch.Block(i + 1) - ch.start)
  {
    var a := ch.Block(i);
    BlocksOfChunkApart(ch, 0, i);
    StoreIsLocal(mem, a, ch.Block(i + 1));
    ChangesCompose(before, mem, StoreLink(mem, a, ch.Block(i + 1)), ch.start, a - ch.start, BlockSize(ch.cls));
  }

  lemma LinkOneMore(before: Memory, mem: Memory, ch: Chunk, i: nat)
    requires i >= 1 && Threaded(before, mem, ch, i)
    ensures Threaded(before, StoreLink(mem, ch.Block(i), ch.Block(i + 1)), ch, i + 1)
  {
    LinksOneMore(mem, ch, i);
    ChangesOneMore(before, mem, ch, i);
  }

  lemma StoreIsLocal(mem: Memory, a: int, target: int)
    ensures Points(StoreLink(mem, a, target), a, target)
    ensures OnlyChanges(mem, StoreLink(mem, a, target), a, ALIGN)
  {
  }

  lemma ChangesCompose(m0: Memory, m1: Memory, m2: Memory, a: int, n: nat, w: int)
    requires OnlyChanges(m0, m1, a, n) && OnlyChanges(m1, m2, a + n, ALIGN) && ALIGN <= w
    ensures OnlyChanges(m0, m2, a, n + w)
  {
  }

  lemma {:induction false} LastLinkMakesChain(before: Memory, mem: Memory, ch: Chunk, i: nat)
    requires i >= 1 && Threaded(before, mem, ch, i)
    ensures var after := StoreLink(mem, ch.Block(i), NULLPTR);
            && Chain(after, ch.Block(1), Blocks(ch.start, ch.cls, i + 1)[1..])
            && OnlyChanges(before, after, ch.start, ch.Block(i + 1) - ch.start)
  {
    var after := StoreLink(mem, ch.Block(i), NULLPTR);
    EarlierLinksStand(mem, after, ch, i);
    var s := Blocks(ch.start, ch.cls, i + 1)[1..];
    forall k | 0 <= k < |s| ensures Points(after, s[k], Next(s, k)) {
      assert s[k] == ch.Block(k + 1);
      if k + 1 < |s| { assert s[k + 1] == ch.Block(k + 2); }
    }
  }

  lemma {:induction false} EarlierLinksStand(before: Memory, after: Memory, ch: Chunk, i: nat)
    requires i >= 1 && OnlyChanges(before, after, ch.Block(i), ALIGN)
    requires forall j :: 1 <= j < i ==> Points(before, ch.Block(j), ch.Block(j + 1))
    ensures forall j :: 1 <= j < i ==> Points(after, ch.Block(j), ch.Block(j + 1))
    ensures ch.start <= ch.Block(i)
  {
    BlocksOfChunkApart(ch, 0, i);
    forall j | 1 <= j < i ensures Points(after, ch.Block(j), ch.Block(j + 1)) {
      BlocksOfChunkApart(ch, j, i);
      assert Points(before, ch.Block(j), ch.Block(j + 1));
    }
  }

  lemma FreeListEmptyIffNull(p: Pool, heads: seq<int>, mem: Memory, c: nat)
    requires Inv(p) && Lists(p, heads, mem) && c < FREE_LISTS
    ensures heads[c] == NULLPTR <==> p.free[c] == []
    ensures p.free[c] != [] ==> heads[c] == p.free[c][0] && Points(mem, heads[c], Next(p.free[c], 0))
  {
    assert Chain(mem, heads[c], p.free[c]);
    if p.free[c] != [] {
      assert IsBlock(p.chunks, p.free[c][0], c);
      var k, i :| 0 <= k < |p.chunks| && 0 <= i < ADD_NODES && p.chunks[k].cls == c && p.free[c][0] == p.chunks[k].Block(i);
      BlockInsideChunk(p.chunks[k], i);
    }
  }

  lemma {:induction false} PopMakesLists(p: Pool, heads: seq<int>, mem: Memory, size: int)
    requires Inv(p) && Lists(p, heads, mem) && 1 <= size <= MAX_BYTES && p.free[FreeListIndex(size)] != []
    ensures var c := FreeListIndex(size);
            Lists(Take(p, size), heads[c := Next(p.free[c], 0)], mem)
  {
    var c := FreeListIndex(size);
    var s, t := p.free[c], p.free[c][1..];
    assert Chain(mem, heads[c], s);
    forall i | 0 <= i < |t| ensures Points(mem, t[i], Next(t, i)) {
      assert t[i] == s[i + 1] && Next(t, i) == Next(s, i + 1);
    }
  }

  lemma {:induction false} PushMakesLists(p: Pool, heads: seq<int>, mem: Memory, a: int)
    requires Inv(p) && Lists(p, heads, mem) && a in p.live
    ensures var c := FreeListIndex(p.live[a]);
            0 <= c < FREE_LISTS && Lists(Release(p, a), heads[c := a], StoreLink(mem, a, heads[c]))
  {
    var c := FreeListIndex(p.live[a]);
    ClassHoldsRequest(p.live[a]);
    var after := StoreLink(mem, a, heads[c]);
    StoreIsLocal(mem, a, heads[c]);
    LinkApartFromFree(p, a);
    ListsKeep(p, heads, mem, after, a, ALIGN);
    var s, t := p.free[c], [a] + p.free[c];
    assert Chain(after, heads[c], s);
    forall i | 0 <= i < |t| ensures Points(after, t[i], Next(t, i)) {
      if i > 0 { assert t[i] == s[i - 1] && Next(t, i) == Next(s, i - 1); }
    }
  }

  /** A link stored in a live block overlaps no free block. */
  lemma LinkApartFromFree(p: Pool, a: int)
    requires Inv(p) && a in p.live
    ensures forall c, b :: 0 <= c < FREE_LISTS && b in p.free[c] ==> Disjoint(a, ALIGN, b, ALIGN)
  {
    LiveBlockIsBacked(p, a);
    forall c, b | 0 <= c < FREE_LISTS && b in p.free[c] ensures Disjoint(a, ALIGN, b, ALIGN) {
      assert IsBlock(p.chunks, b, c);
      BlocksApart(p.chunks, a, FreeListIndex(p.live[a]), b, c);
    }
  }

  /** A freshly threaded chunk, with its first block handed out, is the grown pool minus that block. */
  lemma {:induction false} ThreadedChunkMakesLists(p: Pool, heads: seq<int>, heads': seq<int>, before: Memory, after: Memory, size: int, got: int)
    requires Inv(p) && Lists(p, heads, before) && 1 <= size <= MAX_BYTES
    requires |heads'| == FREE_LISTS
    requires var c := FreeListIndex(size);
             && p.free[c] == [] && Fresh(p, got, c)
             && (forall d :: 0 <= d < FREE_LISTS && d != c ==> heads'[d] == heads[d])
             && OnlyChanges(before, after, got, Chunk(got, c).Block(ADD_NODES) - got)
             && Chain(after, heads'[c], Blocks(got, c, ADD_NODES)[1..])
    ensures Lists(Take(Grow(p, FreeListIndex(size), got), size), heads', after)
  {
    var c := FreeListIndex(size);
    ClassHoldsRequest(size);
    BlockIsMultiple(Chunk(got, c), ADD_NODES);
    RegionApartFromFree(p, got, ADD_NODES * BlockSize(c));
    ListsKeep(p, heads, before, after, got, ADD_NODES * BlockSize(c));
  }
}
