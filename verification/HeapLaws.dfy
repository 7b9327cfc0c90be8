/** What the allocator guarantees over whole runs: the layout depends on the allocated blocks
alone, freeing undoes allocating, and first fit fails only when nothing fits. */
module HeapLaws {
  import opened Sequences
  import opened Words
  import opened Rings
  import opened Blocks
  import opened HeapMemory
  import opened HeapAllocator

  // ---------------------------------------------------------------------------------------
  // The layout is a function of the allocated blocks
  // ---------------------------------------------------------------------------------------

  lemma LiveTail(bs: Layout, lo: nat, hi: nat)
    requires Tiled(bs, lo, hi) && bs != []
    ensures Live(bs[1..]) == Live(bs) - {bs[0]}
  {
    TiledOrder(bs, lo, hi);
    assert bs == [bs[0]] + bs[1..];
  }

  lemma CoalescedTail(bs: Layout)
    requires Coalesced(bs) && bs != []
    ensures Coalesced(bs[1..])
  {
    var t := bs[1..];
    forall i, j | 0 <= i && j == i + 1 && j < |t|
      ensures !(t[i].free && t[j].free)
    {
      assert t[i] == bs[i + 1] && t[j] == bs[j + 1];
    }
  }

  /** The first blocks of two coalesced layouts with the same allocated blocks agree. */
  lemma FirstBlock(xs: Layout, ys: Layout, lo: nat, hi: nat)
    requires Tiled(xs, lo, hi) && Tiled(ys, lo, hi)
    requires Coalesced(xs) && Coalesced(ys)
    requires Live(xs) == Live(ys)
    requires xs != [] && ys != []
    requires xs[0].free ==> ys[0].free ==> xs[0].size <= ys[0].size
    ensures xs[0] == ys[0]
  {
    TiledOrder(xs, lo, hi);
    TiledOrder(ys, lo, hi);
    assert xs[0].free || xs[0] in Live(ys);
    assert ys[0].free || ys[0] in Live(xs);
    assert |xs| > 1 ==> xs[1].free || xs[1] in Live(ys);
  }

  /** Two coalesced layouts of the same heap with the same allocated blocks are equal. */
  lemma {:induction false} LayoutCanonical(xs: Layout, ys: Layout, lo: nat, hi: nat)
    requires Tiled(xs, lo, hi) && Tiled(ys, lo, hi)
    requires Coalesced(xs) && Coalesced(ys)
    requires Live(xs) == Live(ys)
    ensures xs == ys
  {
    TiledOrder(xs, lo, hi);
    TiledOrder(ys, lo, hi);
    if xs != [] && ys != [] {
      if xs[0].free && ys[0].free && ys[0].size < xs[0].size {
        FirstBlock(ys, xs, lo, hi);
      } else {
        FirstBlock(xs, ys, lo, hi);
      }
      LiveTail(xs, lo, hi);
      LiveTail(ys, lo, hi);
      CoalescedTail(xs);
      CoalescedTail(ys);
      LayoutCanonical(xs[1..], ys[1..], xs[0].End(), hi);
      assert xs == [xs[0]] + xs[1..] && ys == [ys[0]] + ys[1..];
    }
  }

  // ---------------------------------------------------------------------------------------
  // First fit fails only when nothing fits
  // ---------------------------------------------------------------------------------------

  /** No allocated block has a byte among the `n` bytes from `x`. */
  ghost predicate Unallocated(bs: Layout, x: int, n: nat) {
    forall b :: b in bs && !b.free ==> x + n <= b.addr || b.End() <= x
  }

  /** Every address of the heap lies in some block. */
  lemma {:induction false} BlockOf(bs: Layout, lo: nat, hi: nat, x: int) returns (i: nat)
    requires Tiled(bs, lo, hi) && lo <= x < hi
    ensures i < |bs| && bs[i].addr <= x < bs[i].End()
  {
    if x < bs[0].End() {
      i := 0;
    } else {
      i := BlockOf(bs[1..], bs[0].End(), hi, x);
      i := i + 1;
    }
  }

  /** In a coalesced layout, every stretch of unallocated bytes lies in one free block. */
  lemma RunInOneBlock(bs: Layout, lo: nat, hi: nat, x: int, n: nat) returns (i: nat)
    requires Tiled(bs, lo, hi) && Coalesced(bs)
    requires n > 0 && lo <= x && x + n <= hi && Unallocated(bs, x, n)
    ensures i < |bs| && bs[i].free && bs[i].addr <= x && x + n <= bs[i].End()
  {
    i := BlockOf(bs, lo, hi, x);
    TiledOrder(bs, lo, hi);
    assert bs[i] in bs;
    if i + 1 < |bs| {
      assert bs[i + 1] in bs;
    }
  }

  ghost predicate StateInv(g: Geometry, s: State) {
    && g.base % 4 == 0 && 0 < g.base && MIN_BLOCK <= g.size && g.size % 4 == 0
    && Tiled(s.blocks, g.base, g.End())
    && Coalesced(s.blocks)
    && NodesOf(s.ring) == FreeNodes(s.blocks)
    && NoDup(s.ring)
  }

  /** The heap class keeps exactly this invariant between calls. */
  lemma ValidStates(m: seq<Word>, g: Geometry, s: State)
    requires HeapInv(m, g, s) && Coalesced(s.blocks)
    ensures StateInv(g, s)
  {
    RingNoDup(m, g.head, s.ring);
  }

  lemma NodeOfFree(g: Geometry, s: State, i: nat)
    requires StateInv(g, s) && i < |s.blocks| && s.blocks[i].free
    ensures exists k :: 0 <= k < |s.ring| && s.ring[k] == s.blocks[i].Payload()
    ensures SizeAt(s.blocks, s.blocks[i].Payload()) == s.blocks[i].size
  {
    assert s.blocks[i] in s.blocks && s.blocks[i].Payload() in NodesOf(s.ring);
    HomeUnique(s.blocks, g.base, g.End(), i);
  }

  /** What first fit finds: a free block, at the earliest place of the free list whose block is
      large enough. */
  lemma FirstFitFinds(g: Geometry, s: State, size: nat)
    requires StateInv(g, s) && size > 0
    requires FirstFit(s.blocks, s.ring, size) < |s.ring|
    ensures var k := FirstFit(s.blocks, s.ring, size);
            var i := HomeOf(s.blocks, s.ring[k]);
            && i < |s.blocks| && s.blocks[i].free && s.blocks[i].size >= size
            && s.blocks[i].Payload() == s.ring[k] && s.ring[k] > 4
  {
    var k := FirstFit(s.blocks, s.ring, size);
    assert s.ring[k] in NodesOf(s.ring);
    var b :| b in s.blocks && b.free && b.Payload() == s.ring[k];
    var j :| 0 <= j < |s.blocks| && s.blocks[j] == b;
    HomeUnique(s.blocks, g.base, g.End(), j);
    TiledOrder(s.blocks, g.base, g.End());
  }

  /** An allocation fails exactly when no stretch of `size` bytes of the heap is unallocated. */
  lemma AllocateComplete(g: Geometry, s: State, size: nat)
    requires StateInv(g, s) && size > 0
    ensures Allocate(s, size).1 == NULL <==>
            !exists x :: g.base <= x && x + size <= g.End() && Unallocated(s.blocks, x, size)
  {
    TiledOrder(s.blocks, g.base, g.End());
    var k := FirstFit(s.blocks, s.ring, size);
    if k < |s.ring| {
      FirstFitFinds(g, s, size);
      var i := HomeOf(s.blocks, s.ring[k]);
      assert Unallocated(s.blocks, s.blocks[i].addr, size);
    } else {
      forall x | g.base <= x && x + size <= g.End() && Unallocated(s.blocks, x, size)
        ensures false
      {
        var i := RunInOneBlock(s.blocks, g.base, g.End(), x, size);
        NodeOfFree(g, s, i);
      }
    }
  }

  // ---------------------------------------------------------------------------------------
  // Every step keeps the invariant
  // ---------------------------------------------------------------------------------------

  lemma RemoveNodes(xs: seq<nat>, x: nat)
    requires NoDup(xs)
    ensures NodesOf(Remove(xs, x)) == NodesOf(xs) - {x}
    ensures NoDup(Remove(xs, x))
  {
    var k := Position(xs, x);
    if k < |xs| {
      WithoutIs(xs, k);
    }
  }

  lemma PrependNode(x: nat, xs: seq<nat>)
    requires NoDup(xs) && x !in NodesOf(xs)
    ensures NodesOf([x] + xs) == NodesOf(xs) + {x} && NoDup([x] + xs)
  {
  }

  /** The block that allocating `size` bytes from free block `b` hands out. */
  function Granted(b: Block, size: nat): Block {
    Carve(b, size)[0]
  }

  lemma CarveSets(b: Block, size: nat)
    requires WellFormed(b) && MIN_BLOCK <= size <= b.size && size % 4 == 0
    ensures Tiled(Carve(b, size), b.addr, b.End())
    ensures Live(Carve(b, size)) == {Granted(b, size)}
    ensures FreeNodes(Carve(b, size)) == if b.size < size + MIN_BLOCK then {} else {b.Payload() + size}
  {
    if b.size < size + MIN_BLOCK {
      TiledSingle(Granted(b, size));
      Single(Granted(b, size));
    } else {
      var c, d := Granted(b, size), Carve(b, size)[1];
      TiledPair(c, d);
      assert [c] + [d] == Carve(b, size);
      assert c in Carve(b, size) && d in Carve(b, size);
      assert FreeNodes(Carve(b, size)) == {d.Payload()};
    }
  }

  lemma GrantEffect(bs: Layout, lo: nat, hi: nat, i: nat, size: nat)
    requires Tiled(bs, lo, hi) && i < |bs| && bs[i].free
    requires MIN_BLOCK <= size <= bs[i].size && size % 4 == 0
    ensures Tiled(Grant(bs, i, size), lo, hi)
    ensures Live(Grant(bs, i, size)) == Live(bs) + {Granted(bs[i], size)} && Granted(bs[i], size) !in Live(bs)
    ensures FreeNodes(Grant(bs, i, size)) ==
            FreeNodes(bs) - {bs[i].Payload()} + (if bs[i].size < size + MIN_BLOCK then {} else {bs[i].Payload() + size})
    ensures bs[i].size >= size + MIN_BLOCK ==> bs[i].Payload() + size !in FreeNodes(bs)
  {
    hide Tiled, FreeNodes, Live, Carve;
    BlockPlace(bs, lo, hi, i);
    CarveSets(bs[i], size);
    assert bs[i..i + 1] == [bs[i]];
    Single(bs[i]);
    TiledReplace(bs, lo, hi, i, i + 1, Carve(bs[i], size));
    ReplaceSets(bs, lo, hi, i, i + 1, Carve(bs[i], size));
    AbsorbSets(bs, lo, hi, i, i + 1, Carve(bs[i], size));
    if bs[i].size >= size + MIN_BLOCK {
      InsideNotNode(bs, lo, hi, i, bs[i].Payload() + size);
    }
  }

  /** An address well inside a block is no other block's node. */
  lemma InsideNotNode(bs: Layout, lo: nat, hi: nat, i: nat, x: nat)
    requires Tiled(bs, lo, hi) && i < |bs| && bs[i].Payload() < x < bs[i].End()
    ensures x !in FreeNodes(bs)
  {
    TiledOrder(bs, lo, hi);
    forall b | b in bs && b.free
      ensures b.Payload() != x
    {
      var j :| 0 <= j < |bs| && bs[j] == b;
    }
  }

  lemma BlockPlace(bs: Layout, lo: nat, hi: nat, i: nat)
    requires Tiled(bs, lo, hi) && i < |bs|
    ensures WellFormed(bs[i]) && Cut(bs, hi, i) == bs[i].addr && Cut(bs, hi, i + 1) == bs[i].End()
    ensures lo <= bs[i].addr && bs[i].End() <= hi
  {
    TiledOrder(bs, lo, hi);
  }

  /** Allocation hands out a block of its own and keeps everything else. */
  lemma AllocateKeeps(g: Geometry, s: State, size: nat)
    requires StateInv(g, s) && MIN_BLOCK <= size && size % 4 == 0
    requires Allocate(s, size).1 != NULL
    ensures StateInv(g, Allocate(s, size).0)
    ensures var (s', p) := Allocate(s, size);
            var b := s.blocks[HomeOf(s.blocks, p)];
            && HomeOf(s.blocks, p) < |s.blocks|
            && b.free && b.Payload() == p && b.size >= size
            && Live(s'.blocks) == Live(s.blocks) + {Granted(b, size)}
            && Granted(b, size) !in Live(s.blocks)
  {
    hide Tiled, FreeNodes, Live, Coalesced, Grant, HomeOf, Position;
    FirstFitFinds(g, s, size);
    var (s', p) := Allocate(s, size);
    var i := HomeOf(s.blocks, p);
    var b := s.blocks[i];
    GrantEffect(s.blocks, g.base, g.End(), i, size);
    GrantCoalesced(s.blocks, i, size);
    RemoveNodes(s.ring, p);
    if b.size >= size + MIN_BLOCK {
      PrependNode(p + size, Remove(s.ring, p));
    }
    assert s'.ring == (if b.size < size + MIN_BLOCK then [] else [p + size]) + Remove(s.ring, p);
    assert [] + Remove(s.ring, p) == Remove(s.ring, p);
  }

  lemma {:induction false} SpanCut(bs: Layout, from: nat, to: nat, lo: nat, hi: nat)
    requires Tiled(bs, from, to) && lo <= hi <= |bs|
    ensures Span(bs, lo, hi) == Cut(bs, to, hi) - Cut(bs, to, lo)
    decreases hi - lo
  {
    if lo < hi {
      BlockPlace(bs, from, to, lo);
      SpanCut(bs, from, to, lo + 1, hi);
    }
  }

  lemma SpanAligned(bs: Layout, from: nat, to: nat, lo: nat, hi: nat)
    requires Tiled(bs, from, to) && lo < hi <= |bs|
    ensures Span(bs, lo, hi) >= MIN_BLOCK && Span(bs, lo, hi) % 4 == 0
    decreases hi - lo
  {
    BlockPlace(bs, from, to, lo);
    if lo + 1 < hi {
      SpanAligned(bs, from, to, lo + 1, hi);
    }
  }

  /** The nodes of the free neighbours that freeing block `i` absorbs. */
  ghost function Absorbed(bs: Layout, i: nat): set<nat>
    requires i < |bs|
  {
    (if MergeLo(bs, i) < i then {bs[i - 1].Payload()} else {})
    + (if i + 1 < MergeHi(bs, i) then {bs[i + 1].Payload()} else {})
  }

  lemma AbsorbedPart(bs: Layout, i: nat)
    requires i < |bs| && !bs[i].free
    ensures Live(bs[MergeLo(bs, i)..MergeHi(bs, i)]) == {bs[i]}
    ensures FreeNodes(bs[MergeLo(bs, i)..MergeHi(bs, i)]) == Absorbed(bs, i)
  {
    var lo, hi := MergeLo(bs, i), MergeHi(bs, i);
    var part := bs[lo..hi];
    var down := if lo < i then [bs[i - 1]] else [];
    var up := if i + 1 < hi then [bs[i + 1]] else [];
    assert part == down + [bs[i]] + up;
    Single(bs[i]);
    if lo < i {
      Single(bs[i - 1]);
    }
    if i + 1 < hi {
      Single(bs[i + 1]);
    }
    assert Live(part) == Live(down) + Live([bs[i]]) + Live(up);
    assert FreeNodes(part) == FreeNodes(down) + FreeNodes([bs[i]]) + FreeNodes(up);
  }

  lemma ReleaseEffect(bs: Layout, from: nat, to: nat, i: nat)
    requires Tiled(bs, from, to) && i < |bs| && !bs[i].free
    ensures Tiled(Release(bs, i), from, to)
    ensures Live(Release(bs, i)) == Live(bs) - {bs[i]}
    ensures FreeNodes(Release(bs, i)) == FreeNodes(bs) - Absorbed(bs, i) + {bs[MergeLo(bs, i)].Payload()}
    ensures bs[MergeLo(bs, i)].Payload() !in FreeNodes(bs) - Absorbed(bs, i)
  {
    hide Tiled, FreeNodes, Live;
    var lo, hi := MergeLo(bs, i), MergeHi(bs, i);
    var mid := Block(bs[lo].addr, Span(bs, lo, hi), true);
    BlockPlace(bs, from, to, lo);
    SpanCut(bs, from, to, lo, hi);
    SpanAligned(bs, from, to, lo, hi);
    TiledSingle(mid);
    TiledReplace(bs, from, to, lo, hi, [mid]);
    ReplaceSets(bs, from, to, lo, hi, [mid]);
    AbsorbedPart(bs, i);
    Single(mid);
    if lo == i {
      LiveNotNode(bs, from, to, i);
    }
  }

  lemma LiveNotNode(bs: Layout, from: nat, to: nat, i: nat)
    requires Tiled(bs, from, to) && i < |bs| && !bs[i].free
    ensures bs[i].Payload() !in FreeNodes(bs)
  {
    TiledOrder(bs, from, to);
  }

  /** Liberation takes away the freed block and keeps every other allocated one. */
  lemma LiberateKeeps(g: Geometry, s: State, p: nat)
    requires StateInv(g, s) && LivePayload(s.blocks, p)
    ensures StateInv(g, Liberate(s, p))
    ensures Live(Liberate(s, p).blocks) == Live(s.blocks) - {s.blocks[HomeOf(s.blocks, p)]}
  {
    hide Tiled, FreeNodes, Live, Coalesced, Release, HomeOf, Remove;
    var i := HomeOf(s.blocks, p);
    var lo, hi := MergeLo(s.blocks, i), MergeHi(s.blocks, i);
    ReleaseEffect(s.blocks, g.base, g.End(), i);
    ReleaseCoalesced(s.blocks, i);
    var rest := if lo < i then Remove(s.ring, s.blocks[lo].Payload()) else s.ring;
    var rest' := if i + 1 < hi then Remove(rest, s.blocks[i + 1].Payload()) else rest;
    RemoveNodes(s.ring, s.blocks[lo].Payload());
    if i + 1 < hi {
      RemoveNodes(rest, s.blocks[i + 1].Payload());
    }
    assert NodesOf(rest') == NodesOf(s.ring) - Absorbed(s.blocks, i);
    PrependNode(s.blocks[lo].Payload(), rest');
  }

  // ---------------------------------------------------------------------------------------
  // Runs
  // ---------------------------------------------------------------------------------------

  datatype Op = Get(size: Word) | Free(ptr: nat)

  /** Callers free only pointers that they hold, or NULL. */
  predicate Legal(s: State, op: Op) {
    op.Free? && op.ptr != NULL ==> LivePayload(s.blocks, op.ptr)
  }

  function Step(s: State, op: Op): State
    requires Legal(s, op)
  {
    match op
    case Get(n) => if n == 0 then s else Allocate(s, BlockSizeFor(n)).0
    case Free(p) => if p == NULL then s else Liberate(s, p)
  }

  predicate LegalRun(s: State, ops: seq<Op>)
    decreases |ops|
  {
    ops == [] || (Legal(s, ops[0]) && LegalRun(Step(s, ops[0]), ops[1..]))
  }

  /** The heap after the calls `ops`, made in this order. */
  function Run(s: State, ops: seq<Op>): State
    requires LegalRun(s, ops)
    decreases |ops|
  {
    if ops == [] then s else Run(Step(s, ops[0]), ops[1..])
  }

  lemma FailedAllocate(s: State, size: nat)
    requires size > 0 && Allocate(s, size).1 == NULL
    ensures Allocate(s, size).0 == s
  {
  }

  lemma StepKeeps(g: Geometry, s: State, op: Op)
    requires StateInv(g, s) && Legal(s, op)
    ensures StateInv(g, Step(s, op))
  {
    if op.Get? && op.size != 0 {
      BlockSizeAligned(op.size);
      if Allocate(s, BlockSizeFor(op.size)).1 != NULL {
        AllocateKeeps(g, s, BlockSizeFor(op.size));
      } else {
        FailedAllocate(s, BlockSizeFor(op.size));
      }
    } else if op.Free? && op.ptr != NULL {
      LiberateKeeps(g, s, op.ptr);
    }
  }

  lemma InitialInv(g: Geometry)
    requires g.base % 4 == 0 && 0 < g.base && MIN_BLOCK <= g.size && g.size % 4 == 0
    ensures StateInv(g, Initial(g))
    ensures Live(Initial(g).blocks) == {}
  {
    var b := Block(g.base, g.size, true);
    TiledSingle(b);
    Single(b);
  }

  /** Whatever is allocated and freed, in any order, the heap stays tiled and coalesced and the
      free list holds every free block exactly once. */
  lemma {:induction false} RunKeeps(g: Geometry, s: State, ops: seq<Op>)
    requires StateInv(g, s) && LegalRun(s, ops)
    ensures StateInv(g, Run(s, ops))
    decreases |ops|
  {
    if ops != [] {
      StepKeeps(g, s, ops[0]);
      RunKeeps(g, Step(s, ops[0]), ops[1..]);
    }
  }

  /** Two runs that leave the same blocks allocated leave the same layout, however they got
      there: in particular, blocks may be freed in any order. */
  lemma RunsAgree(g: Geometry, s: State, ops: seq<Op>, ops': seq<Op>)
    requires StateInv(g, s) && LegalRun(s, ops) && LegalRun(s, ops')
    requires Live(Run(s, ops).blocks) == Live(Run(s, ops').blocks)
    ensures Run(s, ops).blocks == Run(s, ops').blocks
  {
    RunKeeps(g, s, ops);
    RunKeeps(g, s, ops');
    LayoutCanonical(Run(s, ops).blocks, Run(s, ops').blocks, g.base, g.End());
  }

  function Frees(ps: seq<nat>): seq<Op> {
    seq(|ps|, i requires 0 <= i < |ps| => Free(ps[i]))
  }

  lemma {:induction false} FreesLive(g: Geometry, s: State, ps: seq<nat>)
    requires StateInv(g, s) && LegalRun(s, Frees(ps))
    requires NULL !in ps
    ensures Live(Run(s, Frees(ps)).blocks) == set b | b in Live(s.blocks) && b.Payload() !in ps
    decreases |ps|
  {
    if ps == [] {
    } else {
      var s1 := Step(s, Free(ps[0]));
      assert Frees(ps)[0] == Free(ps[0]) && Frees(ps)[1..] == Frees(ps[1..]);
      StepKeeps(g, s, Free(ps[0]));
      LiberateKeeps(g, s, ps[0]);
      FreesLive(g, s1, ps[1..]);
      var i := HomeOf(s.blocks, ps[0]);
      forall b | b in Live(s.blocks) && b != s.blocks[i]
        ensures b.Payload() != ps[0]
      {
        var j :| 0 <= j < |s.blocks| && s.blocks[j] == b;
        HomeUnique(s.blocks, g.base, g.End(), j);
      }
      assert forall p :: p in ps <==> p == ps[0] || p in ps[1..];
    }
  }

  /** A sequence of frees is legal exactly when it frees distinct live pointers. */
  lemma {:induction false} FreesLegal(g: Geometry, s: State, ps: seq<nat>)
    requires StateInv(g, s) && NULL !in ps
    ensures LegalRun(s, Frees(ps)) <==> NoDup(ps) && forall p :: p in ps ==> LivePayload(s.blocks, p)
    decreases |ps|
  {
    hide StateInv, Liberate, LivePayload, Live, HomeOf;
    if ps != [] && LivePayload(s.blocks, ps[0]) {
      var s1 := Step(s, Free(ps[0]));
      assert Frees(ps)[0] == Free(ps[0]) && Frees(ps)[1..] == Frees(ps[1..]);
      LiberateKeeps(g, s, ps[0]);
      FreesLegal(g, s1, ps[1..]);
      forall p | p in ps[1..]
        ensures LivePayload(s1.blocks, p) <==> LivePayload(s.blocks, p) && p != ps[0]
      {
        LiveAfter(g, s, ps[0], p);
      }
      assert ps == [ps[0]] + ps[1..];
    }
  }

  lemma SameBagNoDup(ps: seq<nat>, qs: seq<nat>)
    requires multiset(ps) == multiset(qs) && NoDup(ps)
    ensures NoDup(qs) && forall p :: p in ps <==> p in qs
  {
    assert forall p :: p in qs ==> p in multiset(qs);
    assert forall p :: p in ps ==> p in multiset(ps);
    forall i, j | 0 <= i < j < |qs|
      ensures qs[i] != qs[j]
    {
      NoDupCounts(ps, qs[i]);
      if qs[i] == qs[j] {
        TwiceInBag(qs, i, j);
      }
    }
  }

  lemma LiveAfter(g: Geometry, s: State, q: nat, p: nat)
    requires StateInv(g, s) && LivePayload(s.blocks, q)
    ensures LivePayload(Liberate(s, q).blocks, p) <==> LivePayload(s.blocks, p) && p != q
  {
    var s1 := Liberate(s, q);
    LiberateKeeps(g, s, q);
    if LivePayload(s.blocks, p) && p != q {
      var b := s.blocks[HomeOf(s.blocks, p)];
      LiveHome(g, s1, b);
    }
    if LivePayload(s1.blocks, p) {
      var b := s1.blocks[HomeOf(s1.blocks, p)];
      LiveHome(g, s, b);
    }
  }

  /** Freeing the same pointers in another order is legal too, and gives the same layout. */
  lemma FreeOrderIrrelevant(g: Geometry, s: State, ps: seq<nat>, qs: seq<nat>)
    requires StateInv(g, s) && LegalRun(s, Frees(ps))
    requires NULL !in ps && multiset(ps) == multiset(qs)
    ensures LegalRun(s, Frees(qs))
    ensures Run(s, Frees(ps)).blocks == Run(s, Frees(qs)).blocks
  {
    FreesLegal(g, s, ps);
    SameBagNoDup(ps, qs);
    FreesLegal(g, s, qs);
    FreesLive(g, s, ps);
    FreesLive(g, s, qs);
    RunsAgree(g, s, Frees(ps), Frees(qs));
  }

  lemma SameLayout(g: Geometry, s: State, s': State)
    requires StateInv(g, s) && StateInv(g, s') && Live(s.blocks) == Live(s'.blocks)
    ensures s.blocks == s'.blocks
  {
    LayoutCanonical(s.blocks, s'.blocks, g.base, g.End());
  }

  lemma LiveHome(g: Geometry, s: State, c: Block)
    requires StateInv(g, s) && c in Live(s.blocks)
    ensures LivePayload(s.blocks, c.Payload()) && s.blocks[HomeOf(s.blocks, c.Payload())] == c
  {
    var j :| 0 <= j < |s.blocks| && s.blocks[j] == c;
    HomeUnique(s.blocks, g.base, g.End(), j);
  }

  /** Freeing what was just allocated restores the layout. */
  lemma FreeUndoesGet(g: Geometry, s: State, n: Word)
    requires StateInv(g, s) && n > 0
    requires Allocate(s, BlockSizeFor(n)).1 != NULL
    ensures var (s', p) := Allocate(s, BlockSizeFor(n));
            LivePayload(s'.blocks, p) && Liberate(s', p).blocks == s.blocks
  {
    hide StateInv, BlockSizeFor, Allocate, Liberate, HomeOf;
    var size := BlockSizeFor(n);
    BlockSizeAligned(n);
    var (s', p) := Allocate(s, size);
    AllocateKeeps(g, s, size);
    var c := Granted(s.blocks[HomeOf(s.blocks, p)], size);
    LiveHome(g, s', c);
    LiberateKeeps(g, s', p);
    SameLayout(g, Liberate(s', p), s);
  }

  /** What was freed last is allocated first: the next request that fits in it gets the free block
      that it has become part of. */
  lemma LastFreedFirst(g: Geometry, s: State, p: nat, size: nat)
    requires StateInv(g, s) && LivePayload(s.blocks, p)
    requires 0 < size <= s.blocks[HomeOf(s.blocks, p)].size
    ensures var b, q := s.blocks[HomeOf(s.blocks, p)], Allocate(Liberate(s, p), size).1;
            q != NULL && q <= p && Unallocated(Liberate(s, p).blocks, q - 4, p - q + b.size)
  {
    hide Tiled, FreeNodes, Live, Coalesced, Remove, HomeOf, Unallocated, FirstFit, Grant;
    var i, s' := HomeOf(s.blocks, p), Liberate(s, p);
    var lo, hi := MergeLo(s.blocks, i), MergeHi(s.blocks, i);
    BlockPlace(s.blocks, g.base, g.End(), i);
    BlockPlace(s.blocks, g.base, g.End(), lo);
    SpanCut(s.blocks, g.base, g.End(), lo, hi);
    SpanCut(s.blocks, g.base, g.End(), lo, i);
    SpanCut(s.blocks, g.base, g.End(), i, i + 1);
    SpanSplit(s.blocks, lo, i, hi);
    SpanSplit(s.blocks, i, i + 1, hi);
    LiberateKeeps(g, s, p);
    assert s'.blocks[lo] == Block(s.blocks[lo].addr, Span(s.blocks, lo, hi), true);
    FreeIsUnallocated(g, s', lo, s'.blocks[lo]);
    UnallocatedPart(s'.blocks, s'.blocks[lo].addr, s'.blocks[lo].size, p - s'.ring[0] + s.blocks[i].size);
    HomeUnique(s'.blocks, g.base, g.End(), lo);
    FirstFitIs(s'.blocks, s'.ring, size, 0);
  }

  lemma UnallocatedPart(bs: Layout, x: int, n: nat, k: nat)
    requires Unallocated(bs, x, n) && k <= n
    ensures Unallocated(bs, x, k)
  {
  }

  lemma OneNode(xs: seq<nat>, x: nat)
    requires NodesOf(xs) == {x} && NoDup(xs)
    ensures xs == [x]
  {
    NoDupSize(xs);
    assert xs[0] in NodesOf(xs);
  }

  lemma {:induction false} NoDupSize(xs: seq<nat>)
    requires NoDup(xs)
    ensures |NodesOf(xs)| == |xs|
  {
    if xs != [] {
      NoDupSize(xs[1..]);
      assert xs == [xs[0]] + xs[1..];
      assert NodesOf(xs) == {xs[0]} + NodesOf(xs[1..]);
    }
  }

  /** When every block has been freed, one free block covers the heap again. */
  lemma AllFreed(g: Geometry, ops: seq<Op>)
    requires StateInv(g, Initial(g)) && LegalRun(Initial(g), ops)
    requires Live(Run(Initial(g), ops).blocks) == {}
    ensures Run(Initial(g), ops) == Initial(g)
  {
    var s := Run(Initial(g), ops);
    RunKeeps(g, Initial(g), ops);
    InitialInv(g);
    LayoutCanonical(s.blocks, Initial(g).blocks, g.base, g.End());
    Single(s.blocks[0]);
    assert NodesOf(s.ring) == {g.base + 4};
    OneNode(s.ring, g.base + 4);
  }

  // ---------------------------------------------------------------------------------------
  // What callers get
  // ---------------------------------------------------------------------------------------

  lemma BlockShape(b: Block)
    requires WellFormed(b)
    ensures b.Payload() % 4 == 0 && b.Payload() + 8 <= b.End() - 4
  {
    var q := b.addr / 4;
    assert b.addr == 4 * q;
  }

  /** The payloads callers hold are aligned, in the heap, and disjoint. */
  lemma PayloadsDisjoint(g: Geometry, s: State, b: Block, c: Block)
    requires StateInv(g, s) && b in Live(s.blocks) && c in Live(s.blocks) && b != c
    ensures b.Payload() % 4 == 0 && g.base < b.Payload() && b.Payload() + 8 <= b.End() - 4 < g.End()
    ensures b.End() <= c.addr || c.End() <= b.addr
  {
    TiledOrder(s.blocks, g.base, g.End());
    var i :| 0 <= i < |s.blocks| && s.blocks[i] == b;
    var j :| 0 <= j < |s.blocks| && s.blocks[j] == c;
    BlockShape(b);
  }

  /** What is carved from a free block is large enough, and at most three words too large. */
  lemma GrantedSize(b: Block, size: nat)
    requires WellFormed(b) && MIN_BLOCK <= size <= b.size && size % 4 == 0
    ensures size <= Granted(b, size).size <= size + 12
    ensures Granted(b, size).addr == b.addr && Granted(b, size).size <= b.size
  {
    var q, r := b.size / 4, size / 4;
    assert b.size == 4 * q && size == 4 * r;
  }

  /** A request of `n` bytes, up to the largest representable one, gets a new payload of at least
      `n` and at most `n + 19` bytes, taken from unallocated bytes of the heap. */
  lemma PayloadSize(g: Geometry, s: State, n: Word)
    requires StateInv(g, s) && 1 <= n <= LARGEST_REQUEST
    requires Allocate(s, BlockSizeFor(n)).1 != NULL
    ensures var (s', p) := Allocate(s, BlockSizeFor(n));
            exists b :: b in Live(s'.blocks) && b !in Live(s.blocks) && b.Payload() == p
                        && n <= b.size - 8 <= n + 19
                        && Unallocated(s.blocks, b.addr, b.size)
  {
    hide BlockSizeFor, Allocate;
    var size := BlockSizeFor(n);
    BlockSizeSmall(n);
    var (s', p) := Allocate(s, size);
    AllocateKeeps(g, s, size);
    var i := HomeOf(s.blocks, p);
    BlockPlace(s.blocks, g.base, g.End(), i);
    GrantedSize(s.blocks[i], size);
    FreeIsUnallocated(g, s, i, Granted(s.blocks[i], size));
  }

  lemma FreeIsUnallocated(g: Geometry, s: State, i: nat, b: Block)
    requires StateInv(g, s) && i < |s.blocks| && s.blocks[i].free
    requires b.addr == s.blocks[i].addr && b.size <= s.blocks[i].size
    ensures Unallocated(s.blocks, b.addr, b.size)
  {
    TiledOrder(s.blocks, g.base, g.End());
  }
}
