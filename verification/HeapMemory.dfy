/** How a heap layout and its free list lie in memory: boundary tags at both ends of every
block, and the free-list ring threaded through the payloads of the free blocks (memory.c). */
module HeapMemory {
  import opened Sequences
  import opened Words
  import opened Rings
  import opened Blocks

  /** Where the heap and the head of the free list are. */
  datatype Geometry = Geometry(head: nat, base: nat, size: nat) {
    function End(): nat {
      base + size
    }

    /** The heap is aligned, large enough for one block and small enough for 32-bit sums of
        block sizes not to wrap; the list head lies outside it. */
    ghost predicate Valid(length: nat) {
      && length <= WORD_LIMIT
      && 0 < base && base % 4 == 0 && size % 4 == 0 && MIN_BLOCK <= size
      && base + size <= length && size + MIN_BLOCK < WORD_LIMIT
      && 0 < head && head % 4 == 0 && head + 8 <= length
      && (head + 8 <= base || base + size <= head)
    }
  }

  /** The abstract heap: the blocks in address order and the free list in list order. */
  datatype State = State(blocks: Layout, ring: seq<nat>)

  /** The boundary tag of a block: its size, with the lowest bit set while it is allocated. */
  function Tag(b: Block): nat {
    b.size + if b.free then 0 else 1
  }

  function TagSize(tag: Word): Word {
    tag - tag % 2
  }

  predicate TagAllocated(tag: Word) {
    tag % 2 == 1
  }

  /** What reading a tag at `a` tells about block `b`. */
  ghost predicate Reads(m: seq<Word>, a: int, b: Block) {
    0 <= a < |m| && TagSize(m[a]) == b.size && TagAllocated(m[a]) == !b.free
  }

  lemma EvenTag(n: nat, half: int)
    requires n == 2 * half
    ensures n % 2 == 0 && (n + 1) % 2 == 1
  {
  }

  /** Tags of aligned sizes. */
  lemma TagValues(size: Word)
    requires size % 4 == 0
    ensures TagSize(size) == size && TagSize(size + 1) == size
    ensures !TagAllocated(size) && TagAllocated(size + 1)
    ensures size + 1 < WORD_LIMIT
  {
    var q := size / 4;
    assert size == 4 * q;
    EvenTag(size, 2 * q);
    assert size + 1 < WORD_LIMIT by {
      assert WORD_LIMIT == 4 * (WORD_LIMIT / 4);
    }
  }

  lemma TagReads(m: seq<Word>, b: Block)
    requires TagOk(m, b)
    ensures Reads(m, b.addr, b) && Reads(m, b.End() - 4, b)
  {
    TagValues(b.size);
  }

  ghost predicate Fits(m: seq<Word>, b: Block) {
    WellFormed(b) && b.End() <= |m|
  }

  ghost predicate TagOk(m: seq<Word>, b: Block) {
    && Fits(m, b)
    && m[b.addr] == Tag(b) && m[b.End() - 4] == Tag(b)
  }

  ghost predicate Tagged(m: seq<Word>, bs: Layout) {
    forall b :: b in bs ==> TagOk(m, b)
  }

  ghost function NodesOf(ring: seq<nat>): set<nat> {
    set x | x in ring
  }

  ghost predicate HeapInv(m: seq<Word>, g: Geometry, s: State) {
    && g.Valid(|m|)
    && Tiled(s.blocks, g.base, g.End())
    && Tagged(m, s.blocks)
    && IsRing(m, g.head, s.ring)
    && NodesOf(s.ring) == FreeNodes(s.blocks)
  }

  // ---------------------------------------------------------------------------------------
  // Frames
  // ---------------------------------------------------------------------------------------

  ghost predicate Untouched(m: seq<Word>, m': seq<Word>, b: Block) {
    && |m'| == |m|
    && b.End() <= |m|
    && forall a :: b.addr <= a < b.End() ==> m'[a] == m[a]
  }

  /** No word of the blocks in `kept` changed, and outside the heap only the list head did. */
  ghost predicate Kept(m: seq<Word>, m': seq<Word>, g: Geometry, kept: set<Block>) {
    && |m'| == |m|
    && (forall b :: b in kept ==> Untouched(m, m', b))
    && (forall a :: 0 <= a < |m| && !(g.base <= a < g.End()) && a != g.head && a != g.head + 4 ==> m'[a] == m[a])
  }

  /** Two steps that each keep at least `k`. */
  lemma KeptTrans(m: seq<Word>, m1: seq<Word>, m2: seq<Word>, g: Geometry,
                  k: set<Block>, k1: set<Block>, k2: set<Block>)
    requires Kept(m, m1, g, k1) && Kept(m1, m2, g, k2)
    requires k <= k1 && k <= k2
    ensures Kept(m, m2, g, k)
  {
  }

  /** Every node of the free list is the list head, or lies in a block other than a given one,
      or is the node of that block, which is then free. */
  ghost predicate HomeApart(g: Geometry, b: Block, x: nat) {
    || (b.free && x == b.Payload())
    || x + 8 <= b.addr
    || b.End() <= x
  }

  lemma NodeHome(m: seq<Word>, g: Geometry, s: State, i: nat)
    requires HeapInv(m, g, s) && i < |s.blocks|
    ensures forall k :: 0 <= k <= |s.ring| + 1 ==> HomeApart(g, s.blocks[i], At(g.head, s.ring, k))
    ensures forall k :: 0 <= k <= |s.ring| + 1 ==>
              || At(g.head, s.ring, k) == g.head
              || (g.base < At(g.head, s.ring, k) && At(g.head, s.ring, k) + 8 < g.End())
  {
    TiledOrder(s.blocks, g.base, g.End());
    forall k | 0 <= k <= |s.ring| + 1
      ensures HomeApart(g, s.blocks[i], At(g.head, s.ring, k))
      ensures At(g.head, s.ring, k) == g.head || (g.base < At(g.head, s.ring, k) && At(g.head, s.ring, k) + 8 < g.End())
    {
      var x := At(g.head, s.ring, k);
      if x != g.head {
        assert x in NodesOf(s.ring);
        var c :| c in s.blocks && c.free && c.Payload() == x;
        var j :| 0 <= j < |s.blocks| && s.blocks[j] == c;
      }
    }
  }

  /** Replacing the blocks at positions `lo` to `hi` by `mid`, with tags that agree, while the
      other blocks keep theirs. */
  lemma Retag(m': seq<Word>, g: Geometry, bs: Layout, lo: nat, hi: nat, mid: Layout)
    requires Tiled(bs, g.base, g.End()) && lo <= hi <= |bs|
    requires Tiled(mid, Cut(bs, g.End(), lo), Cut(bs, g.End(), hi))
    requires Tagged(m', mid)
    requires forall k :: 0 <= k < |bs| && (k < lo || hi <= k) ==> TagOk(m', bs[k])
    ensures Tiled(Replace(bs, lo, hi, mid), g.base, g.End())
    ensures Tagged(m', Replace(bs, lo, hi, mid))
  {
    TiledReplace(bs, g.base, g.End(), lo, hi, mid);
    forall b | b in bs[..lo] + bs[hi..]
      ensures TagOk(m', b)
    {
      var k :| 0 <= k < |bs| && (k < lo || hi <= k) && bs[k] == b;
    }
  }

  /** With its tags cleared, an allocated block's payload can become a free-list node. */
  lemma ReadyToAdd(m: seq<Word>, m1: seq<Word>, g: Geometry, s: State, i: nat)
    requires HeapInv(m, g, s) && i < |s.blocks| && !s.blocks[i].free
    requires SameExcept(m, m1, {s.blocks[i].addr, s.blocks[i].End() - 4})
    ensures IsRing(m1, g.head, s.ring)
    ensures Detached(m1, s.blocks[i].Payload(), g.head, s.ring)
  {
    var b := s.blocks[i];
    TiledOrder(s.blocks, g.base, g.End());
    NodeHome(m, g, s, i);
    RingFrame(m, m1, g.head, s.ring, {b.addr, b.End() - 4});
  }

  /** Cell `a` is a link of the free list, or lies between `from` and `to`. */
  ghost predicate LinkOrInside(g: Geometry, s: State, from: nat, to: nat, a: int) {
    || from <= a < to
    || exists k :: 0 <= k <= |s.ring| + 1 && (a == At(g.head, s.ring, k) || a == At(g.head, s.ring, k) + 4)
  }

  /** Writes to links of the free list and to words of the blocks at positions `lo` to `hi` keep
      the tags of the other blocks, and all the words of the allocated ones. */
  lemma OtherKeepsTags(m: seq<Word>, m': seq<Word>, g: Geometry, s: State, lo: nat, hi: nat, cells: set<int>, k: nat)
    requires HeapInv(m, g, s) && lo < hi <= |s.blocks|
    requires SameExcept(m, m', cells)
    requires forall a :: a in cells ==> LinkOrInside(g, s, s.blocks[lo].addr, s.blocks[hi - 1].End(), a)
    requires k < |s.blocks| && (k < lo || hi <= k)
    ensures TagOk(m', s.blocks[k])
    ensures !s.blocks[k].free ==> Untouched(m, m', s.blocks[k])
  {
    TiledOrder(s.blocks, g.base, g.End());
    NodeHome(m, g, s, k);
    assert TagOk(m, s.blocks[k]);
    var c := s.blocks[k];
    assert c.addr !in cells && c.End() - 4 !in cells;
    if !c.free {
      assert forall a :: c.addr <= a < c.End() ==> a !in cells;
    }
  }

  lemma OthersKeepTags(m: seq<Word>, m': seq<Word>, g: Geometry, s: State, lo: nat, hi: nat, cells: set<int>)
    requires HeapInv(m, g, s) && lo < hi <= |s.blocks|
    requires SameExcept(m, m', cells)
    requires forall a :: a in cells ==> LinkOrInside(g, s, s.blocks[lo].addr, s.blocks[hi - 1].End(), a)
    ensures forall k :: 0 <= k < |s.blocks| && (k < lo || hi <= k) ==> TagOk(m', s.blocks[k])
    ensures Kept(m, m', g, Live(s.blocks) - Live(s.blocks[lo..hi]))
  {
    forall k | 0 <= k < |s.blocks| && (k < lo || hi <= k)
      ensures TagOk(m', s.blocks[k])
      ensures !s.blocks[k].free ==> Untouched(m, m', s.blocks[k])
    {
      OtherKeepsTags(m, m', g, s, lo, hi, cells, k);
    }
    OutsideKept(m, m', g, s, lo, hi, cells);
    hide HeapInv, LinkOrInside, SameExcept, TagOk, Untouched;
    assert forall k :: lo <= k < hi ==> s.blocks[k] in s.blocks[lo..hi];
    forall b | b in Live(s.blocks) - Live(s.blocks[lo..hi])
      ensures Untouched(m, m', b)
    {
      var k :| 0 <= k < |s.blocks| && s.blocks[k] == b;
    }
  }

  /** Outside the heap, only the list head is written. */
  lemma OutsideKept(m: seq<Word>, m': seq<Word>, g: Geometry, s: State, lo: nat, hi: nat, cells: set<int>)
    requires HeapInv(m, g, s) && lo < hi <= |s.blocks|
    requires SameExcept(m, m', cells)
    requires forall a :: a in cells ==> LinkOrInside(g, s, s.blocks[lo].addr, s.blocks[hi - 1].End(), a)
    ensures |m'| == |m|
    ensures forall a :: 0 <= a < |m| && !(g.base <= a < g.End()) && a != g.head && a != g.head + 4 ==> m'[a] == m[a]
  {
    NodeHome(m, g, s, lo);
    TiledOrder(s.blocks, g.base, g.End());
  }

  // ---------------------------------------------------------------------------------------
  // The four steps that allocation and liberation are made of
  // ---------------------------------------------------------------------------------------

  lemma AddStep(m: seq<Word>, m': seq<Word>, g: Geometry, s: State, i: nat)
    requires HeapInv(m, g, s) && i < |s.blocks| && !s.blocks[i].free
    requires TagOk(m', s.blocks[i].(free := true))
    requires IsRing(m', g.head, [s.blocks[i].Payload()] + s.ring)
    requires var b := s.blocks[i];
             SameExcept(m, m', {b.addr, b.End() - 4, b.Payload(), b.Payload() + 4, g.head, At(g.head, s.ring, 1) + 4})
    ensures HeapInv(m', g, State(Flagged(s.blocks, i, true), [s.blocks[i].Payload()] + s.ring))
    ensures Kept(m, m', g, Live(s.blocks) - {s.blocks[i]})
  {
    hide IsRing, Kept, Live, FreeNodes;
    var b := s.blocks[i];
    var b' := b.(free := true);
    var cells := {b.addr, b.End() - 4, b.Payload(), b.Payload() + 4, g.head, At(g.head, s.ring, 1) + 4};
    TiledOrder(s.blocks, g.base, g.End());
    assert At(g.head, s.ring, 0) == g.head;
    assert s.blocks[i..i + 1] == [b];
    Single(b);
    OthersKeepTags(m, m', g, s, i, i + 1, cells);
    assert Tagged(m', [b']);
    TiledSingle(b');
    Retag(m', g, s.blocks, i, i + 1, [b']);
    FlaggedSets(s.blocks, g.base, g.End(), i, true);
    assert NodesOf([b.Payload()] + s.ring) == {b.Payload()} + NodesOf(s.ring);
  }

  /** With block `i` off the free list, setting its tags leaves the rest of the list alone. */
  lemma ReadyToFlag(m: seq<Word>, m1: seq<Word>, m2: seq<Word>, g: Geometry, s: State, i: nat, k: nat)
    requires HeapInv(m, g, s) && i < |s.blocks| && k < |s.ring| && s.ring[k] == s.blocks[i].Payload()
    requires IsRing(m1, g.head, Without(s.ring, k))
    requires SameExcept(m1, m2, {s.blocks[i].addr, s.blocks[i].End() - 4})
    ensures IsRing(m2, g.head, Without(s.ring, k))
  {
    var b := s.blocks[i];
    var nodes := Without(s.ring, k);
    TiledOrder(s.blocks, g.base, g.End());
    NodeHome(m, g, s, i);
    forall j | 0 <= j <= |nodes|
      ensures At(g.head, nodes, j) !in {b.addr, b.End() - 4} && At(g.head, nodes, j) + 4 !in {b.addr, b.End() - 4}
    {
      assert At(g.head, nodes, j) == At(g.head, s.ring, if j <= k then j else j + 1);
    }
    RingFrame(m1, m2, g.head, nodes, {b.addr, b.End() - 4});
  }

  lemma RemoveStep(m: seq<Word>, m': seq<Word>, g: Geometry, s: State, i: nat, k: nat)
    requires HeapInv(m, g, s) && i < |s.blocks| && s.blocks[i].free
    requires k < |s.ring| && s.ring[k] == s.blocks[i].Payload()
    requires TagOk(m', s.blocks[i].(free := false))
    requires IsRing(m', g.head, Without(s.ring, k))
    requires var b := s.blocks[i];
             SameExcept(m, m', {b.addr, b.End() - 4, b.Payload(), b.Payload() + 4,
                                At(g.head, s.ring, k), At(g.head, s.ring, k + 2) + 4})
    ensures HeapInv(m', g, State(Flagged(s.blocks, i, false), Without(s.ring, k)))
    ensures Kept(m, m', g, Live(s.blocks))
  {
    hide IsRing, Kept, Live, FreeNodes;
    var b := s.blocks[i];
    var b' := b.(free := false);
    var cells := {b.addr, b.End() - 4, b.Payload(), b.Payload() + 4,
                  At(g.head, s.ring, k), At(g.head, s.ring, k + 2) + 4};
    TiledOrder(s.blocks, g.base, g.End());
    assert s.blocks[i..i + 1] == [b];
    Single(b);
    OthersKeepTags(m, m', g, s, i, i + 1, cells);
    assert Tagged(m', [b']);
    TiledSingle(b');
    Retag(m', g, s.blocks, i, i + 1, [b']);
    FlaggedSets(s.blocks, g.base, g.End(), i, false);
    assert Live(s.blocks) - {} == Live(s.blocks);
    RingNoDup(m, g.head, s.ring);
    WithoutIs(s.ring, k);
    assert NodesOf(Without(s.ring, k)) == NodesOf(s.ring) - {s.ring[k]};
  }

  /** Retagging a stretch of allocated blocks as other allocated blocks of the same total size. */
  lemma ReshapeStep(m: seq<Word>, m': seq<Word>, g: Geometry, s: State, lo: nat, hi: nat, mid: Layout, cells: set<int>)
    requires HeapInv(m, g, s) && lo < hi <= |s.blocks|
    requires forall b :: b in s.blocks[lo..hi] + mid ==> !b.free
    requires Tiled(mid, s.blocks[lo].addr, s.blocks[hi - 1].End()) && Tagged(m', mid)
    requires SameExcept(m, m', cells)
    requires forall a :: a in cells ==> s.blocks[lo].addr <= a < s.blocks[hi - 1].End()
    ensures HeapInv(m', g, State(Replace(s.blocks, lo, hi, mid), s.ring))
    ensures Kept(m, m', g, Live(s.blocks) - Live(s.blocks[lo..hi]))
    ensures Live(Replace(s.blocks, lo, hi, mid)) == Live(s.blocks) - Live(s.blocks[lo..hi]) + Live(mid)
  {
    TiledOrder(s.blocks, g.base, g.End());
    OthersKeepTags(m, m', g, s, lo, hi, cells);
    assert Cut(s.blocks, g.End(), hi) == s.blocks[hi - 1].End();
    Retag(m', g, s.blocks, lo, hi, mid);
    ReplaceSets(s.blocks, g.base, g.End(), lo, hi, mid);
    assert FreeNodes(s.blocks[lo..hi]) == {} && FreeNodes(mid) == {} by {
      assert forall b :: b in s.blocks[lo..hi] ==> b in s.blocks[lo..hi] + mid;
      assert forall b :: b in mid ==> b in s.blocks[lo..hi] + mid;
    }
    forall j | 0 <= j <= |s.ring|
      ensures At(g.head, s.ring, j) !in cells && At(g.head, s.ring, j) + 4 !in cells
    {
      NodeOutside(m, g, s, lo, hi, j);
    }
    RingFrame(m, m', g.head, s.ring, cells);
  }

  /** A node of the free list lies outside every stretch of allocated blocks. */
  lemma NodeOutside(m: seq<Word>, g: Geometry, s: State, lo: nat, hi: nat, j: nat)
    requires HeapInv(m, g, s) && lo < hi <= |s.blocks| && j <= |s.ring| + 1
    requires forall b :: b in s.blocks[lo..hi] ==> !b.free
    ensures At(g.head, s.ring, j) + 8 <= s.blocks[lo].addr || s.blocks[hi - 1].End() <= At(g.head, s.ring, j)
  {
    TiledOrder(s.blocks, g.base, g.End());
    hide Tagged, Tiled, IsRing;
    assert forall k :: lo <= k < hi ==> s.blocks[k] in s.blocks[lo..hi];
    var x := At(g.head, s.ring, j);
    if x != g.head {
      assert x in NodesOf(s.ring);
      var c :| c in s.blocks && c.free && c.Payload() == x;
      var k :| 0 <= k < |s.blocks| && s.blocks[k] == c;
      assert WellFormed(c);
    }
  }

  // ---------------------------------------------------------------------------------------
  // Finding the neighbours of a block in memory
  // ---------------------------------------------------------------------------------------

  /** mem_block_next, for the block at `a`. */
  function NextAddr(m: seq<Word>, g: Geometry, a: nat): nat
    requires a < |m|
  {
    var end := a + TagSize(m[a]);
    if end == g.End() then NULL else end
  }

  /** mem_block_prev, for the block at `a`. */
  function PrevAddr(m: seq<Word>, g: Geometry, a: nat): int
    requires 4 <= a <= |m|
  {
    if a == g.base then NULL else a - TagSize(m[a - 4])
  }

  /** Where block `i` stands in the heap. */
  lemma Neighbours(m: seq<Word>, g: Geometry, s: State, i: nat)
    requires HeapInv(m, g, s) && i < |s.blocks|
    ensures TagOk(m, s.blocks[i]) && Reads(m, s.blocks[i].addr, s.blocks[i])
    ensures 4 <= g.base <= s.blocks[i].addr && s.blocks[i].addr % 4 == 0
    ensures i == 0 <==> s.blocks[i].addr == g.base
    ensures i > 0 ==>
              && 0 < s.blocks[i - 1].addr && s.blocks[i - 1].End() == s.blocks[i].addr
              && Reads(m, s.blocks[i].addr - 4, s.blocks[i - 1])
    ensures i + 1 == |s.blocks| <==> s.blocks[i].End() == g.End()
    ensures i + 1 < |s.blocks| ==> TagOk(m, s.blocks[i + 1]) && Reads(m, s.blocks[i + 1].addr, s.blocks[i + 1])
    ensures i + 1 < |s.blocks| ==> s.blocks[i].End() == s.blocks[i + 1].addr
    ensures i + 1 < |s.blocks| ==> s.blocks[i].size + s.blocks[i + 1].size + MIN_BLOCK < WORD_LIMIT
  {
    TiledOrder(s.blocks, g.base, g.End());
    assert forall k :: 0 <= k < |s.blocks| ==> s.blocks[k] in s.blocks;
    TagReads(m, s.blocks[i]);
    if i > 0 {
      TagReads(m, s.blocks[i - 1]);
    }
    if i + 1 < |s.blocks| {
      TagReads(m, s.blocks[i + 1]);
    }
  }

  lemma NextIs(m: seq<Word>, g: Geometry, s: State, i: nat)
    requires HeapInv(m, g, s) && i < |s.blocks|
    ensures 4 <= s.blocks[i].addr < |m|
    ensures NextAddr(m, g, s.blocks[i].addr) == if i + 1 == |s.blocks| then NULL else s.blocks[i + 1].addr
  {
    hide HeapInv, TagSize;
    Neighbours(m, g, s, i);
  }

  lemma PrevIs(m: seq<Word>, g: Geometry, s: State, i: nat)
    requires HeapInv(m, g, s) && i < |s.blocks|
    ensures 4 <= s.blocks[i].addr < |m|
    ensures PrevAddr(m, g, s.blocks[i].addr) == if i == 0 then NULL else s.blocks[i - 1].addr
  {
    hide HeapInv, TagSize;
    Neighbours(m, g, s, i);
  }

  /** Going to the next block and back, or to the previous one and forth, returns to where one
      was; and the two ends of the heap are where neither leads on. */
  lemma NeighboursInverse(m: seq<Word>, g: Geometry, s: State, i: nat)
    requires HeapInv(m, g, s) && i < |s.blocks|
    ensures 4 <= s.blocks[i].addr < |m|
    ensures var next := NextAddr(m, g, s.blocks[i].addr);
            if i + 1 == |s.blocks| then next == NULL
            else next == s.blocks[i + 1].addr && 4 <= next < |m| && PrevAddr(m, g, next) == s.blocks[i].addr
    ensures var prev := PrevAddr(m, g, s.blocks[i].addr);
            if i == 0 then prev == NULL
            else prev == s.blocks[i - 1].addr && 4 <= prev < |m| && NextAddr(m, g, prev) == s.blocks[i].addr
  {
    hide HeapInv, NextAddr, PrevAddr;
    NextIs(m, g, s, i);
    PrevIs(m, g, s, i);
    if i > 0 {
      NextIs(m, g, s, i - 1);
    }
    if i + 1 < |s.blocks| {
      PrevIs(m, g, s, i + 1);
    }
  }
}
