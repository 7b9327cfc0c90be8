/** Layouts of the heap: the sequence of blocks that the boundary tags describe, in address
order, and what allocation and liberation do to it (memory.c). */
module Blocks {

  /** Header, two links and footer: the least a block can hold while it is free. */
  const MIN_BLOCK := 16

  datatype Block = Block(addr: nat, size: nat, free: bool) {
    function End(): nat {
      addr + size
    }

    /** Where the user's bytes start, and the free-list node while the block is free. */
    function Payload(): nat {
      addr + 4
    }
  }

  type Layout = seq<Block>

  predicate WellFormed(b: Block) {
    b.addr % 4 == 0 && b.size % 4 == 0 && b.size >= MIN_BLOCK
  }

  /** The blocks lie one after the other, each aligned and large enough, from `lo` to `hi`. */
  ghost predicate Tiled(bs: Layout, lo: nat, hi: nat) {
    if bs == [] then lo == hi
    else
      && bs[0].addr == lo
      && WellFormed(bs[0])
      && Tiled(bs[1..], bs[0].End(), hi)
  }

  ghost predicate Coalesced(bs: Layout) {
    forall i, j :: 0 <= i && j == i + 1 && j < |bs| ==> !(bs[i].free && bs[j].free)
  }

  function Replace(bs: Layout, lo: nat, hi: nat, mid: Layout): Layout
    requires lo <= hi <= |bs|
  {
    bs[..lo] + mid + bs[hi..]
  }

  lemma {:induction false} TiledConcat(xs: Layout, ys: Layout, lo: nat, mid: nat, hi: nat)
    requires Tiled(xs, lo, mid) && Tiled(ys, mid, hi)
    ensures Tiled(xs + ys, lo, hi)
  {
    if xs == [] {
      assert xs + ys == ys;
    } else {
      TiledConcat(xs[1..], ys, xs[0].End(), mid, hi);
      assert (xs + ys)[1..] == xs[1..] + ys;
    }
  }

  /** The address at which the part of a layout before position `k` ends. */
  function Cut(bs: Layout, hi: nat, k: nat): nat
    requires k <= |bs|
  {
    if k == |bs| then hi else bs[k].addr
  }

  lemma {:induction false} TiledSplit(bs: Layout, lo: nat, hi: nat, k: nat)
    requires Tiled(bs, lo, hi) && k <= |bs|
    ensures Tiled(bs[..k], lo, Cut(bs, hi, k)) && Tiled(bs[k..], Cut(bs, hi, k), hi)
  {
    if k == 0 {
      assert bs[0..] == bs;
    } else {
      TiledSplit(bs[1..], bs[0].End(), hi, k - 1);
      assert bs[..k][1..] == bs[1..][..k - 1];
      assert bs[k..] == bs[1..][k - 1..];
    }
  }

  /** What tiling says about any two blocks. */
  lemma {:induction false} TiledOrder(bs: Layout, lo: nat, hi: nat)
    requires Tiled(bs, lo, hi)
    ensures lo <= hi
    ensures forall i :: 0 <= i < |bs| ==> lo <= bs[i].addr && bs[i].End() <= hi && WellFormed(bs[i])
    ensures forall i, j :: 0 <= i < j < |bs| ==> bs[i].End() <= bs[j].addr
    ensures forall i, j :: 0 <= i && j == i + 1 && j < |bs| ==> bs[i].End() == bs[j].addr
    ensures bs != [] ==> bs[0].addr == lo && bs[|bs| - 1].End() == hi
  {
    if bs != [] {
      var t := bs[1..];
      TiledOrder(t, bs[0].End(), hi);
      assert forall i :: 0 < i < |bs| ==> bs[i] == t[i - 1];
    }
  }

  lemma TiledReplace(bs: Layout, lo: nat, hi: nat, i: nat, j: nat, mid: Layout)
    requires Tiled(bs, lo, hi) && i <= j <= |bs|
    requires Tiled(mid, Cut(bs, hi, i), Cut(bs, hi, j))
    ensures Tiled(Replace(bs, i, j, mid), lo, hi)
  {
    TiledSplit(bs, lo, hi, i);
    TiledSplit(bs, lo, hi, j);
    TiledConcat(bs[..i], mid, lo, Cut(bs, hi, i), Cut(bs, hi, j));
    TiledConcat(bs[..i] + mid, bs[j..], lo, Cut(bs, hi, j), hi);
  }

  // ---------------------------------------------------------------------------------------
  // The allocated blocks and the free-list nodes of a layout
  // ---------------------------------------------------------------------------------------

  /** The blocks the callers of the allocator hold. */
  ghost function Live(bs: Layout): set<Block> {
    set b | b in bs && !b.free
  }

  /** The addresses at which the free blocks keep their free-list nodes. */
  ghost function FreeNodes(bs: Layout): set<nat> {
    set b | b in bs && b.free :: b.Payload()
  }

  lemma PartsOf(bs: Layout, lo: nat, hi: nat)
    requires lo <= hi <= |bs|
    ensures Live(bs) == Live(bs[..lo]) + Live(bs[lo..hi]) + Live(bs[hi..])
    ensures FreeNodes(bs) == FreeNodes(bs[..lo]) + FreeNodes(bs[lo..hi]) + FreeNodes(bs[hi..])
  {
    assert bs == bs[..lo] + bs[lo..hi] + bs[hi..];
  }

  lemma PartsOfReplace(bs: Layout, lo: nat, hi: nat, mid: Layout)
    requires lo <= hi <= |bs|
    ensures Live(Replace(bs, lo, hi, mid)) == Live(bs[..lo]) + Live(mid) + Live(bs[hi..])
    ensures FreeNodes(Replace(bs, lo, hi, mid)) == FreeNodes(bs[..lo]) + FreeNodes(mid) + FreeNodes(bs[hi..])
  {
  }

  /** No block outside positions `lo` to `hi` starts at the address of one inside. */
  lemma PartsApart(bs: Layout, from: nat, to: nat, lo: nat, hi: nat)
    requires Tiled(bs, from, to) && lo <= hi <= |bs|
    ensures Live(bs[lo..hi]) !! Live(bs[..lo]) + Live(bs[hi..])
    ensures FreeNodes(bs[lo..hi]) !! FreeNodes(bs[..lo]) + FreeNodes(bs[hi..])
  {
    hide Tiled;
    forall b, c | b in bs[lo..hi] && (c in bs[..lo] || c in bs[hi..])
      ensures b.addr != c.addr
    {
      PartsAddr(bs, from, to, lo, hi, b, c);
    }
    assert forall x :: x in FreeNodes(bs[lo..hi]) ==> exists b :: b in bs[lo..hi] && b.Payload() == x;
    assert forall x :: x in FreeNodes(bs[..lo]) ==> exists b :: b in bs[..lo] && b.Payload() == x;
    assert forall x :: x in FreeNodes(bs[hi..]) ==> exists b :: b in bs[hi..] && b.Payload() == x;
  }

  lemma PartsAddr(bs: Layout, from: nat, to: nat, lo: nat, hi: nat, b: Block, c: Block)
    requires Tiled(bs, from, to) && lo <= hi <= |bs|
    requires b in bs[lo..hi] && (c in bs[..lo] || c in bs[hi..])
    ensures b.addr != c.addr
  {
    TiledOrder(bs, from, to);
    var i :| lo <= i < hi && bs[i] == b;
    if c in bs[..lo] {
      var j :| 0 <= j < lo && bs[j] == c;
    } else {
      var j :| 0 <= j < |bs[hi..]| && bs[hi..][j] == c;
      assert bs[hi + j] == c;
    }
  }

  lemma TiledSingle(b: Block)
    requires WellFormed(b)
    ensures Tiled([b], b.addr, b.End())
  {
    assert [b][1..] == [];
  }

  lemma TiledPair(b: Block, c: Block)
    requires WellFormed(b) && WellFormed(c) && c.addr == b.End()
    ensures Tiled([b, c], b.addr, c.End())
  {
    assert [b, c][1..] == [c] && [c][1..] == [];
  }

  // ---------------------------------------------------------------------------------------
  // The steps that allocation and liberation are made of
  // ---------------------------------------------------------------------------------------

  /** The block at position `i` changes its allocation flag. */
  function Flagged(bs: Layout, i: nat, free: bool): (r: Layout)
    requires i < |bs|
    ensures |r| == |bs| && r[i] == bs[i].(free := free)
    ensures forall k :: 0 <= k < |bs| && k != i ==> r[k] == bs[k]
  {
    Replace(bs, i, i + 1, [bs[i].(free := free)])
  }

  lemma Single(b: Block)
    ensures Live([b]) == if b.free then {} else {b}
    ensures FreeNodes([b]) == if b.free then {b.Payload()} else {}
  {
    assert b in [b];
    if b.free {
      assert FreeNodes([b]) == {b.Payload()};
    }
  }

  /** Replacing part of a layout replaces that part's share of the two sets. */
  lemma ReplaceSets(bs: Layout, from: nat, to: nat, lo: nat, hi: nat, mid: Layout)
    requires Tiled(bs, from, to) && lo <= hi <= |bs|
    ensures Live(Replace(bs, lo, hi, mid)) == Live(bs) - Live(bs[lo..hi]) + Live(mid)
    ensures FreeNodes(Replace(bs, lo, hi, mid)) == FreeNodes(bs) - FreeNodes(bs[lo..hi]) + FreeNodes(mid)
  {
    PartsOf(bs, lo, hi);
    PartsOfReplace(bs, lo, hi, mid);
    PartsApart(bs, from, to, lo, hi);
    SetAlgebra(Live(bs[..lo]), Live(bs[lo..hi]), Live(bs[hi..]), Live(mid));
    SetAlgebra(FreeNodes(bs[..lo]), FreeNodes(bs[lo..hi]), FreeNodes(bs[hi..]), FreeNodes(mid));
  }

  lemma SetAlgebra<T>(a: set<T>, b: set<T>, c: set<T>, d: set<T>)
    requires b !! a + c
    ensures a + d + c == (a + b + c) - b + d
  {
  }

  lemma FlaggedSets(bs: Layout, from: nat, to: nat, i: nat, free: bool)
    requires Tiled(bs, from, to) && i < |bs| && bs[i].free != free
    ensures free ==> Live(Flagged(bs, i, free)) == Live(bs) - {bs[i]}
    ensures free ==> FreeNodes(Flagged(bs, i, free)) == FreeNodes(bs) + {bs[i].Payload()}
    ensures !free ==> Live(Flagged(bs, i, free)) == Live(bs) + {bs[i].(free := false)}
    ensures !free ==> FreeNodes(Flagged(bs, i, free)) == FreeNodes(bs) - {bs[i].Payload()}
  {
    var b, b' := bs[i], bs[i].(free := free);
    ReplaceSets(bs, from, to, i, i + 1, [b']);
    assert bs[i..i + 1] == [b];
    Single(b);
    Single(b');
  }

  // ---------------------------------------------------------------------------------------
  // What allocation and liberation do to a layout
  // ---------------------------------------------------------------------------------------

  /** The position of the block whose payload starts at `p`; the length of `bs` if none does. */
  function HomeOf(bs: Layout, p: nat): (i: nat)
    ensures i <= |bs|
    ensures i < |bs| ==> bs[i].Payload() == p
    ensures i == |bs| ==> forall b :: b in bs ==> b.Payload() != p
  {
    if bs == [] || bs[0].Payload() == p then 0 else 1 + HomeOf(bs[1..], p)
  }

  /** `p` is a pointer that a caller holds. */
  predicate LivePayload(bs: Layout, p: nat) {
    var i := HomeOf(bs, p);
    i < |bs| && !bs[i].free
  }

  lemma HomeUnique(bs: Layout, from: nat, to: nat, i: nat)
    requires Tiled(bs, from, to) && i < |bs|
    ensures HomeOf(bs, bs[i].Payload()) == i
  {
    TiledOrder(bs, from, to);
    var j := HomeOf(bs, bs[i].Payload());
    assert bs[i] in bs;
  }

  /** The blocks that block `i` becomes when `size` bytes of it are allocated: the rest stays
      free if it can hold a block. */
  function Carve(b: Block, size: nat): Layout {
    if b.size < size + MIN_BLOCK then [b.(free := false)]
    else [Block(b.addr, size, false), Block(b.addr + size, b.size - size, true)]
  }

  function Grant(bs: Layout, i: nat, size: nat): Layout
    requires i < |bs|
  {
    Replace(bs, i, i + 1, Carve(bs[i], size))
  }

  /** The stretch of positions that becomes one free block when block `i` is freed. */
  function MergeLo(bs: Layout, i: nat): (lo: nat)
    requires i < |bs|
    ensures lo <= i
  {
    if i > 0 && bs[i - 1].free then i - 1 else i
  }

  function MergeHi(bs: Layout, i: nat): (hi: nat)
    requires i < |bs|
    ensures i < hi <= |bs|
  {
    if i + 1 < |bs| && bs[i + 1].free then i + 2 else i + 1
  }

  /** The total size of the blocks at positions `lo` to `hi`. */
  function Span(bs: Layout, lo: nat, hi: nat): nat
    requires lo <= hi <= |bs|
    decreases hi - lo
  {
    if lo == hi then 0 else bs[lo].size + Span(bs, lo + 1, hi)
  }

  function Release(bs: Layout, i: nat): Layout
    requires i < |bs|
  {
    var lo, hi := MergeLo(bs, i), MergeHi(bs, i);
    Replace(bs, lo, hi, [Block(bs[lo].addr, Span(bs, lo, hi), true)])
  }

  /** Merging two free neighbours leaves the allocated blocks as they are. */
  lemma MergeSets(bs: Layout, from: nat, to: nat, i: nat)
    requires Tiled(bs, from, to) && i + 1 < |bs| && bs[i].free && bs[i + 1].free
    ensures Live(Replace(bs, i, i + 2, [Merged(bs[i], bs[i + 1])])) == Live(bs)
  {
    ReplaceSets(bs, from, to, i, i + 2, [Merged(bs[i], bs[i + 1])]);
    assert bs[i..i + 2] == [bs[i], bs[i + 1]];
    Single(Merged(bs[i], bs[i + 1]));
  }

  /** Two neighbours as one free block. */
  function Merged(b: Block, c: Block): Block {
    Block(b.addr, b.size + c.size, true)
  }

  /** The layout once the freed block `i` was merged with a free block before it. */
  function MergedDown(bs: Layout, i: nat): (r: Layout)
    requires i < |bs|
    ensures |r| == |bs| - (i - MergeLo(bs, i))
  {
    var lo := MergeLo(bs, i);
    Replace(bs, lo, i + 1, [Block(bs[lo].addr, Span(bs, lo, i + 1), true)])
  }

  lemma MergedDownParts(bs: Layout, i: nat)
    requires i < |bs|
    ensures var r, j := MergedDown(bs, i), MergeLo(bs, i);
            && r[..j] == bs[..j] && r[j + 1..] == bs[i + 1..]
            && r[j] == Block(bs[j].addr, Span(bs, j, i + 1), true)
  {
  }

  /** Freeing block `i` by clearing its flag, then merging with the block before it when that is
      free. */
  lemma ReleaseFirstSteps(bs: Layout, i: nat, bs1: Layout, j: nat, bs2: Layout)
    requires i < |bs|
    requires bs1 == Flagged(bs, i, true)
    requires if i > 0 && bs[i - 1].free
             then j == i - 1 && bs2 == Replace(bs1, j, j + 2, [Merged(bs1[j], bs1[j + 1])])
             else j == i && bs2 == bs1
    ensures j == MergeLo(bs, i) && bs2 == MergedDown(bs, i)
  {
    assert Span(bs, i, i + 1) == bs[i].size;
    if j < i {
      assert bs1[..j] == bs[..j] && bs1[j + 2..] == bs[i + 1..];
    }
  }

  /** ... and then with the block after it when that is free, is `Release`. */
  lemma ReleaseLastStep(bs: Layout, i: nat, j: nat, bs2: Layout, bs3: Layout)
    requires i < |bs| && j == MergeLo(bs, i) && bs2 == MergedDown(bs, i)
    requires if j + 1 < |bs2| && bs2[j + 1].free
             then bs3 == Replace(bs2, j, j + 2, [Merged(bs2[j], bs2[j + 1])])
             else bs3 == bs2
    ensures j + 1 < |bs2| <==> i + 1 < |bs|
    ensures i + 1 < |bs| ==> bs2[j + 1] == bs[i + 1]
    ensures bs3 == Release(bs, i)
  {
    MergedDownParts(bs, i);
    assert i + 1 < |bs| ==> bs2[j + 1..][0] == bs[i + 1..][0];
    SpanSplit(bs, j, i + 1, MergeHi(bs, i));
    if i + 1 < |bs| && bs[i + 1].free {
      assert Span(bs, i + 1, i + 2) == bs[i + 1].size;
      assert bs2[j + 2..] == bs2[j + 1..][1..];
      assert bs[i + 2..] == bs[i + 1..][1..];
    }
  }

  lemma {:induction false} SpanSplit(bs: Layout, lo: nat, mid: nat, hi: nat)
    requires lo <= mid <= hi <= |bs|
    ensures Span(bs, lo, hi) == Span(bs, lo, mid) + Span(bs, mid, hi)
    decreases mid - lo
  {
    if lo < mid {
      SpanSplit(bs, lo + 1, mid, hi);
    }
  }

  /** Where no block was live, a replacement only adds its own live blocks. */
  lemma AbsorbSets(bs: Layout, from: nat, to: nat, lo: nat, hi: nat, mid: Layout)
    requires Tiled(bs, from, to) && lo <= hi <= |bs|
    requires Tiled(mid, Cut(bs, to, lo), Cut(bs, to, hi))
    requires Live(bs[lo..hi]) == {}
    ensures Live(Replace(bs, lo, hi, mid)) == Live(bs) + Live(mid)
    ensures Live(mid) !! Live(bs)
  {
    hide Tiled, Live, FreeNodes, Replace;
    var bs' := Replace(bs, lo, hi, mid);
    TiledReplace(bs, from, to, lo, hi, mid);
    PartsOf(bs, lo, hi);
    assert Live(bs) == Live(bs[..lo]) + Live(bs[hi..]);
    PartsOfReplace(bs, lo, hi, mid);
    ReplaceParts(bs, lo, hi, mid);
    PartsApart(bs', from, to, lo, lo + |mid|);
  }

  lemma ReplaceParts(bs: Layout, lo: nat, hi: nat, mid: Layout)
    requires lo <= hi <= |bs|
    ensures var r := Replace(bs, lo, hi, mid);
            && |r| == |bs| - (hi - lo) + |mid|
            && r[..lo] == bs[..lo] && r[lo..lo + |mid|] == mid && r[lo + |mid|..] == bs[hi..]
  {
  }

  /** Blocks `i` and `i + 1` both taken off the free list. */
  function Unlisted(bs: Layout, i: nat): (r: Layout)
    requires i + 1 < |bs|
    ensures |r| == |bs| && r[i] == bs[i].(free := false) && r[i + 1] == bs[i + 1].(free := false)
  {
    Replace(bs, i, i + 2, [bs[i].(free := false), bs[i + 1].(free := false)])
  }

  /** Blocks `i` and `i + 1` as one allocated block. */
  function Joined(bs: Layout, i: nat): (r: Layout)
    requires i + 1 < |bs|
    ensures |r| == |bs| - 1 && r[i] == Merged(bs[i], bs[i + 1]).(free := false)
  {
    Replace(bs, i, i + 2, [Merged(bs[i], bs[i + 1]).(free := false)])
  }

  lemma UnlistedInSteps(bs: Layout, i: nat)
    requires i + 1 < |bs|
    ensures Flagged(Flagged(bs, i, false), i + 1, false) == Unlisted(bs, i)
    ensures Flagged(Flagged(bs, i + 1, false), i, false) == Unlisted(bs, i)
    ensures Replace(Unlisted(bs, i), i, i + 2, [Merged(bs[i], bs[i + 1])])
         == Replace(bs, i, i + 2, [Merged(bs[i], bs[i + 1])])
  {
    hide Merged;
    var r := Unlisted(bs, i);
    ReplaceParts(bs, i, i + 2, [bs[i].(free := false), bs[i + 1].(free := false)]);
    assert r[..i] == bs[..i] && r[i + 2..] == bs[i + 2..];
  }

  lemma UnlistedSets(bs: Layout, from: nat, to: nat, i: nat)
    requires Tiled(bs, from, to) && i + 1 < |bs| && bs[i].free && bs[i + 1].free
    ensures Live(bs) <= Live(Unlisted(bs, i)) - {Unlisted(bs, i)[i], Unlisted(bs, i)[i + 1]}
  {
    TiledOrder(bs, from, to);
    var b, c := bs[i].(free := false), bs[i + 1].(free := false);
    assert Live(bs[i..i + 2]) == {};
    TiledPair(b, c);
    assert Cut(bs, to, i) == b.addr && Cut(bs, to, i + 2) == c.End();
    AbsorbSets(bs, from, to, i, i + 2, [b, c]);
    assert b in [b, c] && c in [b, c];
  }

  lemma JoinedSets(bs: Layout, from: nat, to: nat, i: nat)
    requires Tiled(bs, from, to) && i + 1 < |bs| && !bs[i].free && !bs[i + 1].free
    ensures Live(bs) - {bs[i], bs[i + 1]} <= Live(Joined(bs, i)) - {Joined(bs, i)[i]}
  {
    TiledOrder(bs, from, to);
    var d := Merged(bs[i], bs[i + 1]).(free := false);
    assert bs[i..i + 2] == [bs[i], bs[i + 1]];
    assert Live(bs[i..i + 2]) == {bs[i], bs[i + 1]};
    ReplaceSets(bs, from, to, i, i + 2, [d]);
    Single(d);
    forall b | b in Live(bs) && b != bs[i] && b != bs[i + 1]
      ensures b != d
    {
      var k :| 0 <= k < |bs| && bs[k] == b;
    }
  }

  function Halves(b: Block, size: nat): Layout
    requires size <= b.size
  {
    [Block(b.addr, size, false), Block(b.addr + size, b.size - size, false)]
  }

  /** Block `i` allocated and then cut in two. */
  function Halved(bs: Layout, i: nat, size: nat): (r: Layout)
    requires i < |bs| && size <= bs[i].size
    ensures |r| == |bs| + 1 && r[i] == Halves(bs[i], size)[0] && r[i + 1] == Halves(bs[i], size)[1]
  {
    Replace(bs, i, i + 1, Halves(bs[i], size))
  }

  /** Allocating from block `i` by marking it allocated, splitting it if it is large enough, and
      freeing the second half, is `Grant`. */
  lemma GrantInSteps(bs: Layout, i: nat, size: nat)
    requires i < |bs| && size <= bs[i].size
    ensures bs[i].size < size + MIN_BLOCK ==> Flagged(bs, i, false) == Grant(bs, i, size)
    ensures bs[i].size >= size + MIN_BLOCK ==>
              && Halved(Flagged(bs, i, false), i, size) == Halved(bs, i, size)
              && Flagged(Halved(bs, i, size), i + 1, true) == Grant(bs, i, size)
  {
    var bs1 := Flagged(bs, i, false);
    assert bs1[..i] == bs[..i] && bs1[i + 1..] == bs[i + 1..];
    if bs[i].size >= size + MIN_BLOCK {
      HalvedThenFreed(bs, i, size);
    }
  }

  lemma HalvedThenFreed(bs: Layout, i: nat, size: nat)
    requires i < |bs| && size + MIN_BLOCK <= bs[i].size
    ensures Flagged(Halved(bs, i, size), i + 1, true) == Grant(bs, i, size)
  {
    var h := Halves(bs[i], size);
    var d := h[1].(free := true);
    Pieces(bs[..i], h[0], h[1], bs[i + 1..]);
    Pieces(bs[..i], h[0], d, bs[i + 1..]);
    assert Carve(bs[i], size) == [h[0], d];
    assert h == [h[0], h[1]];
  }

  lemma Pieces(xs: Layout, b: Block, c: Block, ys: Layout)
    ensures xs + [b] + [c] + ys == xs + [b, c] + ys
    ensures (xs + [b, c] + ys)[..|xs| + 1] == xs + [b]
    ensures (xs + [b, c] + ys)[|xs| + 2..] == ys
  {
  }

  lemma GrantSets(bs: Layout, from: nat, to: nat, i: nat, size: nat)
    requires Tiled(bs, from, to) && i < |bs| && bs[i].free
    ensures Live(bs) <= Live(Flagged(bs, i, false)) - {bs[i].(free := false)}
    ensures MIN_BLOCK <= size && size % 4 == 0 && size + MIN_BLOCK <= bs[i].size ==>
              Live(bs) <= Live(Halved(bs, i, size)) - {Halves(bs[i], size)[1]}
  {
    var b' := bs[i].(free := false);
    TiledOrder(bs, from, to);
    assert bs[i..i + 1] == [bs[i]];
    Single(bs[i]);
    AbsorbSets(bs, from, to, i, i + 1, [b']);
    Single(b');
    if MIN_BLOCK <= size && size % 4 == 0 && size + MIN_BLOCK <= bs[i].size {
      HalvedSets(bs, from, to, i, size);
    }
  }

  lemma HalvedSets(bs: Layout, from: nat, to: nat, i: nat, size: nat)
    requires Tiled(bs, from, to) && i < |bs| && Live(bs[i..i + 1]) == {}
    requires WellFormed(bs[i]) && Cut(bs, to, i + 1) == bs[i].End()
    requires MIN_BLOCK <= size && size % 4 == 0 && size + MIN_BLOCK <= bs[i].size
    ensures Live(bs) <= Live(Halved(bs, i, size)) - {Halves(bs[i], size)[1]}
  {
    hide Tiled, FreeNodes;
    var mid := Halves(bs[i], size);
    TiledPair(mid[0], mid[1]);
    AbsorbSets(bs, from, to, i, i + 1, mid);
    assert mid[1] in mid;
  }

  // ---------------------------------------------------------------------------------------
  // Coalescing
  // ---------------------------------------------------------------------------------------

  lemma ReleaseCoalesced(bs: Layout, i: nat)
    requires i < |bs| && Coalesced(bs)
    ensures Coalesced(Release(bs, i))
  {
    var lo, hi := MergeLo(bs, i), MergeHi(bs, i);
    var bs' := Release(bs, i);
    forall k, l | 0 <= k && l == k + 1 && l < |bs'|
      ensures !(bs'[k].free && bs'[l].free)
    {
      if l < lo {
        assert bs'[k] == bs[k] && bs'[l] == bs[l];
      } else if l == lo {
        assert bs'[k] == bs[k];
        assert k + 1 < |bs| && !(bs[k].free && bs[k + 1].free);
      } else if k == lo {
        assert bs'[l] == bs[hi] && !(bs[hi - 1].free && bs[hi].free);
      } else {
        assert bs'[k] == bs[k - lo - 1 + hi] && bs'[l] == bs[l - lo - 1 + hi];
      }
    }
  }

  lemma GrantCoalesced(bs: Layout, i: nat, size: nat)
    requires i < |bs| && Coalesced(bs) && bs[i].free
    ensures Coalesced(Grant(bs, i, size))
  {
    var mid := Carve(bs[i], size);
    var bs' := Grant(bs, i, size);
    forall k, l | 0 <= k && l == k + 1 && l < |bs'|
      ensures !(bs'[k].free && bs'[l].free)
    {
      if l < i {
        assert bs'[k] == bs[k] && bs'[l] == bs[l];
      } else if l == i {
        assert bs'[l] == mid[0];
      } else if k < i + |mid| - 1 {
        assert bs'[k] == mid[k - i];
      } else if k == i + |mid| - 1 {
        assert bs'[l] == bs[i + 1] && !(bs[i].free && bs[i + 1].free);
      } else {
        assert bs'[k] == bs[k - |mid| + 1] && bs'[l] == bs[l - |mid| + 1];
      }
    }
  }
}
