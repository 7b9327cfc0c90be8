/** The allocator itself, working in place on the memory (memory.c). */
module HeapAllocator {
  import opened Sequences
  import opened Words
  import opened Rings
  import opened Blocks
  import opened HeapMemory

  // ---------------------------------------------------------------------------------------
  // What get_mem and free_mem do to the abstract heap
  // ---------------------------------------------------------------------------------------

  /** The heap after mem_setup. */
  function Initial(g: Geometry): State {
    State([Block(g.base, g.size, true)], [g.base + 4])
  }

  /** The size of the block whose free-list node is at `node`. */
  function SizeAt(bs: Layout, node: nat): nat {
    var i := HomeOf(bs, node);
    if i < |bs| then bs[i].size else 0
  }

  /** The position in the free list of the first block of at least `size` bytes; the length of
      the list if there is none. */
  function FirstFit(bs: Layout, ring: seq<nat>, size: nat): (k: nat)
    ensures k <= |ring|
    ensures k < |ring| ==> SizeAt(bs, ring[k]) >= size
    ensures forall j :: 0 <= j < k ==> SizeAt(bs, ring[j]) < size
  {
    if ring == [] || SizeAt(bs, ring[0]) >= size then 0 else 1 + FirstFit(bs, ring[1..], size)
  }

  lemma FirstFitIs(bs: Layout, ring: seq<nat>, size: nat, k: nat)
    requires k <= |ring|
    requires forall j :: 0 <= j < k ==> SizeAt(bs, ring[j]) < size
    requires k < |ring| ==> SizeAt(bs, ring[k]) >= size
    ensures FirstFit(bs, ring, size) == k
  {
  }

  /** The free list after `size` bytes of block `b` were allocated: what is left of the block, if
      anything, comes first. */
  function GrantRing(ring: seq<nat>, b: Block, size: nat): seq<nat> {
    (if b.size < size + MIN_BLOCK then [] else [b.Payload() + size]) + Remove(ring, b.Payload())
  }

  /** Allocation of a block of `size` bytes: the new heap and the payload, or NULL. */
  function Allocate(s: State, size: nat): (State, nat)
    requires size > 0
  {
    var k := FirstFit(s.blocks, s.ring, size);
    if k == |s.ring| then (s, NULL)
    else
      var i := HomeOf(s.blocks, s.ring[k]);
      var b := s.blocks[i];
      (State(Grant(s.blocks, i, size), GrantRing(s.ring, b, size)), b.Payload())
  }

  /** The free list after block `i` was freed: the merged block comes first, and the nodes of the
      neighbours it absorbed are gone. */
  function ReleaseRing(bs: Layout, ring: seq<nat>, i: nat): seq<nat>
    requires i < |bs|
  {
    var lo, hi := MergeLo(bs, i), MergeHi(bs, i);
    var rest := if lo < i then Remove(ring, bs[lo].Payload()) else ring;
    [bs[lo].Payload()] + if i + 1 < hi then Remove(rest, bs[i + 1].Payload()) else rest
  }

  function Liberate(s: State, p: nat): State
    requires LivePayload(s.blocks, p)
  {
    var i := HomeOf(s.blocks, p);
    State(Release(s.blocks, i), ReleaseRing(s.blocks, s.ring, i))
  }

  // ---------------------------------------------------------------------------------------
  // Facts about one state that the implementation needs
  // ---------------------------------------------------------------------------------------

  lemma BlockFacts(m: seq<Word>, g: Geometry, s: State, i: nat)
    requires HeapInv(m, g, s) && i < |s.blocks|
    ensures TagOk(m, s.blocks[i]) && Reads(m, s.blocks[i].addr, s.blocks[i])
    ensures g.base <= s.blocks[i].addr && s.blocks[i].End() <= g.End()
    ensures s.blocks[i].size + MIN_BLOCK < WORD_LIMIT
    ensures s.blocks[i].free ==> s.blocks[i].Payload() in NodesOf(s.ring)
  {
    TiledOrder(s.blocks, g.base, g.End());
    assert s.blocks[i] in s.blocks;
    TagReads(m, s.blocks[i]);
  }

  lemma MergePlan(m: seq<Word>, g: Geometry, s: State, i: nat)
    requires HeapInv(m, g, s) && i + 1 < |s.blocks| && s.blocks[i].free && s.blocks[i + 1].free
    ensures Live(s.blocks) <= Live(Flagged(s.blocks, i, false))
    ensures Live(s.blocks) <= Live(Flagged(s.blocks, i + 1, false))
    ensures Live(s.blocks) <= Live(Unlisted(s.blocks, i)) - {Unlisted(s.blocks, i)[i], Unlisted(s.blocks, i)[i + 1]}
  {
    hide Flagged, Unlisted, Live, FreeNodes, Tiled;
    FlaggedSets(s.blocks, g.base, g.End(), i, false);
    FlaggedSets(s.blocks, g.base, g.End(), i + 1, false);
    UnlistedSets(s.blocks, g.base, g.End(), i);
  }

  lemma JoinPlan(m: seq<Word>, g: Geometry, s: State, i: nat)
    requires HeapInv(m, g, s) && i + 1 < |s.blocks| && !s.blocks[i].free && !s.blocks[i + 1].free
    ensures Flagged(Joined(s.blocks, i), i, true) == Replace(s.blocks, i, i + 2, [Merged(s.blocks[i], s.blocks[i + 1])])
    ensures Live(s.blocks) - {s.blocks[i], s.blocks[i + 1]} <= Live(Joined(s.blocks, i)) - {Joined(s.blocks, i)[i]}
  {
    JoinedSets(s.blocks, g.base, g.End(), i);
  }

  /** What mem_block_merge reads of two neighbours. */
  lemma JoinReads(m: seq<Word>, g: Geometry, s: State, i: nat)
    requires HeapInv(m, g, s) && i + 1 < |s.blocks|
    ensures var b, c := s.blocks[i], s.blocks[i + 1];
            && Fits(m, b) && Fits(m, c) && 0 < b.addr && b.End() == c.addr
            && TagSize(m[b.addr]) == b.size && TagSize(m[c.addr]) == c.size
            && MIN_BLOCK <= b.size + c.size && b.size + c.size + 1 < WORD_LIMIT && (b.size + c.size) % 4 == 0
  {
    hide HeapInv;
    Neighbours(m, g, s, i);
  }

  /** Unlinking the node of a free block keeps that block's tags. */
  lemma TagsSurviveUnlink(m: seq<Word>, m1: seq<Word>, g: Geometry, s: State, i: nat, k: nat)
    requires HeapInv(m, g, s) && i < |s.blocks| && k < |s.ring| && s.ring[k] == s.blocks[i].Payload()
    requires SameExcept(m, m1, {s.ring[k], s.ring[k] + 4, At(g.head, s.ring, k), At(g.head, s.ring, k + 2) + 4})
    ensures TagOk(m1, s.blocks[i])
  {
    TiledOrder(s.blocks, g.base, g.End());
    NodeHome(m, g, s, i);
    assert TagOk(m, s.blocks[i]);
  }

  /** Every node of the free list is the payload of a free block. */
  lemma NodeIsFree(m: seq<Word>, g: Geometry, s: State, k: nat)
    requires HeapInv(m, g, s) && k < |s.ring|
    ensures var i := HomeOf(s.blocks, s.ring[k]);
            i < |s.blocks| && s.blocks[i].free && s.blocks[i].Payload() == s.ring[k] && s.ring[k] > 4
  {
    assert s.ring[k] in NodesOf(s.ring);
    var b :| b in s.blocks && b.free && b.Payload() == s.ring[k];
    var j :| 0 <= j < |s.blocks| && s.blocks[j] == b;
    HomeUnique(s.blocks, g.base, g.End(), j);
    TiledOrder(s.blocks, g.base, g.End());
  }

  lemma FreeListStep(m: seq<Word>, g: Geometry, s: State, k: nat)
    requires HeapInv(m, g, s) && k <= |s.ring|
    ensures At(g.head, s.ring, k) < |m| && m[At(g.head, s.ring, k)] == At(g.head, s.ring, k + 1)
    ensures At(g.head, s.ring, k + 1) == g.head <==> k == |s.ring|
  {
    RingWalk(m, g.head, s.ring, k);
  }

  /** The tags that mem_block_split writes are those of the two halves. */
  lemma SplitTags(m: seq<Word>, m': seq<Word>, b: Block, size: nat)
    requires Fits(m, b) && b.size + 1 < WORD_LIMIT
    requires MIN_BLOCK <= size && size % 4 == 0 && size + MIN_BLOCK <= b.size
    requires m' == m[b.addr := size + 1][b.addr + size - 4 := size + 1]
                    [b.addr + size := b.size - size + 1][b.End() - 4 := b.size - size + 1]
    ensures TagOk(m', Halves(b, size)[0]) && TagOk(m', Halves(b, size)[1])
  {
  }

  lemma SplitStep(m: seq<Word>, m': seq<Word>, g: Geometry, s: State, i: nat, size: nat)
    requires HeapInv(m, g, s) && i < |s.blocks| && !s.blocks[i].free
    requires MIN_BLOCK <= size && size % 4 == 0 && size + MIN_BLOCK <= s.blocks[i].size
    requires Fits(m, s.blocks[i]) && s.blocks[i].size + 1 < WORD_LIMIT
    requires var b := s.blocks[i];
             m' == m[b.addr := size + 1][b.addr + size - 4 := size + 1]
                    [b.addr + size := b.size - size + 1][b.End() - 4 := b.size - size + 1]
    ensures HeapInv(m', g, State(Halved(s.blocks, i, size), s.ring))
    ensures Kept(m, m', g, Live(s.blocks) - {s.blocks[i]})
  {
    hide HeapInv, Kept, TagOk;
    var b, mid := s.blocks[i], Halves(s.blocks[i], size);
    assert s.blocks[i..i + 1] == [b];
    Single(b);
    TiledPair(mid[0], mid[1]);
    SplitTags(m, m', b, size);
    ReshapeStep(m, m', g, s, i, i + 1, mid, {b.addr, b.addr + size - 4, b.addr + size, b.End() - 4});
  }

  lemma LiveFits(m: seq<Word>, g: Geometry, s: State)
    requires HeapInv(m, g, s)
    ensures Kept(m, m, g, Live(s.blocks))
  {
    forall b | b in Live(s.blocks)
      ensures TagOk(m, b)
    {
    }
  }

  lemma AllocatePlan(m: seq<Word>, g: Geometry, s: State, size: nat)
    requires HeapInv(m, g, s) && Coalesced(s.blocks)
    requires MIN_BLOCK <= size && size % 4 == 0
    requires FirstFit(s.blocks, s.ring, size) < |s.ring|
    ensures var p := Allocate(s, size).1;
            var i := HomeOf(s.blocks, p);
            && p == s.ring[FirstFit(s.blocks, s.ring, size)] && p > 4
            && i < |s.blocks| && s.blocks[i].free && s.blocks[i].Payload() == p && s.blocks[i].size >= size
            && Coalesced(Grant(s.blocks, i, size))
            && Live(s.blocks) <= Live(Flagged(s.blocks, i, false)) - {s.blocks[i].(free := false)}
            && (s.blocks[i].size >= size + MIN_BLOCK ==>
                  Live(s.blocks) <= Live(Halved(s.blocks, i, size)) - {Halves(s.blocks[i], size)[1]})
  {
    var k := FirstFit(s.blocks, s.ring, size);
    NodeIsFree(m, g, s, k);
    var i := HomeOf(s.blocks, s.ring[k]);
    BlockFacts(m, g, s, i);
    GrantCoalesced(s.blocks, i, size);
    GrantSets(s.blocks, g.base, g.End(), i, size);
  }

  lemma LiberatePlan(m: seq<Word>, g: Geometry, s: State, p: nat)
    requires HeapInv(m, g, s) && Coalesced(s.blocks) && LivePayload(s.blocks, p)
    ensures p > 4
    ensures Live(Flagged(s.blocks, HomeOf(s.blocks, p), true)) == Live(s.blocks) - {s.blocks[HomeOf(s.blocks, p)]}
    ensures Coalesced(Liberate(s, p).blocks)
  {
    var i := HomeOf(s.blocks, p);
    BlockFacts(m, g, s, i);
    FlaggedSets(s.blocks, g.base, g.End(), i, true);
    ReleaseCoalesced(s.blocks, i);
  }

  lemma MergeLive(m: seq<Word>, g: Geometry, s: State, i: nat)
    requires HeapInv(m, g, s) && i + 1 < |s.blocks| && s.blocks[i].free && s.blocks[i + 1].free
    ensures Live(Replace(s.blocks, i, i + 2, [Merged(s.blocks[i], s.blocks[i + 1])])) == Live(s.blocks)
  {
    MergeSets(s.blocks, g.base, g.End(), i);
  }

  lemma SetupInv(m: seq<Word>, g: Geometry)
    requires g.Valid(|m|)
    requires m[g.head] == g.head && m[g.head + 4] == g.head
    requires m[g.base] == g.size + 1 && m[g.End() - 4] == g.size + 1
    ensures HeapInv(m, g, State([Block(g.base, g.size, false)], []))
  {
    var b := Block(g.base, g.size, false);
    assert [b][1..] == [];
    Single(b);
    assert TagOk(m, b);
  }

  lemma UserStep(m: seq<Word>, m': seq<Word>, g: Geometry, s: State, i: nat, a: nat)
    requires HeapInv(m, g, s) && i < |s.blocks| && !s.blocks[i].free
    requires s.blocks[i].Payload() <= a < s.blocks[i].End() - 4
    requires SameExcept(m, m', {a})
    ensures HeapInv(m', g, s)
  {
    hide HeapInv;
    var b := s.blocks[i];
    BlockFacts(m, g, s, i);
    assert TagOk(m', b);
    assert [b][1..] == [];
    assert s.blocks[i..i + 1] == [b];
    assert Replace(s.blocks, i, i + 1, [b]) == s.blocks;
    ReshapeStep(m, m', g, s, i, i + 1, [b], {a});
  }

  lemma JoinStep(m: seq<Word>, m': seq<Word>, g: Geometry, s: State, i: nat)
    requires HeapInv(m, g, s) && i + 1 < |s.blocks| && !s.blocks[i].free && !s.blocks[i + 1].free
    requires Fits(m, s.blocks[i]) && Fits(m, s.blocks[i + 1]) && s.blocks[i].End() == s.blocks[i + 1].addr
    requires s.blocks[i].size + s.blocks[i + 1].size + 1 < WORD_LIMIT
    requires var b, c := s.blocks[i], s.blocks[i + 1];
             m' == m[b.addr := b.size + c.size + 1][c.End() - 4 := b.size + c.size + 1]
    ensures HeapInv(m', g, State(Joined(s.blocks, i), s.ring))
    ensures Kept(m, m', g, Live(s.blocks) - {s.blocks[i], s.blocks[i + 1]})
  {
    hide HeapInv, Kept;
    var b, c := s.blocks[i], s.blocks[i + 1];
    var mid := [Merged(b, c).(free := false)];
    assert s.blocks[i..i + 2] == [b, c];
    assert Live([b, c]) == {b, c} by { assert b in [b, c] && c in [b, c]; }
    assert TagOk(m', mid[0]);
    ReshapeStep(m, m', g, s, i, i + 2, mid, {b.addr, c.End() - 4});
  }

  // ---------------------------------------------------------------------------------------
  // The implementation
  // ---------------------------------------------------------------------------------------

  class Heap {
    const mem: array<Word>
    const geo: Geometry
    ghost var state: State

    /** What every step keeps. */
    ghost predicate Inv()
      reads this, mem
    {
      HeapInv(mem[..], geo, state)
    }

    /** What holds between calls. */
    ghost predicate Valid()
      reads this, mem
    {
      Inv() && Coalesced(state.blocks)
    }

    /** mem_setup: one free block that covers the whole heap. */
    constructor (mem: array<Word>, geo: Geometry)
      requires geo.Valid(mem.Length)
      modifies mem
      ensures this.mem == mem && this.geo == geo
      ensures Valid()
      ensures state == Initial(geo)
      ensures Kept(old(mem[..]), mem[..], geo, {})
    {
      this.mem := mem;
      this.geo := geo;
      this.state := State([Block(geo.base, geo.size, false)], []);
      new;
      BlockInit(geo.base, geo.size);
      mem[geo.head] := geo.head;
      mem[geo.head + 4] := geo.head;
      ghost var m := mem[..];
      SetupInv(m, geo);
      FreeListAdd(geo.base, 0);
      assert state.blocks == Initial(geo).blocks;
    }

    /** A caller stores a word in a payload it holds. */
    method UserWrite(ptr: nat, a: nat, v: Word)
      requires Valid() && LivePayload(state.blocks, ptr)
      requires a % 4 == 0 && ptr <= a < state.blocks[HomeOf(state.blocks, ptr)].End() - 4
      modifies mem
      ensures Valid()
      ensures a < mem.Length && mem[..] == old(mem[..])[a := v]
    {
      hide HeapInv, Coalesced;
      ghost var m := mem[..];
      BlockFacts(m, geo, state, HomeOf(state.blocks, ptr));
      mem[a] := v;
      UserStep(m, mem[..], geo, state, HomeOf(state.blocks, ptr), a);
    }

    /** mem_block_init: both tags of a block, marked allocated. */
    method BlockInit(block: nat, size: Word)
      requires block + size <= mem.Length && MIN_BLOCK <= size && size % 4 == 0
      modifies mem
      ensures mem[..] == old(mem[..])[block := size + 1][block + size - 4 := size + 1]
    {
      mem[block] := size + 1;
      mem[block + size - 4] := size + 1;
    }

    /** mem_block_clear_allocated: both flags of block `b`. */
    method BlockClearAllocated(block: nat, ghost b: Block)
      requires TagOk(mem[..], b) && b.addr == block
      modifies mem
      ensures TagOk(mem[..], b.(free := true))
      ensures SameExcept(old(mem[..]), mem[..], {block, b.End() - 4})
    {
      hide TagSize;
      TagValues(b.size);
      mem[block] := TagSize(mem[block]);
      var size := TagSize(mem[block]);
      mem[block + size - 4] := TagSize(mem[block + size - 4]);
    }

    /** mem_block_set_allocated: both flags of block `b`. */
    method BlockSetAllocated(block: nat, ghost b: Block)
      requires TagOk(mem[..], b) && b.addr == block
      modifies mem
      ensures TagOk(mem[..], b.(free := false))
      ensures SameExcept(old(mem[..]), mem[..], {block, b.End() - 4})
    {
      hide TagSize;
      TagValues(b.size);
      mem[block] := TagSize(mem[block]) + 1;
      var size := TagSize(mem[block]);
      mem[block + size - 4] := TagSize(mem[block + size - 4]) + 1;
    }

    /** mem_free_list_add: clears the allocation flags of an allocated block and puts it first on
        the free list. */
    method FreeListAdd(block: nat, ghost i: nat)
      requires Inv() && i < |state.blocks| && state.blocks[i].addr == block && !state.blocks[i].free
      modifies this, mem
      ensures Inv()
      ensures state == old(State(Flagged(state.blocks, i, true), [block + 4] + state.ring))
      ensures Kept(old(mem[..]), mem[..], geo, old(Live(state.blocks) - {state.blocks[i]}))
    {
      hide Kept, Live, Flagged;
      ghost var s := state;
      ghost var m := mem[..];
      BlockFacts(m, geo, s, i);
      BlockClearAllocated(block, s.blocks[i]);
      ghost var m1 := mem[..];
      ReadyToAdd(m, m1, geo, s, i);
      ListAdd(mem, block + 4, geo.head, s.ring);
      state := State(Flagged(s.blocks, i, true), [block + 4] + s.ring);
      assert At(geo.head, s.ring, 0) == geo.head;
      NodeHome(m, geo, s, i);
      AddStep(m, mem[..], geo, s, i);
    }

    /** mem_free_list_remove: takes a free block off the list and marks it allocated. */
    method FreeListRemove(block: nat, ghost i: nat)
      requires Inv() && i < |state.blocks| && state.blocks[i].addr == block && state.blocks[i].free
      modifies this, mem
      ensures Inv()
      ensures state == old(State(Flagged(state.blocks, i, false), Remove(state.ring, block + 4)))
      ensures Kept(old(mem[..]), mem[..], geo, old(Live(state.blocks)))
    {
      hide Kept, Live, Flagged;
      ghost var s := state;
      ghost var m := mem[..];
      BlockFacts(m, geo, s, i);
      ghost var k := Position(s.ring, block + 4);
      NodeHome(m, geo, s, i);
      ListDel(mem, block + 4, geo.head, s.ring, k);
      ghost var m1 := mem[..];
      TagsSurviveUnlink(m, m1, geo, s, i, k);
      BlockSetAllocated(block, s.blocks[i]);
      state := State(Flagged(s.blocks, i, false), Remove(s.ring, block + 4));
      ReadyToFlag(m, m1, mem[..], geo, s, i, k);
      RemoveStep(m, mem[..], geo, s, i, k);
    }

    /** mem_free_list_find: the first block on the free list that is large enough. */
    method FreeListFind(size: Word) returns (block: nat)
      requires Inv() && size > 0
      ensures var k := FirstFit(state.blocks, state.ring, size);
              if k == |state.ring| then block == NULL else block != NULL && block + 4 == state.ring[k]
    {
      hide HeapInv, TagSize, HomeOf, FirstFit, TagOk, NodesOf;
      ghost var ring := state.ring;
      ghost var k := 0;
      FreeListStep(mem[..], geo, state, 0);
      var node := mem[geo.head];
      while node != geo.head
        invariant 0 <= k <= |ring| && node == At(geo.head, ring, k + 1)
        invariant forall j :: 0 <= j < k ==> SizeAt(state.blocks, ring[j]) < size
        decreases |ring| - k
      {
        FreeListStep(mem[..], geo, state, k + 1);
        NodeIsFree(mem[..], geo, state, k);
        BlockFacts(mem[..], geo, state, HomeOf(state.blocks, ring[k]));
        block := node - 4;
        if TagSize(mem[block]) >= size {
          FirstFitIs(state.blocks, ring, size, k);
          return;
        }
        node := mem[node];
        k := k + 1;
      }
      FreeListStep(mem[..], geo, state, k);
      FirstFitIs(state.blocks, ring, size, k);
      block := NULL;
    }

    /** mem_block_split: cuts an allocated block in two if the rest can hold a block. */
    method BlockSplit(block: nat, size: Word, ghost i: nat) returns (block2: nat)
      requires Inv() && i < |state.blocks| && state.blocks[i].addr == block && !state.blocks[i].free
      requires MIN_BLOCK <= size <= state.blocks[i].size && size % 4 == 0
      modifies this, mem
      ensures Inv()
      ensures var b := old(state.blocks[i]);
              if b.size < size + MIN_BLOCK then
                block2 == NULL && state == old(state) && mem[..] == old(mem[..])
              else
                && block2 == block + size
                && state == old(State(Halved(state.blocks, i, size), state.ring))
                && Kept(old(mem[..]), mem[..], geo, old(Live(state.blocks) - {state.blocks[i]}))
    {
      hide HeapInv, TagSize;
      ghost var s := state;
      ghost var m := mem[..];
      BlockFacts(m, geo, s, i);
      if TagSize(mem[block]) < Wrap(size as int + MIN_BLOCK) {
        return NULL;
      }
      var total := TagSize(mem[block]);
      BlockInit(block, size);
      block2 := block + size;
      BlockInit(block2, total - size);
      state := State(Halved(s.blocks, i, size), s.ring);
      SplitStep(m, mem[..], geo, s, i, size);
    }

    /** mem_block_prev: the block before `block`, found through its footer. */
    method BlockPrev(block: nat, ghost i: nat) returns (prev: nat)
      requires Inv() && i < |state.blocks| && state.blocks[i].addr == block
      ensures if i == 0 then prev == NULL else prev != NULL && prev == state.blocks[i - 1].addr
    {
      hide HeapInv, TagSize;
      Neighbours(mem[..], geo, state, i);
      if block == geo.base {
        return NULL;
      }
      prev := block - TagSize(mem[block - 4]);
    }

    /** mem_block_next: the block after `block`, found through its header. */
    method BlockNext(block: nat, ghost i: nat) returns (next: nat)
      requires Inv() && i < |state.blocks| && state.blocks[i].addr == block
      ensures if i + 1 == |state.blocks| then next == NULL else next != NULL && next == state.blocks[i + 1].addr
    {
      hide HeapInv, TagSize;
      Neighbours(mem[..], geo, state, i);
      next := block + TagSize(mem[block]);
      if next == geo.End() {
        return NULL;
      }
    }

    /** The second half of mem_block_merge: two allocated neighbours, given in either order,
        become one free block. */
    method JoinAndFree(block1: nat, block2: nat, ghost i: nat) returns (merged: nat)
      requires Inv() && i + 1 < |state.blocks| && !state.blocks[i].free && !state.blocks[i + 1].free
      requires || (block1 == state.blocks[i].addr && block2 == state.blocks[i + 1].addr)
               || (block2 == state.blocks[i].addr && block1 == state.blocks[i + 1].addr)
      modifies this, mem
      ensures Inv()
      ensures merged != NULL && merged == old(state.blocks[i]).addr
      ensures state == old(State(Replace(state.blocks, i, i + 2, [Merged(state.blocks[i], state.blocks[i + 1])]),
                                 [state.blocks[i].Payload()] + state.ring))
      ensures Kept(old(mem[..]), mem[..], geo, old(Live(state.blocks) - {state.blocks[i], state.blocks[i + 1]}))
    {
      hide HeapInv, Kept, Live, TagSize, Joined, Replace, Flagged;
      ghost var s := state;
      ghost var m := mem[..];
      JoinReads(m, geo, s, i);
      JoinPlan(m, geo, s, i);
      ghost var b, c := s.blocks[i], s.blocks[i + 1];
      var size := TagSize(mem[block1]) + TagSize(mem[block2]);
      assert size == b.size + c.size;
      merged := if block1 > block2 then block2 else block1;
      BlockInit(merged, size);
      ghost var m1 := mem[..];
      JoinStep(m, m1, geo, s, i);
      state := State(Joined(s.blocks, i), s.ring);
      ghost var kept := Live(s.blocks) - {b, c};
      FreeListAdd(merged, i);
      KeptTrans(m, m1, mem[..], geo, kept, kept, Live(Joined(s.blocks, i)) - {Joined(s.blocks, i)[i]});
    }

    /** mem_block_merge: makes two free neighbours, given in either order, one free block. */
    method BlockMerge(block1: nat, block2: nat, ghost i: nat) returns (merged: nat)
      requires Inv() && i + 1 < |state.blocks|
      requires || (block1 == state.blocks[i].addr && block2 == state.blocks[i + 1].addr)
               || (block2 == state.blocks[i].addr && block1 == state.blocks[i + 1].addr)
      modifies this, mem
      ensures Inv()
      ensures var b, c := old(state.blocks[i]), old(state.blocks[i + 1]);
              if b.free && c.free then
                && merged != NULL && merged == b.addr
                && state == old(State(Replace(state.blocks, i, i + 2, [Merged(state.blocks[i], state.blocks[i + 1])]),
                                      [state.blocks[i].Payload()] + Remove(Remove(state.ring, block1 + 4), block2 + 4)))
                && Kept(old(mem[..]), mem[..], geo, old(Live(state.blocks)))
              else
                merged == NULL && state == old(state) && mem[..] == old(mem[..])
    {
      hide HeapInv, Kept, Live, TagSize, TagAllocated, Flagged, Unlisted, Remove, TagOk;
      ghost var s := state;
      ghost var m := mem[..];
      Neighbours(m, geo, s, i);
      if TagAllocated(mem[block1]) || TagAllocated(mem[block2]) {
        return NULL;
      }
      ghost var i1 := if block1 == s.blocks[i].addr then i else i + 1;
      ghost var i2 := if block1 == s.blocks[i].addr then i + 1 else i;
      ghost var kept := Live(s.blocks);
      MergePlan(m, geo, s, i);
      UnlistedInSteps(s.blocks, i);
      FreeListRemove(block1, i1);
      ghost var m1, s1 := mem[..], state;
      FreeListRemove(block2, i2);
      ghost var m2, s2 := mem[..], state;
      assert s2.blocks == Unlisted(s.blocks, i);
      assert s2.ring == Remove(Remove(s.ring, block1 + 4), block2 + 4);
      assert Merged(s2.blocks[i], s2.blocks[i + 1]) == Merged(s.blocks[i], s.blocks[i + 1]);
      KeptTrans(m, m1, m2, geo, kept, kept, Live(s1.blocks));
      merged := JoinAndFree(block1, block2, i);
      assert state.blocks == Replace(s.blocks, i, i + 2, [Merged(s.blocks[i], s.blocks[i + 1])]);
      assert state.ring == [s.blocks[i].Payload()] + s2.ring;
      KeptTrans(m, m2, mem[..], geo, kept, kept, Live(s2.blocks) - {s2.blocks[i], s2.blocks[i + 1]});
    }

    /** get_mem: a payload of at least `size` bytes, or NULL for an empty request.  When no free
        block is large enough the code spins with interrupts off (memory.c:635) and the `return
        NULL` behind that is never reached; here that outcome is NULL with nothing changed. */
    method GetMem(size: Word) returns (ptr: nat)
      requires Valid()
      modifies this, mem
      ensures Valid()
      ensures size == 0 ==> ptr == NULL
      ensures size > 0 ==> (state, ptr) == Allocate(old(state), BlockSizeFor(size))
      ensures ptr == NULL ==> state == old(state) && mem[..] == old(mem[..])
      ensures Kept(old(mem[..]), mem[..], geo, old(Live(state.blocks)))
    {
      hide HeapInv, Kept, Live, BlockSizeFor, Coalesced, Grant, Flagged, Halved, HomeOf, FirstFit, Remove, Replace;
      ghost var s, m := state, mem[..];
      LiveFits(m, geo, s);
      if size == 0 {
        return NULL;
      }
      BlockSizeAligned(size);
      var blockSize := BlockSizeFor(size);
      var block := FreeListFind(blockSize);
      if block == NULL {
        return NULL;
      }
      ghost var i := HomeOf(s.blocks, block + 4);
      AllocatePlan(m, geo, s, blockSize);
      GrantInSteps(s.blocks, i, blockSize);
      ghost var kept := Live(s.blocks);
      FreeListRemove(block, i);
      ghost var m1, s1 := mem[..], state;
      var block2 := BlockSplit(block, blockSize, i);
      if block2 != NULL {
        ghost var m2, s2 := mem[..], state;
        KeptTrans(m, m1, m2, geo, kept, kept, Live(s1.blocks) - {s1.blocks[i]});
        FreeListAdd(block2, i + 1);
        KeptTrans(m, m2, mem[..], geo, kept, kept, Live(s2.blocks) - {s2.blocks[i + 1]});
      }
      assert state.blocks == Grant(s.blocks, i, blockSize);
      assert state.ring == GrantRing(s.ring, s.blocks[i], blockSize);
      ptr := block + 4;
    }

    /** free_mem: gives a live payload back, merging its block with free neighbours. */
    method FreeMem(ptr: nat)
      requires Valid()
      requires ptr != NULL ==> LivePayload(state.blocks, ptr)
      modifies this, mem
      ensures Valid()
      ensures ptr == NULL ==> state == old(state) && mem[..] == old(mem[..])
      ensures ptr != NULL ==> state == Liberate(old(state), ptr)
      ensures ptr != NULL ==> Kept(old(mem[..]), mem[..], geo,
                                   old(Live(state.blocks) - {state.blocks[HomeOf(state.blocks, ptr)]}))
    {
      hide HeapInv, Kept, Live, Coalesced, Flagged, HomeOf, Remove, Release, MergedDown, Span;
      if ptr == NULL {
        return;
      }
      ghost var s, m, i := state, mem[..], HomeOf(state.blocks, ptr);
      ghost var kept := Live(s.blocks) - {s.blocks[i]};
      LiberatePlan(m, geo, s, ptr);
      var block := ptr - 4;
      FreeListAdd(block, i);
      ghost var s1, m1, j := state, mem[..], i;
      RemoveFirst(ptr, s.ring);
      var tmp := BlockPrev(block, i);
      if tmp != NULL {
        tmp := BlockMerge(block, tmp, i - 1);
        if tmp != NULL {
          block := tmp;
          j := i - 1;
          MergeLive(m1, geo, s1, j);
          KeptTrans(m, m1, mem[..], geo, kept, kept, kept);
        }
      }
      ghost var s2, m2 := state, mem[..];
      ghost var rest := if j < i then Remove(s.ring, block + 4) else s.ring;
      assert s2.ring == [block + 4] + rest && Live(s2.blocks) == kept;
      RemoveFirst(block + 4, rest);
      tmp := BlockNext(block, j);
      if tmp != NULL {
        var merged := BlockMerge(block, tmp, j);
        if merged != NULL {
          KeptTrans(m, m2, mem[..], geo, kept, kept, kept);
        }
      }
      ReleaseFirstSteps(s.blocks, i, s1.blocks, j, s2.blocks);
      ReleaseLastStep(s.blocks, i, j, s2.blocks, state.blocks);
      assert state.ring == ReleaseRing(s.blocks, s.ring, i);
    }
  }
}
