/** Scheduler and heap in one memory (process.c, wait.c, memory.c): the process blocks, their stacks
and the wait records are allocations of the heap, and are given back to it by free_mem. */
module Kernels {
  import opened Sequences
  import opened Words
  import opened Rings
  import opened RingFamilies
  import opened Scheduling
  import opened Processes
  import opened Blocks
  import opened HeapMemory
  import opened HeapAllocator
  import opened HeapLaws

  /** The object at `x` lies in the payload of `b`. */
  ghost predicate Inside(b: Block, x: nat) {
    b.Payload() <= x && x + 12 <= b.End() - 4
  }

  /** Every object lies in an allocation of its own. */
  ghost predicate Housed(live: set<Block>, objs: set<nat>, home: map<nat, Block>) {
    && (forall x :: x in objs ==> x in home && home[x] in live && Inside(home[x], x))
    && (forall x, y :: x in objs && y in objs && x != y ==> x in home && y in home && home[x] != home[y])
  }

  /** The list heads of the scheduler are outside the heap, and none is the free list's. */
  ghost predicate HeadsOutside(g: Geometry, heads: set<nat>) {
    forall h :: h in heads ==> (h + 8 <= g.base || g.End() <= h) && Apart(h, g.head)
  }

  /** A process block starts 8 bytes before its node, a wait record at its node. */
  ghost predicate AtHome(objs: set<nat>, procs: set<nat>, home: map<nat, Block>) {
    forall x :: x in objs ==> x in home && home[x].Payload() + (if x in procs then 8 else 0) == x
  }

  /** Every process has a stack, an allocation of its own, whose address is in its block. */
  ghost predicate Stacked(m: seq<Word>, live: set<Block>, objs: set<nat>, procs: set<nat>,
                          home: map<nat, Block>, stacks: map<nat, Block>) {
    && (forall p :: p in procs ==>
          && p in objs && 8 < p && p < |m|
          && p in stacks && stacks[p] in live && m[p - 4] == stacks[p].Payload())
    && (forall p, q :: p in procs && q in procs && p != q ==> p in stacks && q in stacks && stacks[p] != stacks[q])
    && (forall p, x :: p in procs && x in objs ==> p in stacks && x in home && stacks[p] != home[x])
  }

  // ---------------------------------------------------------------------------------------
  // What the scheduler writes leaves the heap alone
  // ---------------------------------------------------------------------------------------

  ghost predicate PayloadCell(live: set<Block>, a: int) {
    exists b :: b in live && b.Payload() <= a < b.End() - 4
  }

  ghost predicate OutsideCell(g: Geometry, a: int) {
    !(g.base <= a < g.End()) && a != g.head && a != g.head + 4
  }

  /** Only words of payloads, and words outside heap and free list, changed. */
  ghost predicate Harmless(m: seq<Word>, m': seq<Word>, g: Geometry, live: set<Block>) {
    && |m'| == |m|
    && forall a: int :: 0 <= a < |m| && m'[a] != m[a] ==> PayloadCell(live, a) || OutsideCell(g, a)
  }

  lemma ObjectCell(live: set<Block>, objs: set<nat>, home: map<nat, Block>, x: nat, a: int)
    requires Housed(live, objs, home) && x in objs && x <= a < x + 12
    ensures PayloadCell(live, a)
  {
    assert home[x] in live && Inside(home[x], x);
  }

  lemma FrameCells(m: seq<Word>, m': seq<Word>, objs: set<nat>, heads: set<nat>, marked: set<nat>, a: int)
    requires Frame(m, m', objs + heads, marked) && marked <= objs
    requires 0 <= a < |m| && m'[a] != m[a]
    ensures a in objs || a - 4 in objs || a - 8 in objs || a in heads || a - 4 in heads
  {
    assert a in objs + heads || a - 4 in objs + heads || a - 8 in marked;
  }

  lemma FrameHarmless(m: seq<Word>, m': seq<Word>, g: Geometry, live: set<Block>, objs: set<nat>, heads: set<nat>,
                      home: map<nat, Block>, marked: set<nat>)
    requires Frame(m, m', objs + heads, marked) && marked <= objs
    requires Housed(live, objs, home) && HeadsOutside(g, heads)
    ensures Harmless(m, m', g, live)
  {
    forall a: int | 0 <= a < |m| && m'[a] != m[a]
      ensures PayloadCell(live, a) || OutsideCell(g, a)
    {
      FrameCells(m, m', objs, heads, marked, a);
      if a in objs {
        ObjectCell(live, objs, home, a, a);
      } else if a - 4 in objs {
        ObjectCell(live, objs, home, a - 4, a);
      } else if a - 8 in objs {
        ObjectCell(live, objs, home, a - 8, a);
      } else {
        assert a in heads || a - 4 in heads;
      }
    }
  }

  lemma PayloadNoTag(m: seq<Word>, g: Geometry, s: State, i: nat, a: int)
    requires HeapInv(m, g, s) && i < |s.blocks| && s.blocks[i].Payload() <= a < s.blocks[i].End() - 4
    ensures g.base < a < g.End()
    ensures forall b :: b in s.blocks ==> a != b.addr && a != b.End() - 4
  {
    hide IsRing, Tagged, NodesOf;
    TiledOrder(s.blocks, g.base, g.End());
    forall b | b in s.blocks
      ensures a != b.addr && a != b.End() - 4
    {
      var j :| 0 <= j < |s.blocks| && s.blocks[j] == b;
    }
  }

  /** The payload of a live block meets neither a tag nor a link of the free list. */
  lemma PayloadApart(m: seq<Word>, g: Geometry, s: State, a: int)
    requires HeapInv(m, g, s) && PayloadCell(Live(s.blocks), a)
    ensures g.base < a < g.End()
    ensures forall b :: b in s.blocks ==> a != b.addr && a != b.End() - 4
    ensures forall k :: 0 <= k <= |s.ring| ==> a != At(g.head, s.ring, k) && a != At(g.head, s.ring, k) + 4
  {
    var c :| c in Live(s.blocks) && c.Payload() <= a < c.End() - 4;
    var i :| 0 <= i < |s.blocks| && s.blocks[i] == c;
    PayloadNoTag(m, g, s, i, a);
    NodeHome(m, g, s, i);
    hide HeapInv;
    forall k | 0 <= k <= |s.ring|
      ensures a != At(g.head, s.ring, k) && a != At(g.head, s.ring, k) + 4
    {
      assert HomeApart(g, s.blocks[i], At(g.head, s.ring, k));
    }
  }

  lemma OutsideApart(m: seq<Word>, g: Geometry, s: State, a: int)
    requires HeapInv(m, g, s) && OutsideCell(g, a)
    ensures forall b :: b in s.blocks ==> a != b.addr && a != b.End() - 4
    ensures forall k :: 0 <= k <= |s.ring| ==> a != At(g.head, s.ring, k) && a != At(g.head, s.ring, k) + 4
  {
    TiledOrder(s.blocks, g.base, g.End());
    NodeHome(m, g, s, 0);
    forall b | b in s.blocks
      ensures a != b.addr && a != b.End() - 4
    {
      var j :| 0 <= j < |s.blocks| && s.blocks[j] == b;
    }
  }

  /** Writes to payloads and outside the heap keep the heap. */
  lemma HeapSurvives(m: seq<Word>, m': seq<Word>, g: Geometry, s: State)
    requires HeapInv(m, g, s) && Harmless(m, m', g, Live(s.blocks))
    ensures HeapInv(m', g, s)
  {
    var cells := set a | 0 <= a < |m| && m'[a] != m[a];
    forall a | a in cells
      ensures forall b :: b in s.blocks ==> a != b.addr && a != b.End() - 4
      ensures forall k :: 0 <= k <= |s.ring| ==> a != At(g.head, s.ring, k) && a != At(g.head, s.ring, k) + 4
    {
      if PayloadCell(Live(s.blocks), a) {
        PayloadApart(m, g, s, a);
      } else {
        OutsideApart(m, g, s, a);
      }
    }
    forall b | b in s.blocks
      ensures TagOk(m', b)
    {
      assert TagOk(m, b);
      assert b.addr !in cells && b.End() - 4 !in cells;
    }
    RingFrame(m, m', g.head, s.ring, cells);
  }

  // ---------------------------------------------------------------------------------------
  // What the heap writes leaves the scheduler alone
  // ---------------------------------------------------------------------------------------

  /** The three words of every object, and both links of every list head, are the same. */
  ghost predicate Preserved(m: seq<Word>, m': seq<Word>, objs: set<nat>, heads: set<nat>) {
    && |m'| == |m|
    && (forall x :: x in objs ==> x + 12 <= |m| && m'[x] == m[x] && m'[x + 4] == m[x + 4] && m'[x + 8] == m[x + 8])
    && (forall h :: h in heads && h + 8 <= |m| ==> m'[h] == m[h] && m'[h + 4] == m[h + 4])
  }

  lemma KeptPreserves(m: seq<Word>, m': seq<Word>, g: Geometry, kept: set<Block>, objs: set<nat>, heads: set<nat>,
                      home: map<nat, Block>)
    requires Kept(m, m', g, kept) && Housed(kept, objs, home) && HeadsOutside(g, heads)
    ensures Preserved(m, m', objs, heads)
  {
    forall x | x in objs
      ensures x + 12 <= |m| && m'[x] == m[x] && m'[x + 4] == m[x + 4] && m'[x + 8] == m[x + 8]
    {
      assert Untouched(m, m', home[x]) && Inside(home[x], x);
    }
  }

  lemma BaseSurvives(m: seq<Word>, m': seq<Word>, objs: set<nat>, f: Family)
    requires Base(m, objs, f) && Preserved(m, m', objs, f.Keys)
    ensures Base(m', objs, f) && ThirdWordsKept(m, m', objs)
  {
    var cells := set a | 0 <= a < |m| && m'[a] != m[a];
    forall h | h in f
      ensures IsRing(m', h, f[h])
    {
      forall i | 0 <= i <= |f[h]|
        ensures At(h, f[h], i) !in cells && At(h, f[h], i) + 4 !in cells
      {
        NodeIsObject(objs, f, h, i);
        RingWalk(m, h, f[h], i);
      }
      RingFrame(m, m', h, f[h], cells);
    }
  }

  lemma TableSurvives(m: seq<Word>, m': seq<Word>, l: Lists, objs: set<nat>, f: Family, s: Sched)
    requires Represents(m, l, objs, f, s) && Preserved(m, m', objs, f.Keys)
    ensures Represents(m', l, objs, f, s)
  {
    hide Base, Preserved, Stated, Recorded, ThirdWordsKept;
    BaseSurvives(m, m', objs, f);
    assert f[l.run := s.run] == f;
    ListChanged(m, m', l, objs, f, s, l.run, s.run);
  }

  // ---------------------------------------------------------------------------------------
  // Both together
  // ---------------------------------------------------------------------------------------

  /** How the scheduler's objects lie in the allocations `live` of the heap. */
  ghost predicate Joint(m: seq<Word>, g: Geometry, live: set<Block>, objs: set<nat>, heads: set<nat>,
                        procs: set<nat>, home: map<nat, Block>, stacks: map<nat, Block>) {
    && Housed(live, objs, home) && HeadsOutside(g, heads)
    && AtHome(objs, procs, home) && Stacked(m, live, objs, procs, home, stacks)
  }

  /** The allocations that house none of the objects. */
  ghost function Others(live: set<Block>, objs: set<nat>, home: map<nat, Block>): set<Block> {
    set b | b in live && forall x :: x in objs && x in home ==> home[x] != b
  }

  ghost predicate Spared(m: seq<Word>, m': seq<Word>, blocks: set<Block>) {
    forall b :: b in blocks ==> Untouched(m, m', b)
  }

  lemma LiveApart(m: seq<Word>, g: Geometry, s: State, b: Block, c: Block)
    requires HeapInv(m, g, s) && b in Live(s.blocks) && c in Live(s.blocks) && b != c
    ensures b.End() <= c.addr || c.End() <= b.addr
    ensures g.base <= b.addr && b.End() <= g.End()
  {
    TiledOrder(s.blocks, g.base, g.End());
    var i :| 0 <= i < |s.blocks| && s.blocks[i] == b;
    var j :| 0 <= j < |s.blocks| && s.blocks[j] == c;
  }

  lemma LiveInHeap(m: seq<Word>, g: Geometry, s: State, b: Block)
    requires HeapInv(m, g, s) && b in Live(s.blocks)
    ensures WellFormed(b) && g.base <= b.addr && b.End() <= g.End() <= |m| && |m| <= WORD_LIMIT && g.base > 0
  {
    TiledOrder(s.blocks, g.base, g.End());
    var i :| 0 <= i < |s.blocks| && s.blocks[i] == b;
  }

  /** A word of allocation `b` that the scheduler changes belongs to an object housed there. */
  lemma ChangedCell(m: seq<Word>, m': seq<Word>, g: Geometry, s: State, objs: set<nat>, heads: set<nat>,
                    home: map<nat, Block>, marked: set<nat>, b: Block, a: int) returns (x: nat)
    requires HeapInv(m, g, s) && Housed(Live(s.blocks), objs, home) && HeadsOutside(g, heads)
    requires Frame(m, m', objs + heads, marked) && marked <= objs
    requires b in Live(s.blocks) && b.addr <= a < b.End() && a < |m| && m'[a] != m[a]
    ensures x in objs && x in home && home[x] == b && x <= a < x + 12
  {
    hide HeapInv, Live;
    LiveInHeap(m, g, s, b);
    FrameCells(m, m', objs, heads, marked, a);
    assert a !in heads && a - 4 !in heads;
    x := if a in objs then a else if a - 4 in objs then a - 4 else a - 8;
    assert home[x] in Live(s.blocks) && Inside(home[x], x);
    if home[x] != b {
      LiveApart(m, g, s, b, home[x]);
    }
  }

  lemma OthersSpared(m: seq<Word>, m': seq<Word>, g: Geometry, s: State, objs: set<nat>, heads: set<nat>,
                     home: map<nat, Block>, marked: set<nat>)
    requires HeapInv(m, g, s) && Housed(Live(s.blocks), objs, home) && HeadsOutside(g, heads)
    requires Frame(m, m', objs + heads, marked) && marked <= objs
    ensures Spared(m, m', Others(Live(s.blocks), objs, home))
  {
    hide HeapInv, Live;
    forall b | b in Others(Live(s.blocks), objs, home)
      ensures Untouched(m, m', b)
    {
      LiveInHeap(m, g, s, b);
      forall a | b.addr <= a < b.End()
        ensures m'[a] == m[a]
      {
        if m'[a] != m[a] {
          var x := ChangedCell(m, m', g, s, objs, heads, home, marked, b, a);
        }
      }
    }
  }

  /** The scheduler's writes keep everything in its place. */
  lemma JointFrame(m: seq<Word>, m': seq<Word>, g: Geometry, s: State, objs: set<nat>, heads: set<nat>,
                   procs: set<nat>, home: map<nat, Block>, stacks: map<nat, Block>, marked: set<nat>)
    requires HeapInv(m, g, s) && Joint(m, g, Live(s.blocks), objs, heads, procs, home, stacks)
    requires Frame(m, m', objs + heads, marked) && marked <= objs
    ensures HeapInv(m', g, s) && Joint(m', g, Live(s.blocks), objs, heads, procs, home, stacks)
    ensures Spared(m, m', Others(Live(s.blocks), objs, home))
  {
    hide HeapInv, Live, Spared;
    FrameHarmless(m, m', g, Live(s.blocks), objs, heads, home, marked);
    HeapSurvives(m, m', g, s);
    OthersSpared(m, m', g, s, objs, heads, home, marked);
    forall p | p in procs
      ensures m'[p - 4] == m[p - 4]
    {
      assert p in objs && home[p] in Live(s.blocks) && Inside(home[p], p) && home[p].Payload() + 8 == p;
      if m'[p - 4] != m[p - 4] {
        var x := ChangedCell(m, m', g, s, objs, heads, home, marked, home[p], p - 4);
      }
    }
  }

  /** What the heap writes keeps everything in its place. */
  lemma JointKept(m: seq<Word>, m': seq<Word>, g: Geometry, live: set<Block>, live': set<Block>, objs: set<nat>,
                  heads: set<nat>, procs: set<nat>, home: map<nat, Block>, stacks: map<nat, Block>)
    requires Joint(m, g, live, objs, heads, procs, home, stacks) && Kept(m, m', g, live) && live <= live'
    ensures Joint(m', g, live', objs, heads, procs, home, stacks) && Preserved(m, m', objs, heads)
  {
    KeptPreserves(m, m', g, live, objs, heads, home);
    forall p | p in procs
      ensures m'[p - 4] == m[p - 4]
    {
      assert p in objs && home[p] in live && Inside(home[p], p) && home[p].Payload() + 8 == p;
      assert Untouched(m, m', home[p]);
    }
  }

  /** An object is given up, and its allocation can be freed. */
  lemma JointDrop(m: seq<Word>, g: Geometry, live: set<Block>, objs: set<nat>, heads: set<nat>,
                  procs: set<nat>, home: map<nat, Block>, stacks: map<nat, Block>, x: nat)
    requires Joint(m, g, live, objs, heads, procs, home, stacks) && x in objs
    ensures x in home && home[x] in live
    ensures Joint(m, g, live - {home[x]}, objs - {x}, heads, procs - {x}, home, stacks)
    ensures x in procs ==> x in stacks && stacks[x] in live && stacks[x] != home[x]
    ensures x in procs ==> Joint(m, g, live - {home[x], stacks[x]}, objs - {x}, heads, procs - {x}, home, stacks)
    ensures x !in procs ==> home[x].Payload() == x
    ensures x in procs ==> home[x].Payload() + 8 == x && 8 < x < |m| && m[x - 4] == stacks[x].Payload()
  {
  }

  /** A new object, alone in a new allocation. */
  lemma FreshObject(m: seq<Word>, g: Geometry, s: State, live: set<Block>, objs: set<nat>, heads: set<nat>,
                    home: map<nat, Block>, b: Block, x: nat)
    requires HeapInv(m, g, s) && Housed(live, objs, home) && HeadsOutside(g, heads)
    requires live <= Live(s.blocks) && b in Live(s.blocks) && b !in live && Inside(b, x) && x % 4 == 0
    ensures Fresh(m, objs, heads, x)
  {
    hide HeapInv, Live;
    LiveInHeap(m, g, s, b);
    forall y | y in objs
      ensures x + 12 <= y || y + 12 <= x
    {
      LiveApart(m, g, s, b, home[y]);
    }
  }

  /** get_mem: a new allocation, large enough, and nothing else. */
  lemma NewBlock(g: Geometry, s: State, n: Word) returns (b: Block)
    requires StateInv(g, s) && 1 <= n <= LARGEST_REQUEST
    requires Allocate(s, BlockSizeFor(n)).1 != NULL
    ensures var (s', p) := Allocate(s, BlockSizeFor(n));
            && Live(s'.blocks) == Live(s.blocks) + {b} && b !in Live(s.blocks)
            && b.Payload() == p && n + 8 <= b.size && b.addr % 4 == 0
  {
    hide StateInv, BlockSizeFor, Allocate, Live, Granted;
    var size := BlockSizeFor(n);
    BlockSizeSmall(n);
    AllocateKeeps(g, s, size);
    var p := Allocate(s, size).1;
    b := Granted(s.blocks[HomeOf(s.blocks, p)], size);
    PayloadSize(g, s, n);
    var c :| c in Live(Allocate(s, size).0.blocks) && c !in Live(s.blocks) && c.Payload() == p && n <= c.size - 8;
    assert c == b;
    BlockAligned(g, Allocate(s, size).0, b);
  }

  lemma BlockAligned(g: Geometry, s: State, b: Block)
    requires StateInv(g, s) && b in Live(s.blocks)
    ensures b.addr % 4 == 0
  {
    TiledOrder(s.blocks, g.base, g.End());
    var i :| 0 <= i < |s.blocks| && s.blocks[i] == b;
  }

  /** free_mem: exactly this allocation goes. */
  lemma FreedBlock(m: seq<Word>, g: Geometry, s: State, b: Block)
    requires HeapInv(m, g, s) && Coalesced(s.blocks) && b in Live(s.blocks)
    ensures LivePayload(s.blocks, b.Payload()) && s.blocks[HomeOf(s.blocks, b.Payload())] == b
    ensures Live(Liberate(s, b.Payload()).blocks) == Live(s.blocks) - {b}
  {
    hide HeapInv, StateInv, Liberate, Live, HomeOf, LivePayload;
    ValidStates(m, g, s);
    LiveHome(g, s, b);
    LiberateKeeps(g, s, b.Payload());
  }

  lemma KeptLess(m: seq<Word>, m': seq<Word>, g: Geometry, kept: set<Block>, kept': set<Block>)
    requires Kept(m, m', g, kept) && kept' <= kept
    ensures Kept(m, m', g, kept') && Spared(m, m', kept')
  {
  }

  lemma KeptSpares(m: seq<Word>, m': seq<Word>, g: Geometry, live: set<Block>, objs: set<nat>, home: map<nat, Block>)
    requires Kept(m, m', g, live)
    ensures Spared(m, m', Others(live, objs, home))
  {
    hide Kept, Spared;
    KeptLess(m, m', g, live, Others(live, objs, home));
  }

  lemma SparedTrans(m: seq<Word>, m1: seq<Word>, m2: seq<Word>,
                    blocks: set<Block>, blocks1: set<Block>, blocks2: set<Block>)
    requires Spared(m, m1, blocks1) && Spared(m1, m2, blocks2) && blocks <= blocks1 && blocks <= blocks2
    ensures Spared(m, m2, blocks)
  {
  }

  lemma JointRecord(m: seq<Word>, g: Geometry, live: set<Block>, objs: set<nat>, heads: set<nat>, procs: set<nat>,
                    home: map<nat, Block>, stacks: map<nat, Block>, x: nat, b: Block)
    requires Joint(m, g, live + {b}, objs, heads, procs, home, stacks)
    requires Joint(m, g, live, objs, heads, procs, home, stacks)
    requires b !in live && b.Payload() == x && Inside(b, x) && x !in objs && x !in procs
    ensures Joint(m, g, live + {b}, objs + {x}, heads, procs, home[x := b], stacks)
  {
  }

  lemma JointProcess(m: seq<Word>, g: Geometry, live: set<Block>, objs: set<nat>, heads: set<nat>, procs: set<nat>,
                     home: map<nat, Block>, stacks: map<nat, Block>, x: nat, b: Block, c: Block)
    requires Joint(m, g, live, objs, heads, procs, home, stacks)
    requires b !in live && c !in live && b != c && b.Payload() + 8 == x && Inside(b, x) && x !in objs
    requires 8 < x < |m| && m[x - 4] == c.Payload()
    ensures Joint(m, g, live + {b, c}, objs + {x}, heads, procs + {x}, home[x := b], stacks[x := c])
  {
    hide Inside;
    assert x !in procs;
    NewStack(m, live, objs, procs, home, stacks, x, b, c);
    hide Stacked;
  }

  lemma NewStack(m: seq<Word>, live: set<Block>, objs: set<nat>, procs: set<nat>,
                 home: map<nat, Block>, stacks: map<nat, Block>, x: nat, b: Block, c: Block)
    requires Housed(live, objs, home) && Stacked(m, live, objs, procs, home, stacks)
    requires b !in live && c !in live && b != c && x !in objs && x !in procs
    requires 8 < x < |m| && m[x - 4] == c.Payload()
    ensures Stacked(m, live + {b, c}, objs + {x}, procs + {x}, home[x := b], stacks[x := c])
  {
    hide Inside;
  }

  lemma KeptSome(m: seq<Word>, m': seq<Word>, blocks: set<Block>)
    requires Spared(m, m', blocks)
    ensures forall kept :: kept <= blocks ==> Spared(m, m', kept)
  {
  }

  /** Freeing a process's stack `c` and then its block leaves all other allocations alone. */
  lemma FreedBoth(m: seq<Word>, m1: seq<Word>, m2: seq<Word>, m3: seq<Word>, g: Geometry, live: set<Block>,
                  objs: set<nat>, home: map<nat, Block>, p: nat, c: Block)
    requires Spared(m, m1, Others(live, objs, home)) && p in objs && p in home
    requires Kept(m1, m2, g, live - {c}) && Kept(m2, m3, g, live - {c} - {home[p]})
    ensures Spared(m, m3, Others(live, objs, home) - {c})
  {
    hide Kept, Spared;
    var others := Others(live, objs, home) - {c};
    KeptSome(m, m1, Others(live, objs, home));
    KeptLess(m1, m2, g, live - {c}, others);
    KeptLess(m2, m3, g, live - {c} - {home[p]}, others);
    SparedTrans(m, m1, m2, others, others, others);
    SparedTrans(m, m2, m3, others, others, others);
  }

  /** What houses none of the objects does so too when an object in a new block joins them. */
  lemma StillOthers(m: seq<Word>, m1: seq<Word>, m2: seq<Word>, live: set<Block>, live': set<Block>, objs: set<nat>,
                    objs': set<nat>, home: map<nat, Block>, home': map<nat, Block>, added: set<Block>)
    requires Spared(m, m1, Others(live, objs, home)) && Spared(m1, m2, Others(live', objs', home'))
    requires live <= live' && added !! live
    requires forall x :: x in objs' && x in home' ==>
               home'[x] in added || (x in objs && x in home && home'[x] == home[x])
    ensures Spared(m, m2, Others(live, objs, home))
  {
    hide Spared;
    assert Others(live, objs, home) <= Others(live', objs', home');
    SparedTrans(m, m1, m2, Others(live, objs, home), Others(live, objs, home), Others(live', objs', home'));
  }

  /** The blocks of other owners stay when `b`, which houses `x`, is freed. */
  lemma OthersKept(m: seq<Word>, m1: seq<Word>, m2: seq<Word>, g: Geometry, live: set<Block>, objs: set<nat>,
                   home: map<nat, Block>, x: nat)
    requires Spared(m, m1, Others(live, objs, home)) && x in objs && x in home && Kept(m1, m2, g, live - {home[x]})
    ensures Spared(m, m2, Others(live, objs, home))
  {
    hide Kept, Spared;
    KeptLess(m1, m2, g, live - {home[x]}, Others(live, objs, home));
    SparedTrans(m, m1, m2, Others(live, objs, home), Others(live, objs, home), Others(live, objs, home));
  }

  /** What the first round of a wakeup is about. */
  lemma FirstRound(m: seq<Word>, l: Lists, objs: set<nat>, f: Family, s: Sched, w: nat)
    requires Represents(m, l, objs, f, s) && Inv(s) && w < |l.wqs| && OnList(f, l.wqs[w]) != []
    ensures w < |s.wq| && s.wq[w] != [] && s.wq[w][0] in objs
    ensures OnList(f, l.wqs[w])[0] in objs && OnList(f, l.wqs[w])[0] !in s.st
    ensures WakeOne(s, w).st.Keys == s.st.Keys
  {
    hide Represents, Inv, Base, Remove;
    ListsOf(m, l, objs, f, s);
    RecordsNoProcesses(m, l, objs, f, s, w);
    FirstOwner(m, f[l.wqs[w]], s.wq[w]);
    OwnerWaits(m, l, objs, f, s, w);
    Known(m, l, objs, f, s, s.wq[w][0]);
    assert f[l.wqs[w]][0] in f[l.wqs[w]];
  }

  /** The idle process, in block `b`, with its stack in block `c`. */
  lemma IdleHoused(m: seq<Word>, g: Geometry, s: State, heads: set<nat>, b: Block, c: Block)
    requires HeapInv(m, g, s) && b in Live(s.blocks) && c in Live(s.blocks) && b != c && 28 <= b.size
    requires HeadsOutside(g, heads) && b.Payload() + 4 < |m| && m[b.Payload() + 4] == c.Payload()
    ensures var p := b.Payload() + 8;
            Joint(m, g, Live(s.blocks), {p}, heads, {p}, map[p := b], map[p := c]) && InMemory(m, {p})
  {
    hide HeapInv, Live;
    LiveInHeap(m, g, s, b);
    var q := b.addr / 4;
    assert b.addr == 4 * q;
  }

  lemma StartFreeing(m: seq<Word>, g: Geometry, s: State, objs: set<nat>, home: map<nat, Block>, all: seq<nat>)
    requires HeapInv(m, g, s)
    ensures Live(s.blocks) == Live(s.blocks) - HomesOf(home, all[..0])
    ensures Spared(m, m, Others(Live(s.blocks), objs, home))
  {
    hide HeapInv, Live;
    assert HomesOf(home, []) == {};
    forall b | b in Live(s.blocks)
      ensures b.End() <= |m|
    {
      LiveInHeap(m, g, s, b);
    }
  }

  /** One more record was freed. */
  lemma MoreFreed(m: seq<Word>, m1: seq<Word>, m2: seq<Word>, live: set<Block>, live1: set<Block>, objs: set<nat>,
                  objs1: set<nat>, home: map<nat, Block>, all: seq<nat>, k: nat)
    requires k < |all| && all[k] in home && objs1 <= objs
    requires live1 == live - HomesOf(home, all[..k]) && Spared(m, m1, Others(live, objs, home))
    requires forall i :: 0 <= i < k ==> all[i] in objs
    requires Spared(m1, m2, Others(live1, objs1, home))
    ensures live1 - {home[all[k]]} == live - HomesOf(home, all[..k + 1])
    ensures Spared(m, m2, Others(live, objs, home))
  {
    hide Spared;
    assert all[..k + 1] == all[..k] + [all[k]];
    assert HomesOf(home, all[..k + 1]) == HomesOf(home, all[..k]) + {home[all[k]]} by {
      assert forall i :: 0 <= i < k ==> all[..k + 1][i] == all[..k][i];
      assert all[..k + 1][k] == all[k];
    }
    forall b | b in Others(live, objs, home)
      ensures b in Others(live1, objs1, home)
    {
      assert b !in HomesOf(home, all[..k]);
    }
    SparedTrans(m, m1, m2, Others(live, objs, home), Others(live, objs, home), Others(live1, objs1, home));
  }

  lemma RecordsInUse(m: seq<Word>, l: Lists, objs: set<nat>, f: Family, s: Sched, w: nat)
    requires Represents(m, l, objs, f, s) && w < |l.wqs|
    ensures forall i :: 0 <= i < |OnList(f, l.wqs[w])| ==> OnList(f, l.wqs[w])[i] in objs
  {
    hide Represents;
    ListsOf(m, l, objs, f, s);
    RecordsNoProcesses(m, l, objs, f, s, w);
    assert forall i :: 0 <= i < |f[l.wqs[w]]| ==> f[l.wqs[w]][i] in f[l.wqs[w]];
  }

  /** A block from get_mem for a wait record. */
  lemma RecordHoused(m: seq<Word>, m1: seq<Word>, g: Geometry, s: State, s1: State, l: Lists, objs: set<nat>,
                     f: Family, sc: Sched, home: map<nat, Block>, stacks: map<nat, Block>, rec: nat, b: Block)
    requires Represents(m, l, objs, f, sc) && Joint(m, g, Live(s.blocks), objs, f.Keys, sc.st.Keys, home, stacks)
    requires HeapInv(m1, g, s1) && Kept(m, m1, g, Live(s.blocks))
    requires Live(s1.blocks) == Live(s.blocks) + {b} && b !in Live(s.blocks)
    requires b.Payload() == rec && 20 <= b.size && b.addr % 4 == 0
    ensures Represents(m1, l, objs, f, sc) && Fresh(m1, objs, f.Keys, rec)
    ensures Joint(m1, g, Live(s1.blocks), objs + {rec}, f.Keys, sc.st.Keys, home[rec := b], stacks)
  {
    hide Represents, HeapInv, Kept, Live, Preserved, Fresh, Stacked;
    var live := Live(s.blocks);
    JointKept(m, m1, g, live, live, objs, f.Keys, sc.st.Keys, home, stacks);
    JointKept(m, m1, g, live, live + {b}, objs, f.Keys, sc.st.Keys, home, stacks);
    TableSurvives(m, m1, l, objs, f, sc);
    PayloadAligned(b);
    FreshObject(m1, g, s1, live, objs, f.Keys, home, b, rec);
    MoreObjects(m1, l, objs, f, sc, rec);
    JointRecord(m1, g, live, objs, f.Keys, sc.st.Keys, home, stacks, rec, b);
  }

  lemma PayloadAligned(b: Block)
    requires b.addr % 4 == 0
    ensures b.Payload() % 4 == 0 && (b.Payload() + 8) % 4 == 0
  {
    var q := b.addr / 4;
    assert b.addr == 4 * q;
  }

  lemma BlockedKeys(s: Sched, w: nat)
    requires Scheduling.Legal(s, Event.Block(w)) && s.current.value in s.st
    ensures Scheduling.Step(s, Event.Block(w)).st.Keys == s.st.Keys
  {
  }

  lemma DeadInUse(m: seq<Word>, l: Lists, objs: set<nat>, f: Family, s: Sched)
    requires Represents(m, l, objs, f, s) && Inv(s)
    ensures l.dead in f && (s.dead != [] ==> s.dead[0] in s.st && s.dead[0] in objs)
  {
    hide Represents, Inv, OwnedBy, Base;
    ListsOf(m, l, objs, f, s);
    DeadExists(s);
    if s.dead != [] {
      Known(m, l, objs, f, s, s.dead[0]);
    }
  }

  const STACK_SZ: Word := 0x400

  /** A write to an allocation that houses none of the objects. */
  lemma WriteKept(m: seq<Word>, g: Geometry, s: State, live: set<Block>, b: Block, a: nat, v: Word)
    requires HeapInv(m, g, s) && live <= Live(s.blocks) && b in Live(s.blocks) && b !in live
    requires b.addr <= a < b.End() && a < |m|
    ensures Kept(m, m[a := v], g, live)
  {
    hide HeapInv, Live;
    LiveInHeap(m, g, s, b);
    forall c | c in live
      ensures Untouched(m, m[a := v], c)
    {
      LiveInHeap(m, g, s, c);
      LiveApart(m, g, s, b, c);
    }
  }

  /** A process and its stack in new allocations. */
  lemma ProcessHoused(m: seq<Word>, g: Geometry, s: State, l: Lists, live: set<Block>, objs: set<nat>,
                      f: Family, sc: Sched, home: map<nat, Block>, stacks: map<nat, Block>, b: Block, c: Block)
    requires Represents(m, l, objs, f, sc) && Joint(m, g, live, objs, f.Keys, sc.st.Keys, home, stacks)
    requires HeapInv(m, g, s) && Live(s.blocks) == live + {b, c}
    requires b !in live && c !in live && b != c && 28 <= b.size && b.addr % 4 == 0
    requires b.Payload() + 4 < |m| && m[b.Payload() + 4] == c.Payload()
    ensures l.run in f && Fresh(m, objs, f.Keys, b.Payload() + 8)
    ensures Joint(m, g, live + {b, c}, objs + {b.Payload() + 8}, f.Keys, sc.st.Keys + {b.Payload() + 8},
                  home[b.Payload() + 8 := b], stacks[b.Payload() + 8 := c])
  {
    hide Represents, HeapInv, Live, Fresh, Stacked, AtHome, OwnedBy, Base;
    PayloadAligned(b);
    LiveInHeap(m, g, s, b);
    FreshObject(m, g, s, live, objs, f.Keys, home, b, b.Payload() + 8);
    MoreObjects(m, l, objs, f, sc, b.Payload() + 8);
    ListsOf(m, l, objs, f, sc);
    JointProcess(m, g, live, objs, f.Keys, sc.st.Keys, home, stacks, b.Payload() + 8, b, c);
  }

  lemma CurrentInUse(m: seq<Word>, l: Lists, objs: set<nat>, f: Family, s: Sched)
    requires Represents(m, l, objs, f, s) && Inv(s) && s.current.Some?
    ensures s.current.value in s.st && s.current.value in objs && l.run in f && l.dead in f
  {
    hide Represents, Inv;
    CurrentUnlisted(m, l, objs, f, s);
    Known(m, l, objs, f, s, s.current.value);
  }

  lemma ListHeads(m: seq<Word>, l: Lists, objs: set<nat>, f: Family, s: Sched)
    requires Represents(m, l, objs, f, s)
    ensures l.run in f
  {
  }

  lemma JointLess(m: seq<Word>, g: Geometry, live: set<Block>, objs: set<nat>, heads: set<nat>, procs: set<nat>,
                  home: map<nat, Block>, stacks: map<nat, Block>, b: Block)
    requires Joint(m, g, live, objs, heads, procs, home, stacks) && b in Others(live, objs, home)
    requires forall p :: p in procs && p in stacks ==> stacks[p] != b
    ensures Joint(m, g, live - {b}, objs, heads, procs, home, stacks)
  {
  }

  /** Some block of the free list has at least `size` bytes. */
  predicate RoomFor(s: State, size: nat) {
    exists k :: 0 <= k < |s.ring| && SizeAt(s.blocks, s.ring[k]) >= size
  }

  lemma RoomIff(g: Geometry, s: State, size: nat)
    requires StateInv(g, s) && size > 0
    ensures Allocate(s, size).1 != NULL <==> RoomFor(s, size)
    ensures !RoomFor(s, size) ==> Allocate(s, size).0 == s
  {
    hide StateInv;
    var k := FirstFit(s.blocks, s.ring, size);
    if k < |s.ring| {
      FirstFitFinds(g, s, size);
    }
  }

  /** There is room exactly when some stretch of the heap of that size is unallocated. */
  lemma RoomIsStretch(g: Geometry, s: State, size: nat)
    requires StateInv(g, s) && size > 0
    ensures RoomFor(s, size) <==> exists x: int :: g.base <= x && x + size <= g.End() && Unallocated(s.blocks, x, size)
  {
    hide StateInv, Unallocated, Allocate, RoomFor;
    RoomIff(g, s, size);
    AllocateComplete(g, s, size);
  }

  /** A wait record takes a block of 20 bytes, a process one of 28, and a stack one of 0x408. */
  lemma BlockSizes()
    ensures BlockSizeFor(12) == RECORD_BLOCK && BlockSizeFor(20) == PROCESS_BLOCK
    ensures BlockSizeFor(STACK_SZ) == STACK_BLOCK
  {
    hide BlockSizeFor;
    BlockSizeOfAligned(12);
    BlockSizeOfAligned(20);
    BlockSizeOfAligned(STACK_SZ);
  }

  const RECORD_BLOCK := 20
  const PROCESS_BLOCK := 28
  const STACK_BLOCK := 0x408

  /** There is room for a process block, and once that is taken, for a stack. */
  predicate RoomForProcess(s: State) {
    RoomFor(s, PROCESS_BLOCK) && RoomFor(Allocate(s, PROCESS_BLOCK).0, STACK_BLOCK)
  }

  /** The heap after create_process asked for both. */
  function ProcessTaken(s: State): State {
    Allocate(Allocate(s, PROCESS_BLOCK).0, STACK_BLOCK).0
  }

  /** Two new allocations: the first at `ptr` for a process block, the second for a stack. */
  ghost predicate NewPair(live: set<Block>, live': set<Block>, ptr: nat, b: Block, c: Block) {
    && live' == live + {b, c} && b !in live && c !in live && b != c
    && b.Payload() == ptr && PROCESS_BLOCK <= b.size && STACK_SZ + 8 <= c.size
  }

  /** Without room for the block, the larger stack finds none either, and nothing was taken. */
  lemma NoSecond(m: seq<Word>, g: Geometry, s: State)
    requires HeapInv(m, g, s) && Coalesced(s.blocks) && !RoomFor(s, PROCESS_BLOCK)
    ensures ProcessTaken(s) == s
  {
    hide HeapInv, StateInv, Allocate;
    ValidStates(m, g, s);
    RoomIff(g, s, PROCESS_BLOCK);
    assert !RoomFor(s, STACK_BLOCK);
    RoomIff(g, s, STACK_BLOCK);
  }

  lemma BootKeys(heads: set<nat>, idle: Pid, garbage: ProcState, queues: nat)
    ensures Empty(heads).Keys == heads && Boot(idle, garbage, queues).st.Keys == {idle}
  {
  }

  /** The blocks that house `recs`. */
  ghost function HomesOf(home: map<nat, Block>, recs: seq<nat>): set<Block> {
    set i | 0 <= i < |recs| && recs[i] in home :: home[recs[i]]
  }

  /** The machine: heap and scheduler in one memory. */
  class Kernel {
    const heap: Heap
    const table: ProcessTable

    /** The allocations that hold the objects and the stacks of the processes. */
    ghost var home: map<nat, Block>
    ghost var stacks: map<nat, Block>

    ghost predicate Valid()
      reads this, heap, heap.mem, table, table.mem
    {
      && heap.mem == table.mem && heap.Valid() && table.Valid()
      && Joint(heap.mem[..], heap.geo, Live(heap.state.blocks), table.objs, table.rings.Keys,
               table.sched.st.Keys, home, stacks)
    }

    /** Set-up, with the idle process in block `b` and its stack in block `c`. */
    constructor (heap: Heap, lists: Lists, idleTsk: nat, ghost b: Block, ghost c: Block)
      requires heap.Valid() && b in Live(heap.state.blocks) && c in Live(heap.state.blocks) && b != c
      requires b.Payload() == idleTsk && 28 <= b.size && idleTsk + 16 < heap.mem.Length
      requires heap.mem[idleTsk + 4] == c.Payload()
      requires HeadsFit(heap.mem[..], {idleTsk + 8}, AllHeads(lists))
      requires HeadsOutside(heap.geo, Elements(AllHeads(lists)))
      modifies heap.mem
      ensures Valid() && this.heap == heap && table.lists == lists && fresh(table) && table.freed == []
      ensures table.sched == Boot(idleTsk + 8, StateOf(old(heap.mem[idleTsk + 16])), |lists.wqs|)
      ensures heap.state == old(heap.state) && home == map[idleTsk + 8 := b] && stacks == map[idleTsk + 8 := c]
    {
      hide Represents, HeapInv, Frame, Live, Spared, Joint, HeadsFit, HeadsOutside;
      hide AllHeads, Elements, InMemory, Inv, Boot, Empty;
      ghost var m, g, s, p, heads := heap.mem[..], heap.geo, heap.state, idleTsk + 8, Elements(AllHeads(lists));
      IdleHoused(m, g, s, heads, b, c);
      this.heap := heap;
      home, stacks := map[p := b], map[p := c];
      table := new ProcessTable(heap.mem, lists, idleTsk);
      new;
      BootKeys(heads, p, StateOf(m[idleTsk + 16]), |lists.wqs|);
      FrameGrows(m, heap.mem[..], heads, {p} + heads);
      JointFrame(m, heap.mem[..], g, s, {p}, heads, {p}, home, stacks, {});
    }

    /** One round of waitqueue_wakeup, with free_mem. */
    method WakeFirst(w: nat, rec: nat)
      requires Valid() && w < |table.sched.wq| && w < |table.lists.wqs|
      requires OnList(table.rings, table.lists.wqs[w]) != [] && rec == OnList(table.rings, table.lists.wqs[w])[0]
      modifies heap, heap.mem, table
      ensures Valid() && old(table.sched).wq[w] != [] && table.sched == WakeOne(old(table.sched), w)
      ensures table.freed == old(table.freed) + [rec] && table.objs == old(table.objs) - {rec}
      ensures OnList(table.rings, table.lists.wqs[w]) == OnList(old(table.rings), table.lists.wqs[w])[1..]
      ensures SameLists(old(table.rings), table.rings, {table.lists.run, table.lists.waiting, table.lists.wqs[w]})
      ensures rec in home && Live(heap.state.blocks) == old(Live(heap.state.blocks)) - {home[rec]}
      ensures Spared(old(heap.mem[..]), heap.mem[..], Others(old(Live(heap.state.blocks)), old(table.objs), home))
    {
      hide Represents, HeapInv, Joint, Frame, Kept, Live, Preserved, Inv, OwnedBy, SameLists, OnList, WakeOne;
      hide Spared, Others, Coalesced, LivePayload, Liberate, HomeOf;
      ghost var m, g, s := heap.mem[..], heap.geo, heap.state;
      ghost var live, objs, heads, procs := Live(s.blocks), table.objs, table.rings.Keys, table.sched.st.Keys;
      FirstRound(m, table.lists, objs, table.rings, table.sched, w);
      ghost var owner := table.sched.wq[w][0];
      table.WakeFirst(w, rec);
      ghost var m1 := heap.mem[..];
      JointFrame(m, m1, g, s, objs, heads, procs, home, stacks, {owner});
      JointDrop(m1, g, live, objs, heads, procs, home, stacks, rec);
      ghost var b := home[rec];
      assert procs - {rec} == procs;
      FreedBlock(m1, g, s, b);
      heap.FreeMem(rec);
      JointKept(m1, heap.mem[..], g, live - {b}, live - {b}, objs - {rec}, heads, procs, home, stacks);
      TableSurvives(m1, heap.mem[..], table.lists, table.objs, table.rings, table.sched);
      OthersKept(m, m1, heap.mem[..], g, live, objs, home, rec);
    }

    /** waitqueue_wakeup: every record of the queue goes back to the heap. */
    method WaitqueueWakeup(w: nat)
      requires Valid() && w < |table.sched.wq| && w < |table.lists.wqs|
      modifies heap, heap.mem, table
      ensures Valid() && table.sched == WakeAll(old(table.sched), w)
      ensures table.freed == old(table.freed) + OnList(old(table.rings), table.lists.wqs[w])
      ensures table.objs == old(table.objs) - Elements(OnList(old(table.rings), table.lists.wqs[w]))
      ensures SameLists(old(table.rings), table.rings, {table.lists.run, table.lists.waiting, table.lists.wqs[w]})
      ensures Live(heap.state.blocks) ==
              old(Live(heap.state.blocks)) - HomesOf(home, OnList(old(table.rings), table.lists.wqs[w]))
      ensures Spared(old(heap.mem[..]), heap.mem[..], Others(old(Live(heap.state.blocks)), old(table.objs), home))
    {
      hide Represents, HeapInv, Joint, SameLists, OnList, Inv, WakeOne, WakeAll, Elements, Reverse, Midway;
      hide Live, Spared, Others, Coalesced, HomesOf;
      var lists := table.lists;
      ghost var m, f, s, h, live := heap.mem[..], table.rings, table.sched, lists.wqs[w], Live(heap.state.blocks);
      ghost var all, k, others := OnList(f, h), 0, Others(live, table.objs, home);
      ghost var objs := table.objs;
      StartWaking(m, lists, table.objs, f, s, w);
      StartFreeing(m, heap.geo, heap.state, objs, home, all);
      QueueLinks(m, lists, objs, f, s, w);
      RecordsInUse(m, lists, objs, f, s, w);
      var pos: nat := heap.mem[lists.wqs[w]];
      var next: nat := heap.mem[pos];
      while pos != lists.wqs[w]
        invariant k <= |all| == |s.wq[w]| && Valid() && Midway(lists, w, f, s, table.rings, table.sched, k)
        invariant pos == At(h, OnList(table.rings, h), 1)
        invariant OnList(table.rings, h) != [] ==> next == At(h, OnList(table.rings, h), 2)
        invariant table.freed == old(table.freed) + all[..k] && table.objs == objs - Elements(all[..k])
        invariant Live(heap.state.blocks) == live - HomesOf(home, all[..k])
        invariant Spared(m, heap.mem[..], others)
        decreases |all| - k
      {
        ghost var m1, f1, s1 := heap.mem[..], table.rings, table.sched;
        ghost var live1, objs1 := Live(heap.state.blocks), table.objs;
        QueueLinks(m1, lists, table.objs, f1, s1, w);
        ThisRound(lists, w, f, s, f1, s1, k);
        Done(all, k);
        WakeFirst(w, pos);
        NextRound(lists, w, f, s, f1, s1, table.rings, k);
        MoreFreed(m, m1, heap.mem[..], live, live1, objs, objs1, home, all, k);
        k := k + 1;
        QueueLinks(heap.mem[..], lists, table.objs, table.rings, table.sched, w);
        pos := next;
        next := heap.mem[pos];
      }
      QueueLinks(heap.mem[..], lists, table.objs, table.rings, table.sched, w);
      AllWoken(lists, w, f, s, table.rings, table.sched, k);
    }

    /** __waitqueue_wait, with the wait record from get_mem.  Without room for one the code spins,
        and here nothing happens. */
    method WaitqueueWait(w: nat) returns (done: bool)
      requires Valid() && Scheduling.Legal(table.sched, Event.Block(w)) && w < |table.lists.wqs|
      modifies this`home, heap, heap.mem, table
      ensures Valid()
      ensures done ==> table.sched == Next(old(table.sched), Event.Block(w))
      ensures !done ==> table.sched == old(table.sched) && heap.mem[..] == old(heap.mem[..])
      ensures done <==> old(RoomFor(heap.state, RECORD_BLOCK))
      ensures heap.state == Allocate(old(heap.state), RECORD_BLOCK).0
      ensures done ==> table.objs == old(table.objs) + {Allocate(old(heap.state), RECORD_BLOCK).1}
      ensures Spared(old(heap.mem[..]), heap.mem[..], old(Others(Live(heap.state.blocks), table.objs, home)))
    {
      hide Represents, HeapInv, Joint, Frame, Kept, Live, Preserved, Inv, OnList, Fresh;
      hide Spared, Others, Coalesced, Allocate, StateInv, BlockSizeFor, Pick, RoomFor;
      ghost var m, g, s := heap.mem[..], heap.geo, heap.state;
      ghost var live, objs, heads, procs := Live(s.blocks), table.objs, table.rings.Keys, table.sched.st.Keys;
      ValidStates(m, g, s);
      CurrentUnlisted(m, table.lists, objs, table.rings, table.sched);
      Known(m, table.lists, objs, table.rings, table.sched, table.sched.current.value);
      BlockSizes();
      RoomIff(g, s, RECORD_BLOCK);
      var rec := heap.GetMem(12);
      KeptSpares(m, heap.mem[..], g, live, objs, home);
      if rec == NULL {
        return false;
      }
      ghost var m1 := heap.mem[..];
      ghost var b := NewBlock(g, s, 12);
      RecordHoused(m, m1, g, s, heap.state, table.lists, objs, table.rings, table.sched, home, stacks, rec, b);
      home := home[rec := b];
      ghost var p := table.currentTsk + 8;
      table.WaitqueueWait(w, rec);
      BlockedKeys(old(table.sched), w);
      JointFrame(m1, heap.mem[..], g, heap.state, objs + {rec}, heads, procs, home, stacks, {rec, p});
      StillOthers(m, m1, heap.mem[..], live, live + {b}, objs, objs + {rec}, old(home), home, {b});
      done := true;
    }

    /** One round of the idle task: the dead process's stack and then its block go back to the heap. */
    method ReapOne() returns (dead: nat)
      requires Valid() && Scheduling.Legal(table.sched, Reap)
      modifies heap, heap.mem, table
      ensures Valid() && table.sched == Next(old(table.sched), Reap)
      ensures dead == NULL <==> old(table.sched).dead == []
      ensures dead == NULL ==> heap.state == old(heap.state) && heap.mem[..] == old(heap.mem[..])
      ensures Spared(old(heap.mem[..]), heap.mem[..], old(Others(Live(heap.state.blocks), table.objs, home))
                     - (if dead + 8 in stacks then {stacks[dead + 8]} else {}))
      ensures dead != NULL ==>
                && dead + 8 == old(table.sched).dead[0] && dead + 8 in home && dead + 8 in stacks
                && Live(heap.state.blocks) == old(Live(heap.state.blocks)) - {home[dead + 8], stacks[dead + 8]}
    {
      hide Represents, HeapInv, Joint, Frame, Kept, Live, Preserved, Inv;
      hide Spared, Others, Coalesced, LivePayload, Liberate, HomeOf;
      ghost var m, g, s := heap.mem[..], heap.geo, heap.state;
      ghost var live, objs, heads, procs := Live(s.blocks), table.objs, table.rings.Keys, table.sched.st.Keys;
      DeadInUse(m, table.lists, objs, table.rings, table.sched);
      dead := table.ReapOne();
      assert table.rings.Keys == heads;
      ghost var m1, p := heap.mem[..], dead + 8;
      JointFrame(m, m1, g, s, objs, heads, procs, home, stacks, {});
      ghost var others := Others(live, objs, home);
      if dead == NULL {
        KeptSome(m, m1, others);
        return;
      }
      JointDrop(m1, g, live, objs, heads, procs, home, stacks, p);
      ghost var b, c := home[p], stacks[p];
      ghost var rest := live - {b, c};
      FreedBlock(m1, g, s, c);
      heap.FreeMem(heap.mem[dead + 4]);
      ghost var m2, s2 := heap.mem[..], heap.state;
      KeptLess(m1, m2, g, live - {c}, rest);
      JointKept(m1, m2, g, rest, rest, objs - {p}, heads, procs - {p}, home, stacks);
      TableSurvives(m1, m2, table.lists, table.objs, table.rings, table.sched);
      FreedBlock(m2, g, s2, b);
      heap.FreeMem(dead);
      assert Live(heap.state.blocks) == rest;
      JointKept(m2, heap.mem[..], g, rest, rest, objs - {p}, heads, procs - {p}, home, stacks);
      TableSurvives(m2, heap.mem[..], table.lists, table.objs, table.rings, table.sched);
      FreedBoth(m, m1, m2, heap.mem[..], g, live, objs, home, p, c);
    }

    /** get_mem, for the kernel or any other caller: the scheduler stays as it is. */
    method TakeBlock(n: Word, ghost size: nat) returns (ptr: nat, ghost b: Block)
      requires Valid() && 1 <= n <= LARGEST_REQUEST && size == BlockSizeFor(n) && size > 0
      modifies heap, heap.mem
      ensures Valid() && Kept(old(heap.mem[..]), heap.mem[..], heap.geo, old(Live(heap.state.blocks)))
      ensures heap.state == Allocate(old(heap.state), size).0
      ensures ptr != NULL <==> old(RoomFor(heap.state, size))
      ensures ptr == NULL ==> heap.state == old(heap.state)
      ensures ptr != NULL ==>
                && Live(heap.state.blocks) == old(Live(heap.state.blocks)) + {b} && b !in old(Live(heap.state.blocks))
                && b.Payload() == ptr && n + 8 <= b.size && b.addr % 4 == 0
    {
      hide Represents, HeapInv, Joint, Frame, Kept, Live, Preserved, Inv, Coalesced, Allocate, StateInv, BlockSizeFor;
      hide RoomFor;
      ghost var m, g, s := heap.mem[..], heap.geo, heap.state;
      ghost var live, objs, heads, procs := Live(s.blocks), table.objs, table.rings.Keys, table.sched.st.Keys;
      b := Block.Block(0, 0, true);
      ValidStates(m, g, s);
      RoomIff(g, s, size);
      ptr := heap.GetMem(n);
      if ptr != NULL {
        b := NewBlock(g, s, n);
      }
      JointKept(m, heap.mem[..], g, live, Live(heap.state.blocks), objs, heads, procs, home, stacks);
      TableSurvives(m, heap.mem[..], table.lists, objs, table.rings, table.sched);
    }

    /** The two allocations of create_process. */
    method TakeTwo() returns (proc: nat, stack: nat, ghost b: Block, ghost c: Block)
      requires Valid()
      modifies heap, heap.mem
      ensures Valid() && Kept(old(heap.mem[..]), heap.mem[..], heap.geo, old(Live(heap.state.blocks)))
      ensures heap.state == ProcessTaken(old(heap.state))
      ensures proc != NULL <==> old(RoomForProcess(heap.state))
      ensures proc != NULL ==> stack == c.Payload() && b.addr % 4 == 0 && NewPair(
                old(Live(heap.state.blocks)), Live(heap.state.blocks), proc, b, c)
    {
      hide Represents, HeapInv, Joint, Kept, Live, Inv, Coalesced, Allocate, RoomFor, BlockSizeFor, StateInv;
      ghost var m, g, s := heap.mem[..], heap.geo, heap.state;
      ghost var live := Live(s.blocks);
      c := Block.Block(0, 0, true);
      stack := NULL;
      BlockSizes();
      proc, b := TakeBlock(20, PROCESS_BLOCK);
      if proc == NULL {
        NoSecond(m, g, s);
        return;
      }
      ghost var m1 := heap.mem[..];
      stack, c := TakeBlock(STACK_SZ, STACK_BLOCK);
      KeptLess(m1, heap.mem[..], g, live + {b}, live);
      KeptTrans(m, m1, heap.mem[..], g, live, live, live);
      if stack == NULL {
        proc := NULL;
      }
    }

    /** create_process: a block, a stack, and the address of the stack in the block.  Without room
        for either the code spins, and here there is no process. */
    method CreateProcess() returns (proc: nat, ghost b: Block, ghost c: Block)
      requires Valid()
      modifies heap, heap.mem
      ensures heap.Valid() && table.Valid() && (proc == NULL ==> Valid())
      ensures heap.state == ProcessTaken(old(heap.state))
      ensures proc != NULL <==> old(RoomForProcess(heap.state))
      ensures Kept(old(heap.mem[..]), heap.mem[..], heap.geo, old(Live(heap.state.blocks)))
      ensures Joint(heap.mem[..], heap.geo, old(Live(heap.state.blocks)), table.objs, table.rings.Keys,
                    table.sched.st.Keys, home, stacks)
      ensures proc != NULL ==> b.addr % 4 == 0 && NewPair(
                old(Live(heap.state.blocks)), Live(heap.state.blocks), proc, b, c)
      ensures proc != NULL ==> proc + 4 < heap.mem.Length && heap.mem[proc + 4] == c.Payload()
    {
      hide Represents, HeapInv, Joint, Frame, Kept, Live, Preserved, Inv, Coalesced, LivePayload, HomeOf;
      hide ProcessTaken, RoomForProcess;
      ghost var m, g, live := heap.mem[..], heap.geo, Live(heap.state.blocks);
      ghost var objs, heads, procs := table.objs, table.rings.Keys, table.sched.st.Keys;
      var stack;
      proc, stack, b, c := TakeTwo();
      ghost var m1, s1 := heap.mem[..], heap.state;
      JointKept(m, m1, g, live, live, objs, heads, procs, home, stacks);
      if proc == NULL {
        return;
      }
      FreedBlock(m1, g, s1, b);
      LiveInHeap(m1, g, s1, b);
      LiveInHeap(m1, g, s1, c);
      PayloadAligned(b);
      var pointer: Word := stack;
      heap.UserWrite(proc, proc + 4, pointer);
      WriteKept(m1, g, s1, live, b, proc + 4, pointer);
      KeptTrans(m, m1, heap.mem[..], g, live, live, live);
      JointKept(m1, heap.mem[..], g, live, live, objs, heads, procs, home, stacks);
      TableSurvives(m1, heap.mem[..], table.lists, objs, table.rings, table.sched);
    }

    /** process_spawn: whenever the heap has room for its block and its stack, a new process goes to
        the head of the run queue; no word of any allocation of others changes. */
    method ProcessSpawn() returns (proc: nat)
      requires Valid()
      modifies this`home, this`stacks, heap, heap.mem, table
      ensures Valid()
      ensures heap.state == ProcessTaken(old(heap.state))
      ensures proc != NULL <==> old(RoomForProcess(heap.state))
      ensures proc == NULL ==> table.sched == old(table.sched)
      ensures proc != NULL ==> old(Scheduling.Legal(table.sched, Spawn(proc + 8)))
      ensures proc != NULL ==> table.sched == Next(old(table.sched), Spawn(proc + 8))
      ensures proc != NULL ==>
                && proc + 8 in home && proc + 8 in stacks
                && home == old(home)[proc + 8 := home[proc + 8]] && stacks == old(stacks)[proc + 8 := stacks[proc + 8]]
                && NewPair(old(Live(heap.state.blocks)), Live(heap.state.blocks), proc,
                           home[proc + 8], stacks[proc + 8])
      ensures Spared(old(heap.mem[..]), heap.mem[..], old(Others(Live(heap.state.blocks), table.objs, home)))
    {
      hide Represents, HeapInv, Joint, Frame, Kept, Live, Spared, Inv, Fresh, Coalesced, ProcessTaken, RoomForProcess;
      hide Others;
      ghost var m0, live, objs, heads := heap.mem[..], Live(heap.state.blocks), table.objs, table.rings.Keys;
      ghost var procs, g := table.sched.st.Keys, heap.geo;
      ghost var b, c;
      proc, b, c := CreateProcess();
      ghost var m, s, p := heap.mem[..], heap.state, proc + 8;
      KeptSpares(m0, m, g, live, objs, home);
      if proc == NULL {
        return;
      }
      ProcessHoused(m, g, s, table.lists, live, objs, table.rings, table.sched, home, stacks, b, c);
      home, stacks := home[p := b], stacks[p := c];
      table.ProcessSpawn(proc);
      assert table.rings.Keys == heads && table.sched.st.Keys == procs + {p};
      JointFrame(m, heap.mem[..], g, s, objs + {p}, heads, procs + {p}, home, stacks, {p});
      StillOthers(m0, m, heap.mem[..], live, live + {b, c}, objs, objs + {p}, old(home), home, {b, c});
    }

    /** process_finish: the block and the stack stay allocated until the process is reaped. */
    method ProcessFinish()
      requires Valid() && Scheduling.Legal(table.sched, Finish)
      modifies table, heap.mem
      ensures Valid() && table.sched == Next(old(table.sched), Finish)
      ensures heap.state == old(heap.state)
      ensures Spared(old(heap.mem[..]), heap.mem[..], old(Others(Live(heap.state.blocks), table.objs, home)))
    {
      hide Represents, HeapInv, Joint, Frame, Live, Spared, Inv, Coalesced, Pick;
      ghost var m, g, s, objs, heads := heap.mem[..], heap.geo, heap.state, table.objs, table.rings.Keys;
      ghost var procs, p := table.sched.st.Keys, table.currentTsk + 8;
      CurrentInUse(m, table.lists, objs, table.rings, table.sched);
      table.ProcessFinish();
      assert table.rings.Keys == heads && table.sched.st.Keys == procs;
      JointFrame(m, heap.mem[..], g, s, objs, heads, procs, home, stacks, {p});
    }

    /** pick_addedtask at any moment. */
    method Preempt()
      requires Valid()
      modifies table, heap.mem
      ensures Valid() && table.sched == Pick(old(table.sched))
      ensures heap.state == old(heap.state)
      ensures Spared(old(heap.mem[..]), heap.mem[..], old(Others(Live(heap.state.blocks), table.objs, home)))
    {
      hide Represents, HeapInv, Joint, Frame, Live, Spared, Inv, Coalesced, Pick;
      ghost var m, g, s, objs, heads := heap.mem[..], heap.geo, heap.state, table.objs, table.rings.Keys;
      ListHeads(m, table.lists, objs, table.rings, table.sched);
      table.Preempt();
      assert table.rings.Keys == heads;
      JointFrame(m, heap.mem[..], g, s, objs, heads, table.sched.st.Keys, home, stacks, {});
    }

    /** free_mem, by a caller who holds neither a wait record nor a process block nor a stack. */
    method GiveBack(ptr: nat, ghost b: Block)
      requires Valid() && b in Others(Live(heap.state.blocks), table.objs, home) && b.Payload() == ptr
      requires forall p :: p in table.sched.st && p in stacks ==> stacks[p] != b
      modifies heap, heap.mem
      ensures Valid() && Live(heap.state.blocks) == old(Live(heap.state.blocks)) - {b}
      ensures Kept(old(heap.mem[..]), heap.mem[..], heap.geo, old(Live(heap.state.blocks)) - {b})
    {
      hide Represents, HeapInv, Joint, Kept, Live, Preserved, Inv, Coalesced, LivePayload, HomeOf;
      ghost var m, g, s := heap.mem[..], heap.geo, heap.state;
      ghost var rest, objs, heads := Live(s.blocks) - {b}, table.objs, table.rings.Keys;
      FreedBlock(m, g, s, b);
      LiveInHeap(m, g, s, b);
      heap.FreeMem(ptr);
      JointLess(m, g, Live(s.blocks), objs, heads, table.sched.st.Keys, home, stacks, b);
      JointKept(m, heap.mem[..], g, rest, rest, objs, heads, table.sched.st.Keys, home, stacks);
      TableSurvives(m, heap.mem[..], table.lists, objs, table.rings, table.sched);
    }
  }
}
