/** Several circular lists that share one flat memory.

The objects on the lists are three words long, seen from their list node: a process block keeps its
`cur_sched_queue` node at offset 8 and its state at offset 16 (process.h), and a wait record keeps
its `queue` node at offset 0 and the address of its process at offset 8 (wait.c). */
module RingFamilies {
  import opened Sequences
  import opened Words
  import opened Rings

  /** The nodes on the list of each list head. */
  type Family = map<nat, seq<nat>>

  /** Objects of three words and list heads of two share no storage with one another. */
  ghost predicate Separate(objs: set<nat>, heads: set<nat>) {
    && (forall x, y :: x in objs && y in objs && x != y ==> x + 12 <= y || y + 12 <= x)
    && (forall x, h :: x in objs && h in heads ==> x + 12 <= h || h + 8 <= x)
    && (forall h, k :: h in heads && k in heads && h != k ==> Apart(h, k))
  }

  ghost predicate InMemory(m: seq<Word>, objs: set<nat>) {
    |m| <= WORD_LIMIT && forall x :: x in objs ==> 0 < x && x % 4 == 0 && x + 12 <= |m|
  }

  /** Every object is on at most one of the lists. */
  ghost predicate OnOneList(objs: set<nat>, f: Family) {
    && (forall h, x :: h in f && x in f[h] ==> x in objs)
    && (forall h, k, x :: h in f && k in f && h != k && x in f[h] ==> x !in f[k])
  }

  /** The lists lie in memory, on separate objects. */
  ghost predicate Base(m: seq<Word>, objs: set<nat>, f: Family) {
    && Separate(objs, f.Keys) && InMemory(m, objs) && OnOneList(objs, f)
    && forall h :: h in f ==> IsRing(m, h, f[h])
  }

  ghost predicate Unlisted(f: Family, x: nat) {
    forall h :: h in f ==> x !in f[h]
  }

  /** Nothing changed but links of `nodes` and the third words of `marked`. */
  ghost predicate Frame(m: seq<Word>, m': seq<Word>, nodes: set<nat>, marked: set<nat>) {
    && |m'| == |m|
    && forall a: int :: 0 <= a < |m| && a !in nodes && a - 4 !in nodes && a - 8 !in marked ==> m'[a] == m[a]
  }

  ghost predicate ThirdWordsKept(m: seq<Word>, m': seq<Word>, objs: set<nat>) {
    && |m'| == |m|
    && forall x :: x in objs ==> x + 8 < |m| && m'[x + 8] == m[x + 8]
  }

  lemma FrameTrans(m: seq<Word>, m1: seq<Word>, m2: seq<Word>, nodes: set<nat>, marked: set<nat>,
                   nodes1: set<nat>, marked1: set<nat>, nodes2: set<nat>, marked2: set<nat>)
    requires Frame(m, m1, nodes1, marked1) && Frame(m1, m2, nodes2, marked2)
    requires nodes1 <= nodes && nodes2 <= nodes && marked1 <= marked && marked2 <= marked
    ensures Frame(m, m2, nodes, marked)
  {
  }

  lemma FrameRefl(m: seq<Word>, nodes: set<nat>)
    ensures Frame(m, m, nodes, {})
  {
  }

  lemma ThirdWordsStay(m: seq<Word>, m': seq<Word>, objs: set<nat>, heads: set<nat>, touched: set<nat>)
    requires Separate(objs, heads) && InMemory(m, objs) && Frame(m, m', touched, {})
    requires touched <= objs + heads
    ensures ThirdWordsKept(m, m', objs)
  {
    forall x | x in objs
      ensures m'[x + 8] == m[x + 8]
    {
      NotTouched(objs, heads, touched, x, 8);
      NotTouched(objs, heads, touched, x, 4);
    }
  }

  /** Inside an object, only its node can be touched. */
  lemma NotTouched(objs: set<nat>, heads: set<nat>, touched: set<nat>, x: nat, offset: nat)
    requires Separate(objs, heads) && x in objs && touched <= objs + heads && 0 < offset < 12
    ensures x + offset !in touched
  {
    assert x + offset in touched ==> x + offset in objs || x + offset in heads;
  }

  lemma LinksStay(m: seq<Word>, m': seq<Word>, touched: set<nat>, y: nat)
    requires Frame(m, m', touched, {}) && y + 8 <= |m|
    requires forall x: int :: x in touched ==> Apart(x, y)
    ensures m'[y] == m[y] && m'[y + 4] == m[y + 4]
  {
    assert !Apart(y, y) && !Apart(y - 4, y) && !Apart(y + 4, y);
  }

  /** A ring none of whose nodes was touched is still there. */
  lemma RingStays(m: seq<Word>, m': seq<Word>, objs: set<nat>, heads: set<nat>,
                  head: nat, nodes: seq<nat>, touched: set<nat>)
    requires Separate(objs, heads) && IsRing(m, head, nodes) && Frame(m, m', touched, {})
    requires head in heads && forall x :: x in nodes ==> x in objs
    requires forall x :: x in touched ==> (x in objs || x in heads) && x != head && x !in nodes
    ensures IsRing(m', head, nodes)
  {
    var cells := set a | 0 <= a < |m| && m'[a] != m[a];
    forall i | 0 <= i <= |nodes|
      ensures At(head, nodes, i) !in cells && At(head, nodes, i) + 4 !in cells
    {
      var y := At(head, nodes, i);
      assert y == head || y in nodes;
      RingWalk(m, head, nodes, i);
      forall x: int | x in touched
        ensures Apart(x, y)
      {
        assert x in objs || x in heads;
      }
      LinksStay(m, m', touched, y);
    }
    RingFrame(m, m', head, nodes, cells);
  }

  lemma NodeIsObject(objs: set<nat>, f: Family, head: nat, i: nat)
    requires OnOneList(objs, f) && head in f && i <= |f[head]| + 1
    ensures At(head, f[head], i) == head || At(head, f[head], i) in objs
  {
    if 0 < i <= |f[head]| {
      assert f[head][i - 1] in f[head];
    }
  }

  /** One list of the family became `nodes`. */
  lemma RingChanged(m: seq<Word>, m': seq<Word>, objs: set<nat>, f: Family,
                    head: nat, nodes: seq<nat>, touched: set<nat>)
    requires Base(m, objs, f) && head in f && IsRing(m', head, nodes) && Frame(m, m', touched, {})
    requires forall x :: x in nodes ==> x in objs && (x in f[head] || Unlisted(f, x))
    requires forall x :: x in touched ==> x == head || x in f[head] || x in nodes
    ensures Base(m', objs, f[head := nodes]) && ThirdWordsKept(m, m', objs)
  {
    hide IsRing, Separate, InMemory, Frame, ThirdWordsKept;
    assert f[head := nodes].Keys == f.Keys;
    assert InMemory(m', objs) by { FrameLength(m, m', objs, touched); }
    forall h | h in f && h != head
      ensures IsRing(m', h, f[h])
    {
      forall x | x in touched
        ensures (x in objs || x in f.Keys) && x != h && x !in f[h]
      {
        assert x in objs ==> x != h by { HeadNoObject(objs, f.Keys, h); }
        assert h in f && h != head && (x in f[head] ==> x in objs && x !in f[h]);
        assert head !in objs by { HeadNoObject(objs, f.Keys, head); }
        assert x in f[h] ==> x in objs;
      }
      RingStays(m, m', objs, f.Keys, h, f[h], touched);
    }
    ThirdWordsStay(m, m', objs, f.Keys, touched);
  }

  lemma HeadNoObject(objs: set<nat>, heads: set<nat>, h: nat)
    requires Separate(objs, heads) && h in heads
    ensures h !in objs
  {
    assert h in objs ==> h + 12 <= h || h + 8 <= h;
  }

  lemma FrameLength(m: seq<Word>, m': seq<Word>, objs: set<nat>, touched: set<nat>)
    requires Frame(m, m', touched, {}) && InMemory(m, objs)
    ensures InMemory(m', objs)
  {
  }

  /** A write to the third word of an object leaves every list alone. */
  lemma ThirdWordWritten(m: seq<Word>, objs: set<nat>, f: Family, x: nat, v: Word)
    requires Base(m, objs, f) && x in objs
    ensures Base(m[x + 8 := v], objs, f) && Frame(m, m[x + 8 := v], {}, {x})
    ensures ThirdWordsKept(m, m[x + 8 := v], objs - {x})
  {
    var m' := m[x + 8 := v];
    forall h | h in f
      ensures IsRing(m', h, f[h])
    {
      forall i | 0 <= i <= |f[h]|
        ensures At(h, f[h], i) !in {x + 8} && At(h, f[h], i) + 4 !in {x + 8}
      {
        NodeIsObject(objs, f, h, i);
      }
      RingFrame(m, m', h, f[h], {x + 8});
    }
  }

  lemma OffTheRing(m: seq<Word>, objs: set<nat>, f: Family, head: nat, n: nat)
    requires Base(m, objs, f) && head in f && n in objs && n !in f[head]
    ensures Detached(m, n, head, f[head])
  {
    forall i | 0 <= i <= |f[head]|
      ensures Apart(n, At(head, f[head], i))
    {
      NodeIsObject(objs, f, head, i);
      OnTheRing(head, f[head], i);
    }
  }

  lemma OnTheRing(head: nat, nodes: seq<nat>, i: nat)
    requires i <= |nodes| + 1
    ensures At(head, nodes, i) == head || At(head, nodes, i) in nodes
  {
  }

  /** list_add on one list of the family. */
  method AddFirst(mem: array<Word>, n: nat, head: nat, ghost objs: set<nat>, ghost f: Family)
    requires Base(mem[..], objs, f) && head in f && n in objs && Unlisted(f, n)
    modifies mem
    ensures Base(mem[..], objs, f[head := [n] + f[head]])
    ensures ThirdWordsKept(old(mem[..]), mem[..], objs)
    ensures Frame(old(mem[..]), mem[..], objs + f.Keys, {})
  {
    hide IsRing, SameExcept, Detached;
    ghost var m := mem[..];
    OffTheRing(m, objs, f, head, n);
    ListAdd(mem, n, head, f[head]);
    OnTheRing(head, f[head], 1);
    ghost var touched := {n, head, At(head, f[head], 1)};
    FrameOf(m, mem[..], n, n, head, At(head, f[head], 1), touched);
    RingChanged(m, mem[..], objs, f, head, [n] + f[head], touched);
    FrameGrows(m, mem[..], touched, objs + f.Keys);
  }

  /** list_add_tail. */
  method AddLast(mem: array<Word>, n: nat, head: nat, ghost objs: set<nat>, ghost f: Family)
    requires Base(mem[..], objs, f) && head in f && n in objs && Unlisted(f, n)
    modifies mem
    ensures Base(mem[..], objs, f[head := f[head] + [n]])
    ensures ThirdWordsKept(old(mem[..]), mem[..], objs)
    ensures Frame(old(mem[..]), mem[..], objs + f.Keys, {})
  {
    hide IsRing, SameExcept, Detached;
    ghost var m := mem[..];
    OffTheRing(m, objs, f, head, n);
    ListAddTail(mem, n, head, f[head]);
    OnTheRing(head, f[head], |f[head]|);
    ghost var touched := {n, head, At(head, f[head], |f[head]|)};
    FrameOf(m, mem[..], n, n, At(head, f[head], |f[head]|), head, touched);
    RingChanged(m, mem[..], objs, f, head, f[head] + [n], touched);
    FrameGrows(m, mem[..], touched, objs + f.Keys);
  }

  /** list_del of the node at position `k`. */
  method Delete(mem: array<Word>, e: nat, ghost head: nat, ghost k: nat, ghost objs: set<nat>, ghost f: Family)
    requires Base(mem[..], objs, f) && head in f && k < |f[head]| && f[head][k] == e
    modifies mem
    ensures Base(mem[..], objs, f[head := Without(f[head], k)])
    ensures Unlisted(f[head := Without(f[head], k)], e)
    ensures ThirdWordsKept(old(mem[..]), mem[..], objs)
    ensures Frame(old(mem[..]), mem[..], objs + f.Keys, {})
  {
    hide IsRing, SameExcept, Without;
    ghost var m := mem[..];
    RingNoDup(m, head, f[head]);
    WithoutIs(f[head], k);
    ListDel(mem, e, head, f[head], k);
    OnTheRing(head, f[head], k);
    OnTheRing(head, f[head], k + 2);
    ghost var touched := {e, At(head, f[head], k), At(head, f[head], k + 2)};
    FrameOf(m, mem[..], e, e, At(head, f[head], k), At(head, f[head], k + 2), touched);
    RingChanged(m, mem[..], objs, f, head, Without(f[head], k), touched);
    FrameGrows(m, mem[..], touched, objs + f.Keys);
  }

  lemma FrameOf(m: seq<Word>, m': seq<Word>, a: nat, b: nat, c: nat, d: nat, touched: set<nat>)
    requires SameExcept(m, m', {a, b + 4, c, d + 4})
    requires a in touched && b in touched && c in touched && d in touched
    ensures Frame(m, m', touched, {})
  {
  }

  lemma FrameGrows(m: seq<Word>, m': seq<Word>, nodes: set<nat>, nodes': set<nat>)
    requires Frame(m, m', nodes, {}) && nodes <= nodes'
    ensures Frame(m, m', nodes', {})
  {
  }

  /** list_pop. */
  method PopFirst(mem: array<Word>, head: nat, ghost objs: set<nat>, ghost f: Family) returns (e: nat)
    requires Base(mem[..], objs, f) && head in f
    modifies mem
    ensures e == if f[head] == [] then NULL as nat else f[head][0]
    ensures f[head] == [] ==> mem[..] == old(mem[..])
    ensures f[head] != [] ==>
              && e != NULL && e in objs
              && Base(mem[..], objs, f[head := f[head][1..]]) && Unlisted(f[head := f[head][1..]], e)
    ensures ThirdWordsKept(old(mem[..]), mem[..], objs)
    ensures Frame(old(mem[..]), mem[..], objs + f.Keys, {})
  {
    var empty := ListEmpty(mem, head, f[head]);
    if empty {
      return NULL;
    }
    RingWalk(mem[..], head, f[head], 0);
    e := mem[head];
    Delete(mem, e, head, 0, objs, f);
    WithoutFirst(f[head]);
  }

  ghost function Elements(xs: seq<nat>): set<nat> {
    set x | x in xs
  }

  /** Every list of `heads` is empty. */
  ghost function Empty(heads: set<nat>): Family {
    map h | h in heads :: []
  }

  ghost predicate HeadsFit(m: seq<Word>, objs: set<nat>, heads: seq<nat>) {
    && |m| <= WORD_LIMIT && NoDup(heads) && Separate(objs, Elements(heads))
    && forall i :: 0 <= i < |heads| ==> IsNode(m, heads[i])
  }

  /** The static list heads (LIST in list.h): each points to itself, whatever memory held. */
  method InitLists(mem: array<Word>, heads: seq<nat>, ghost objs: set<nat>)
    requires HeadsFit(mem[..], objs, heads) && InMemory(mem[..], objs)
    modifies mem
    ensures Base(mem[..], objs, Empty(Elements(heads))) && ThirdWordsKept(old(mem[..]), mem[..], objs)
    ensures Frame(old(mem[..]), mem[..], Elements(heads), {})
  {
    hide IsRing, OnOneList, Base, ThirdWordsKept, InMemory;
    for i := 0 to |heads|
      invariant HeadsFit(mem[..], objs, heads) && Frame(old(mem[..]), mem[..], Elements(heads), {})
      invariant forall j :: 0 <= j < i ==> mem[heads[j]] == heads[j] && mem[heads[j] + 4] == heads[j]
    {
      ghost var m := mem[..];
      HeadsApart(m, objs, heads, i);
      mem[heads[i]] := heads[i];
      mem[heads[i] + 4] := heads[i];
    }
    ThirdWordsStay(old(mem[..]), mem[..], objs, Elements(heads), Elements(heads));
    AllEmpty(old(mem[..]), mem[..], objs, heads);
  }

  lemma AllEmpty(m: seq<Word>, m': seq<Word>, objs: set<nat>, heads: seq<nat>)
    requires HeadsFit(m', objs, heads) && InMemory(m, objs) && |m'| == |m|
    requires forall i :: 0 <= i < |heads| ==> m'[heads[i]] == heads[i] && m'[heads[i] + 4] == heads[i]
    ensures Base(m', objs, Empty(Elements(heads)))
  {
    hide Separate;
    forall h | h in Elements(heads)
      ensures IsRing(m', h, [])
    {
      var i :| 0 <= i < |heads| && heads[i] == h;
    }
    assert Empty(Elements(heads)).Keys == Elements(heads);
  }

  lemma HeadsApart(m: seq<Word>, objs: set<nat>, heads: seq<nat>, i: nat)
    requires HeadsFit(m, objs, heads) && i < |heads|
    ensures IsNode(m, heads[i]) && heads[i] in Elements(heads)
    ensures forall j :: 0 <= j < |heads| && j != i ==> Apart(heads[j], heads[i])
  {
    assert forall j :: 0 <= j < |heads| ==> heads[j] in Elements(heads);
  }

  /** An object on no list can be given up. */
  lemma ObjectGone(m: seq<Word>, objs: set<nat>, f: Family, x: nat)
    requires Base(m, objs, f) && Unlisted(f, x)
    ensures Base(m, objs - {x}, f)
  {
    hide IsRing;
  }

  /** `x` is storage for an object, apart from all objects and list heads in use. */
  ghost predicate Fresh(m: seq<Word>, objs: set<nat>, heads: set<nat>, x: nat) {
    && 0 < x && x % 4 == 0 && x + 12 <= |m|
    && (forall y :: y in objs ==> x + 12 <= y || y + 12 <= x)
    && (forall h :: h in heads ==> x + 12 <= h || h + 8 <= x)
  }

  lemma ObjectNew(m: seq<Word>, objs: set<nat>, f: Family, x: nat)
    requires Base(m, objs, f) && Fresh(m, objs, f.Keys, x)
    ensures Base(m, objs + {x}, f) && Unlisted(f, x) && x !in objs
  {
    hide IsRing;
  }
}
