/** Circular doubly linked lists threaded through a flat memory (list.c, list.h).

A memory is a sequence of words indexed by byte address: entry `a`, for `a` a multiple of 4,
is the word stored at byte address `a`.  Every access below is at an aligned address, so the
other entries stand for no storage.  A list node at address `x` keeps its `next` link at `x`
and its `prev` link at `x + 4`. */
module Rings {
  import opened Sequences
  import opened Words

  const NULL: Word := 0

  ghost predicate IsNode(m: seq<Word>, x: int) {
    0 < x && x % 4 == 0 && x + 8 <= |m|
  }

  /** The nodes at `x` and `y` share no storage. */
  predicate Apart(x: int, y: int) {
    x + 8 <= y || y + 8 <= x
  }

  /** `y` follows `x`: the `next` link of `x` and the `prev` link of `y` agree on it. */
  ghost predicate Linked(m: seq<Word>, x: nat, y: nat) {
    && IsNode(m, x) && IsNode(m, y)
    && m[x] == y && m[y + 4] == x
  }

  /** The `i`-th address met when walking from the list head through `nodes` back to the head. */
  function At(head: nat, nodes: seq<nat>, i: nat): nat
    requires i <= |nodes| + 1
  {
    if i == 0 || i == |nodes| + 1 then head else nodes[i - 1]
  }

  /** The links in `m` form a ring through `head` and then `nodes`, in that order forwards and
      in the opposite order backwards. */
  ghost predicate IsRing(m: seq<Word>, head: nat, nodes: seq<nat>) {
    && |m| <= WORD_LIMIT
    && (forall i, j :: 0 <= i < j <= |nodes| ==> Apart(At(head, nodes, i), At(head, nodes, j)))
    && (forall i, j :: 0 <= i <= |nodes| && j == i + 1 ==> Linked(m, At(head, nodes, i), At(head, nodes, j)))
  }

  /** `n` is a node that shares no storage with the ring. */
  ghost predicate Detached(m: seq<Word>, n: nat, head: nat, nodes: seq<nat>) {
    && IsNode(m, n)
    && forall i :: 0 <= i <= |nodes| ==> Apart(n, At(head, nodes, i))
  }

  ghost predicate SameExcept(m: seq<Word>, m': seq<Word>, cells: set<int>) {
    && |m'| == |m|
    && forall a :: 0 <= a < |m| && a !in cells ==> m'[a] == m[a]
  }

  /** A ring only depends on its own link words. */
  lemma RingFrame(m: seq<Word>, m': seq<Word>, head: nat, nodes: seq<nat>, cells: set<int>)
    requires IsRing(m, head, nodes)
    requires SameExcept(m, m', cells)
    requires forall i :: 0 <= i <= |nodes| ==> At(head, nodes, i) !in cells && At(head, nodes, i) + 4 !in cells
    ensures IsRing(m', head, nodes)
  {
    forall i, j | 0 <= i <= |nodes| && j == i + 1
      ensures Linked(m', At(head, nodes, i), At(head, nodes, j))
    {
      assert Linked(m, At(head, nodes, i), At(head, nodes, j));
      assert At(head, nodes, j) == At(head, nodes, if j == |nodes| + 1 then 0 else j);
    }
  }

  lemma RingNoDup(m: seq<Word>, head: nat, nodes: seq<nat>)
    requires IsRing(m, head, nodes)
    ensures NoDup(nodes) && head !in nodes
  {
    forall i, j | 0 <= i < j < |nodes|
      ensures nodes[i] != nodes[j]
    {
      assert Apart(At(head, nodes, i + 1), At(head, nodes, j + 1));
    }
    forall i | 0 <= i < |nodes|
      ensures nodes[i] != head
    {
      assert Apart(At(head, nodes, 0), At(head, nodes, i + 1));
    }
  }

  /** One step of a walk; only the last step reaches the head again. */
  lemma RingWalk(m: seq<Word>, head: nat, nodes: seq<nat>, k: nat)
    requires IsRing(m, head, nodes) && k <= |nodes|
    ensures IsNode(m, At(head, nodes, k)) && m[At(head, nodes, k)] == At(head, nodes, k + 1)
    ensures At(head, nodes, k + 1) == head <==> k == |nodes|
  {
    assert Linked(m, At(head, nodes, k), At(head, nodes, k + 1));
    assert forall j :: 0 < j <= |nodes| ==> Apart(At(head, nodes, 0), At(head, nodes, j));
  }

  /** A memory holds at most one ring at a list head: the links determine the list. */
  lemma RingUnique(m: seq<Word>, head: nat, xs: seq<nat>, ys: seq<nat>)
    requires IsRing(m, head, xs) && IsRing(m, head, ys) && |xs| <= |ys|
    ensures xs == ys
  {
    SameWalk(m, head, xs, ys, |xs|);
    RingWalk(m, head, xs, |xs|);
    RingWalk(m, head, ys, |xs|);
    forall i | 0 <= i < |xs|
      ensures xs[i] == ys[i]
    {
      SameWalk(m, head, xs, ys, i + 1);
    }
  }

  lemma {:induction false} SameWalk(m: seq<Word>, head: nat, xs: seq<nat>, ys: seq<nat>, k: nat)
    requires IsRing(m, head, xs) && IsRing(m, head, ys) && |xs| <= |ys| && k <= |xs|
    ensures At(head, xs, k) == At(head, ys, k)
  {
    if k > 0 {
      SameWalk(m, head, xs, ys, k - 1);
      RingWalk(m, head, xs, k - 1);
      RingWalk(m, head, ys, k - 1);
    }
  }

  /** `nodes` with `n` inserted at position `k`. */
  function Inserted(nodes: seq<nat>, k: nat, n: nat): (r: seq<nat>)
    requires k <= |nodes|
    ensures |r| == |nodes| + 1
  {
    nodes[..k] + [n] + nodes[k..]
  }

  lemma InsertedAt(head: nat, nodes: seq<nat>, k: nat, n: nat, i: nat)
    requires k <= |nodes| && i <= |nodes| + 2
    ensures At(head, Inserted(nodes, k, n), i) ==
            if i <= k then At(head, nodes, i) else if i == k + 1 then n else At(head, nodes, i - 1)
  {
  }

  lemma InsertedApart(m: seq<Word>, n: nat, head: nat, nodes: seq<nat>, k: nat, i: nat, j: nat)
    requires IsRing(m, head, nodes) && Detached(m, n, head, nodes)
    requires k <= |nodes| && i < j <= |nodes| + 1
    ensures Apart(At(head, Inserted(nodes, k, n), i), At(head, Inserted(nodes, k, n), j))
  {
    hide Inserted;
    InsertedAt(head, nodes, k, n, i);
    InsertedAt(head, nodes, k, n, j);
    var i0, j0 := if i <= k then i else i - 1, if j <= k then j else j - 1;
    if i == k + 1 {
      assert Apart(n, At(head, nodes, j0));
    } else if j == k + 1 {
      assert Apart(n, At(head, nodes, i0));
    } else {
      assert Apart(At(head, nodes, i0), At(head, nodes, j0));
    }
  }

  lemma InsertedLinked(m: seq<Word>, m': seq<Word>, n: nat, head: nat, nodes: seq<nat>, k: nat, i: nat)
    requires IsRing(m, head, nodes) && Detached(m, n, head, nodes)
    requires k <= |nodes| && i <= |nodes| + 1
    requires Linked(m, At(head, nodes, k), At(head, nodes, k + 1))
    requires m' == m[At(head, nodes, k + 1) + 4 := n][n + 4 := At(head, nodes, k)]
                    [n := At(head, nodes, k + 1)][At(head, nodes, k) := n]
    ensures Linked(m', At(head, Inserted(nodes, k, n), i), At(head, Inserted(nodes, k, n), i + 1))
  {
    hide Inserted;
    InsertedAt(head, nodes, k, n, i);
    InsertedAt(head, nodes, k, n, i + 1);
    var prev, next := At(head, nodes, k), At(head, nodes, k + 1);
    assert next == At(head, nodes, if k == |nodes| then 0 else k + 1);
    if i < k {
      assert Linked(m, At(head, nodes, i), At(head, nodes, i + 1));
    } else if i > k + 1 {
      assert Linked(m, At(head, nodes, i - 1), At(head, nodes, i));
      assert At(head, nodes, i) == At(head, nodes, if i == |nodes| + 1 then 0 else i);
    }
  }

  /** Splicing a detached node in after the node at position `k` of the walk. */
  lemma RingInsert(m: seq<Word>, m': seq<Word>, n: nat, head: nat, nodes: seq<nat>, k: nat)
    requires IsRing(m, head, nodes) && k <= |nodes|
    requires Detached(m, n, head, nodes)
    requires Linked(m, At(head, nodes, k), At(head, nodes, k + 1))
    requires m' == m[At(head, nodes, k + 1) + 4 := n][n + 4 := At(head, nodes, k)]
                    [n := At(head, nodes, k + 1)][At(head, nodes, k) := n]
    ensures IsRing(m', head, Inserted(nodes, k, n))
  {
    hide Inserted;
    var nodes' := Inserted(nodes, k, n);
    forall i, j | 0 <= i < j <= |nodes'|
      ensures Apart(At(head, nodes', i), At(head, nodes', j))
    {
      InsertedApart(m, n, head, nodes, k, i, j);
    }
    forall i, j | 0 <= i <= |nodes'| && j == i + 1
      ensures Linked(m', At(head, nodes', i), At(head, nodes', j))
    {
      InsertedLinked(m, m', n, head, nodes, k, i);
    }
  }

  /** Unlinking the node at position `k` of `nodes`, as list_del does. */
  lemma RingRemove(m: seq<Word>, m': seq<Word>, head: nat, nodes: seq<nat>, k: nat)
    requires IsRing(m, head, nodes) && k < |nodes|
    requires Linked(m, At(head, nodes, k), nodes[k]) && Linked(m, nodes[k], At(head, nodes, k + 2))
    requires m' == m[At(head, nodes, k) := At(head, nodes, k + 2)][At(head, nodes, k + 2) + 4 := At(head, nodes, k)]
                    [nodes[k] := NULL][nodes[k] + 4 := NULL]
    ensures IsRing(m', head, Without(nodes, k))
  {
    var nodes' := Without(nodes, k);
    forall i | 0 <= i <= |nodes'| + 1
      ensures At(head, nodes', i) == At(head, nodes, if i <= k then i else i + 1)
    {
    }
    forall i, j | 0 <= i < j <= |nodes'|
      ensures Apart(At(head, nodes', i), At(head, nodes', j))
    {
      assert Apart(At(head, nodes, if i <= k then i else i + 1), At(head, nodes, if j <= k then j else j + 1));
    }
    forall i, j | 0 <= i <= |nodes'| && j == i + 1
      ensures Linked(m', At(head, nodes', i), At(head, nodes', j))
    {
      var prev, e, next := At(head, nodes, k), At(head, nodes, k + 1), At(head, nodes, k + 2);
      assert next == At(head, nodes, if k + 1 == |nodes| then 0 else k + 2);
      if i != k {
        var i0, j0 := if i < k then i else i + 1, if i < k then j else j + 1;
        var j1 := if j0 == |nodes| + 1 then 0 else j0;
        assert Linked(m, At(head, nodes, i0), At(head, nodes, j0));
        assert At(head, nodes, j0) == At(head, nodes, j1);
        assert i0 != k && i0 != k + 1 && j1 != k + 1;
      }
    }
  }

  /** The node `n` stands between `prev` and `next` (list.c:4-10). */
  method Link(mem: array<Word>, n: nat, prev: nat, next: nat)
    requires mem.Length <= WORD_LIMIT
    requires IsNode(mem[..], n) && IsNode(mem[..], prev) && IsNode(mem[..], next)
    modifies mem
    ensures mem[..] == old(mem[..])[next + 4 := n][n + 4 := prev][n := next][prev := n]
  {
    mem[next + 4] := n;
    mem[n + 4] := prev;
    mem[n] := next;
    mem[prev] := n;
  }

  method ListAdd(mem: array<Word>, n: nat, head: nat, ghost nodes: seq<nat>)
    requires IsRing(mem[..], head, nodes)
    requires Detached(mem[..], n, head, nodes)
    modifies mem
    ensures IsRing(mem[..], head, [n] + nodes)
    ensures SameExcept(old(mem[..]), mem[..], {n, n + 4, head, At(head, nodes, 1) + 4})
  {
    assert Linked(mem[..], At(head, nodes, 0), At(head, nodes, 1));
    assert Inserted(nodes, 0, n) == [n] + nodes;
    Link(mem, n, head, mem[head]);
    RingInsert(old(mem[..]), mem[..], n, head, nodes, 0);
  }

  method ListAddTail(mem: array<Word>, n: nat, head: nat, ghost nodes: seq<nat>)
    requires IsRing(mem[..], head, nodes)
    requires Detached(mem[..], n, head, nodes)
    modifies mem
    ensures IsRing(mem[..], head, nodes + [n])
    ensures SameExcept(old(mem[..]), mem[..], {n, n + 4, At(head, nodes, |nodes|), head + 4})
  {
    assert Linked(mem[..], At(head, nodes, |nodes|), At(head, nodes, |nodes| + 1));
    assert Inserted(nodes, |nodes|, n) == nodes + [n];
    Link(mem, n, mem[head + 4], head);
    RingInsert(old(mem[..]), mem[..], n, head, nodes, |nodes|);
  }

  method ListDel(mem: array<Word>, e: nat, ghost head: nat, ghost nodes: seq<nat>, ghost k: nat)
    requires IsRing(mem[..], head, nodes)
    requires k < |nodes| && nodes[k] == e
    modifies mem
    ensures IsRing(mem[..], head, Without(nodes, k))
    ensures e + 4 < mem.Length && mem[e] == NULL && mem[e + 4] == NULL
    ensures SameExcept(old(mem[..]), mem[..], {e, e + 4, At(head, nodes, k), At(head, nodes, k + 2) + 4})
  {
    assert Linked(mem[..], At(head, nodes, k), At(head, nodes, k + 1));
    assert Linked(mem[..], At(head, nodes, k + 1), At(head, nodes, k + 2));
    assert Apart(At(head, nodes, k), At(head, nodes, k + 1));
    assert At(head, nodes, k + 2) == At(head, nodes, if k + 1 == |nodes| then 0 else k + 2);
    mem[mem[e + 4]] := mem[e];
    mem[mem[e] + 4] := mem[e + 4];
    mem[e] := NULL;
    mem[e + 4] := NULL;
    RingRemove(old(mem[..]), mem[..], head, nodes, k);
  }

  /** list_empty. */
  method ListEmpty(mem: array<Word>, head: nat, ghost nodes: seq<nat>) returns (empty: bool)
    requires IsRing(mem[..], head, nodes)
    ensures empty <==> nodes == []
  {
    RingWalk(mem[..], head, nodes, 0);
    empty := mem[head] == head;
  }

  /** list_pop: unlinks the first node, if there is one. */
  method ListPop(mem: array<Word>, head: nat, ghost nodes: seq<nat>) returns (e: nat)
    requires IsRing(mem[..], head, nodes)
    modifies mem
    ensures nodes == [] ==> e == NULL && mem[..] == old(mem[..])
    ensures nodes != [] ==>
              && e == nodes[0] && e != NULL && IsRing(mem[..], head, nodes[1..])
              && SameExcept(old(mem[..]), mem[..], {e, e + 4, head, At(head, nodes, 2) + 4})
  {
    RingWalk(mem[..], head, nodes, 0);
    var empty := ListEmpty(mem, head, nodes);
    if empty {
      return NULL;
    }
    RingWalk(mem[..], head, nodes, 1);
    e := mem[head];
    ListDel(mem, e, head, nodes, 0);
    assert Without(nodes, 0) == nodes[1..];
  }

  /** list_for_each: a walk visits every node once, in list order. */
  method ForEach(mem: array<Word>, head: nat, ghost nodes: seq<nat>) returns (visited: seq<nat>)
    requires IsRing(mem[..], head, nodes)
    ensures visited == nodes
  {
    visited := [];
    RingWalk(mem[..], head, nodes, 0);
    var pos: nat := mem[head];
    while pos != head
      invariant |visited| <= |nodes| && visited == nodes[..|visited|]
      invariant pos == At(head, nodes, |visited| + 1)
      decreases |nodes| - |visited|
    {
      RingWalk(mem[..], head, nodes, |visited|);
      RingWalk(mem[..], head, nodes, |visited| + 1);
      visited := visited + [pos];
      pos := mem[pos];
    }
    RingWalk(mem[..], head, nodes, |visited|);
  }

  lemma WithoutFirst(nodes: seq<nat>)
    requires nodes != []
    ensures Without(nodes, 0) == nodes[1..]
  {
  }

  /** list_for_each_safe with a body that deletes the node it is at: the walk still visits every
      node once, in order, and leaves the list empty. */
  method DeleteEach(mem: array<Word>, head: nat, ghost nodes: seq<nat>) returns (visited: seq<nat>)
    requires IsRing(mem[..], head, nodes)
    modifies mem
    ensures visited == nodes
    ensures IsRing(mem[..], head, [])
  {
    hide IsRing, SameExcept, Without;
    visited := [];
    RingWalk(mem[..], head, nodes, 0);
    var pos: nat := mem[head];
    ghost var rest := nodes;
    if nodes != [] {
      RingWalk(mem[..], head, nodes, 1);
    }
    var next: nat := mem[pos];
    while pos != head
      invariant visited + rest == nodes
      invariant IsRing(mem[..], head, rest)
      invariant pos == At(head, rest, 1)
      invariant rest != [] ==> next == At(head, rest, 2)
      decreases |rest|
    {
      RingWalk(mem[..], head, rest, 0);
      visited := visited + [pos];
      ListDel(mem, pos, head, rest, 0);
      WithoutFirst(rest);
      rest := rest[1..];
      pos := next;
      RingWalk(mem[..], head, rest, 0);
      if rest != [] {
        RingWalk(mem[..], head, rest, 1);
      }
      next := mem[pos];
    }
    RingWalk(mem[..], head, rest, 0);
  }
}
