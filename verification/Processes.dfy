/** The scheduler in memory: process blocks and wait records on the rings of run queue, wait queues
and dead queue, updated in place (process.c, wait.c).

A process is known by the address of its list node, which lies 8 bytes into its block; its state is
the word after that node.  The third word of a wait record is the address of its process. */
module Processes {
  import opened Sequences
  import opened Words
  import opened Rings
  import opened RingFamilies
  import opened Scheduling

  const RUNNING: Word := 0
  const WAITING: Word := 1
  const FINISHED: Word := 2

  /** The list heads: the three global queues, and the wait queues. */
  datatype Lists = Lists(run: nat, waiting: nat, dead: nat, wqs: seq<nat>)

  /** What a state word means.  The scheduler only tests for RUNNING. */
  function StateOf(w: Word): ProcState {
    if w == RUNNING then Running else if w == WAITING then Waiting else Finished
  }

  predicate ProcessList(l: Lists, h: nat) {
    h == l.run || h == l.waiting || h == l.dead
  }

  /** The lists of the scheduler are different lists of the family, which may hold others. */
  ghost predicate Named(l: Lists, f: Family) {
    && l.run in f && l.waiting in f && l.dead in f
    && l.run != l.waiting && l.run != l.dead && l.waiting != l.dead
    && (forall w :: 0 <= w < |l.wqs| ==> l.wqs[w] in f && !ProcessList(l, l.wqs[w]))
    && NoDup(l.wqs)
  }

  ghost predicate Queued(l: Lists, f: Family, s: Sched)
    requires Named(l, f)
  {
    f[l.run] == s.run && f[l.waiting] == s.waiting && f[l.dead] == s.dead && |l.wqs| == |s.wq|
  }

  /** Processes are on the three global queues only, and their state words agree with `st`. */
  ghost predicate Stated(m: seq<Word>, l: Lists, objs: set<nat>, f: Family, s: Sched) {
    && (forall p :: p in s.st ==> p in objs && 8 < p && p + 8 < |m| && StateOf(m[p + 8]) == s.st[p])
    && (forall h, x :: h in f && x in f[h] && x in s.st ==> ProcessList(l, h))
  }

  /** The records `recs` belong to the processes `owners`, in that order. */
  ghost predicate OwnedBy(m: seq<Word>, recs: seq<nat>, owners: seq<Pid>) {
    && |recs| == |owners|
    && forall i :: 0 <= i < |recs| ==> recs[i] + 8 < |m| && m[recs[i] + 8] as nat + 8 == owners[i]
  }

  ghost predicate Recorded(m: seq<Word>, l: Lists, f: Family, s: Sched)
    requires Named(l, f) && Queued(l, f, s)
  {
    forall w :: 0 <= w < |l.wqs| ==> OwnedBy(m, f[l.wqs[w]], s.wq[w])
  }

  /** The memory represents the scheduler's state. */
  ghost predicate Represents(m: seq<Word>, l: Lists, objs: set<nat>, f: Family, s: Sched) {
    && Base(m, objs, f)
    && Named(l, f) && Queued(l, f, s)
    && Stated(m, l, objs, f, s) && Recorded(m, l, f, s)
  }

  /** `s` with the queue at list head `h` replaced. */
  function WithList(l: Lists, s: Sched, h: nat, nodes: seq<nat>): Sched {
    if h == l.run then s.(run := nodes)
    else if h == l.waiting then s.(waiting := nodes)
    else s.(dead := nodes)
  }

  function QueueAt(l: Lists, s: Sched, h: nat): seq<nat> {
    if h == l.run then s.run else if h == l.waiting then s.waiting else s.dead
  }

  /** Process `p` has gone to the queue at list head `h`, with state word `state`. */
  function Left(l: Lists, s: Sched, h: nat, p: nat, state: Word): Sched {
    WithList(l, s, h, [p] + QueueAt(l, s, h)).(st := s.st[p := StateOf(state)])
  }

  lemma OwnersKept(m: seq<Word>, m': seq<Word>, objs: set<nat>, recs: seq<nat>, owners: seq<Pid>)
    requires OwnedBy(m, recs, owners) && ThirdWordsKept(m, m', objs)
    requires forall i :: 0 <= i < |recs| ==> recs[i] in objs
    ensures OwnedBy(m', recs, owners)
  {
  }

  lemma RecordsAreObjects(l: Lists, objs: set<nat>, f: Family, s: Sched, w: nat)
    requires OnOneList(objs, f) && Named(l, f) && w < |l.wqs|
    ensures forall i :: 0 <= i < |f[l.wqs[w]]| ==> f[l.wqs[w]][i] in objs
  {
    assert forall i :: 0 <= i < |f[l.wqs[w]]| ==> f[l.wqs[w]][i] in f[l.wqs[w]];
  }

  /** One of the three global queues changed. */
  lemma ListChanged(m: seq<Word>, m': seq<Word>, l: Lists, objs: set<nat>, f: Family, s: Sched, h: nat, nodes: seq<nat>)
    requires Represents(m, l, objs, f, s) && ProcessList(l, h)
    requires Base(m', objs, f[h := nodes]) && ThirdWordsKept(m, m', objs)
    ensures Represents(m', l, objs, f[h := nodes], WithList(l, s, h, nodes))
  {
    hide Base, OwnedBy;
    var f' := f[h := nodes];
    forall w | 0 <= w < |l.wqs|
      ensures OwnedBy(m', f'[l.wqs[w]], s.wq[w])
    {
      ObjectsOnLists(m, objs, f);
      RecordsAreObjects(l, objs, f, s, w);
      OwnersKept(m, m', objs, f[l.wqs[w]], s.wq[w]);
    }
  }

  lemma ObjectsOnLists(m: seq<Word>, objs: set<nat>, f: Family)
    requires Base(m, objs, f)
    ensures OnOneList(objs, f) && InMemory(m, objs)
  {
  }

  /** Wait queue `w` changed. */
  lemma RecordsChanged(m: seq<Word>, m': seq<Word>, l: Lists, objs: set<nat>, f: Family, s: Sched, w: nat,
                       recs: seq<nat>, owners: seq<Pid>)
    requires Represents(m, l, objs, f, s) && w < |l.wqs|
    requires Base(m', objs, f[l.wqs[w] := recs]) && ThirdWordsKept(m, m', objs)
    requires OwnedBy(m', recs, owners) && forall x :: x in recs ==> x !in s.st
    ensures Represents(m', l, objs, f[l.wqs[w] := recs], s.(wq := s.wq[w := owners]))
  {
    hide Base, OwnedBy;
    var f' := f[l.wqs[w] := recs];
    forall v | 0 <= v < |l.wqs| && v != w
      ensures f'[l.wqs[v]] == f[l.wqs[v]] && OwnedBy(m', f[l.wqs[v]], s.wq[v])
    {
      ObjectsOnLists(m, objs, f);
      RecordsAreObjects(l, objs, f, s, v);
      OwnersKept(m, m', objs, f[l.wqs[v]], s.wq[v]);
    }
  }

  /** A process that is on no wait queue gets a state. */
  lemma StateWritten(m: seq<Word>, l: Lists, objs: set<nat>, f: Family, s: Sched, p: nat, v: Word)
    requires Represents(m, l, objs, f, s) && p in objs && 8 < p && p + 8 < |m|
    requires forall h :: h in f && p in f[h] ==> ProcessList(l, h)
    ensures Represents(m[p + 8 := v], l, objs, f, s.(st := s.st[p := StateOf(v)]))
    ensures Frame(m, m[p + 8 := v], {}, {p})
  {
    hide Base, OwnedBy;
    var m' := m[p + 8 := v];
    ThirdWordWritten(m, objs, f, p, v);
    forall w | 0 <= w < |l.wqs|
      ensures OwnedBy(m', f[l.wqs[w]], s.wq[w])
    {
      ObjectsOnLists(m, objs, f);
      RecordsAreObjects(l, objs, f, s, w);
      assert p !in f[l.wqs[w]];
      OwnersKept(m, m', objs - {p}, f[l.wqs[w]], s.wq[w]);
    }
    forall q | q in s.st && q != p
      ensures StateOf(m'[q + 8]) == s.st[q]
    {
      assert q in objs - {p};
    }
  }

  lemma AnyCurrent(m: seq<Word>, l: Lists, objs: set<nat>, f: Family, s: Sched, c: Option<Pid>)
    requires Represents(m, l, objs, f, s)
    ensures Represents(m, l, objs, f, s.(current := c))
  {
    hide Base, OwnedBy;
  }

  lemma MoreObjects(m: seq<Word>, l: Lists, objs: set<nat>, f: Family, s: Sched, x: nat)
    requires Represents(m, l, objs, f, s) && Fresh(m, objs, f.Keys, x)
    ensures Represents(m, l, objs + {x}, f, s) && Unlisted(f, x) && x !in objs && x !in s.st
  {
    hide Base, OwnedBy;
    ObjectNew(m, objs, f, x);
  }

  /** A process on no list goes. */
  lemma ProcessGone(m: seq<Word>, l: Lists, objs: set<nat>, f: Family, s: Sched, p: nat)
    requires Represents(m, l, objs, f, s) && Unlisted(f, p)
    ensures Represents(m, l, objs - {p}, f, s.(st := s.st - {p}))
  {
    hide Base, OwnedBy;
    ObjectGone(m, objs, f, p);
  }

  /** A wait record on no list goes. */
  lemma RecordGone(m: seq<Word>, l: Lists, objs: set<nat>, f: Family, s: Sched, x: nat)
    requires Represents(m, l, objs, f, s) && Unlisted(f, x) && x !in s.st
    ensures Represents(m, l, objs - {x}, f, s)
  {
    hide Base, OwnedBy;
    ObjectGone(m, objs, f, x);
  }

  /** The current process is on none of the queues. */
  lemma CurrentUnlisted(m: seq<Word>, l: Lists, objs: set<nat>, f: Family, s: Sched)
    requires Represents(m, l, objs, f, s) && Inv(s) && s.current.Some?
    ensures s.current.value in s.st && Unlisted(f, s.current.value)
  {
    var p := s.current.value;
    hide Base, Recorded, Labelled;
    assert Current(s)[p] == 1 && p in Places(s);
    assert Places(s)[p] == 1;
    assert p !in multiset(s.run) && p !in multiset(s.waiting) && p !in multiset(s.dead);
  }

  lemma Known(m: seq<Word>, l: Lists, objs: set<nat>, f: Family, s: Sched, p: nat)
    requires Represents(m, l, objs, f, s) && p in s.st
    ensures p in objs && 8 < p && p + 8 < |m| && StateOf(m[p + 8]) == s.st[p]
    ensures forall h :: h in f && p in f[h] ==> ProcessList(l, h)
    ensures l.run in f && l.waiting in f && l.dead in f && |m| <= WORD_LIMIT
  {
    hide OwnedBy;
  }

  lemma ListsOf(m: seq<Word>, l: Lists, objs: set<nat>, f: Family, s: Sched)
    requires Represents(m, l, objs, f, s)
    ensures l.run in f && l.waiting in f && l.dead in f && l.run != l.waiting && l.run != l.dead && l.waiting != l.dead
    ensures f[l.run] == s.run && f[l.waiting] == s.waiting && f[l.dead] == s.dead && Base(m, objs, f)
    ensures |l.wqs| == |s.wq| && |m| <= WORD_LIMIT
    ensures forall w :: 0 <= w < |l.wqs| ==>
              l.wqs[w] in f && !ProcessList(l, l.wqs[w]) && OwnedBy(m, f[l.wqs[w]], s.wq[w])
  {
    hide OwnedBy, IsRing;
  }

  lemma RunsExist(s: Sched)
    requires Inv(s)
    ensures forall p :: p in s.run ==> p in s.st
  {
  }

  lemma DeadExists(s: Sched)
    requires Inv(s)
    ensures forall p :: p in s.dead ==> p in s.st
  {
  }

  /** The owner of a new record is filled in before the record goes on a list. */
  lemma RecordFilled(m: seq<Word>, l: Lists, objs: set<nat>, f: Family, s: Sched, rec: nat, proc: Word)
    requires Represents(m, l, objs, f, s) && rec in objs && rec !in s.st && Unlisted(f, rec)
    ensures rec + 8 < |m| && Represents(m[rec + 8 := proc], l, objs, f, s)
    ensures Frame(m, m[rec + 8 := proc], {}, {rec})
  {
    hide IsRing, OwnedBy;
    var m' := m[rec + 8 := proc];
    ThirdWordWritten(m, objs, f, rec, proc);
    forall w | 0 <= w < |l.wqs|
      ensures OwnedBy(m', f[l.wqs[w]], s.wq[w])
    {
      RecordsAreObjects(l, objs, f, s, w);
      OwnersKept(m, m', objs - {rec}, f[l.wqs[w]], s.wq[w]);
    }
    forall q | q in s.st
      ensures m'[q + 8] == m[q + 8]
    {
      assert q in objs - {rec};
    }
  }

  lemma OwnerAdded(m: seq<Word>, m': seq<Word>, objs: set<nat>, recs: seq<nat>, owners: seq<Pid>, rec: nat)
    requires OwnedBy(m, recs, owners) && ThirdWordsKept(m, m', objs)
    requires rec in objs && forall x :: x in recs ==> x in objs
    ensures rec + 8 < |m| && OwnedBy(m', [rec] + recs, [m[rec + 8] as nat + 8] + owners)
  {
    var r := [rec] + recs;
    forall i | 0 <= i < |r|
      ensures r[i] + 8 < |m'| && m'[r[i] + 8] as nat + 8 == ([m[rec + 8] as nat + 8] + owners)[i]
    {
      assert i > 0 ==> r[i] == recs[i - 1] && recs[i - 1] in recs;
    }
  }

  lemma RecordsNoProcesses(m: seq<Word>, l: Lists, objs: set<nat>, f: Family, s: Sched, w: nat)
    requires Represents(m, l, objs, f, s) && w < |l.wqs|
    ensures forall x :: x in f[l.wqs[w]] ==> x in objs && x !in s.st
  {
    hide OwnedBy, IsRing;
  }

  lemma StillUnlisted(f: Family, f': Family, h: nat, rec: nat, p: nat)
    requires Unlisted(f, p) && p != rec
    requires h in f && f'.Keys == f.Keys && f'[h] == [rec] + f[h]
    requires forall k :: k in f' && k != h ==> f'[k] == f[k]
    ensures Unlisted(f', p)
  {
  }

  /** The step Block, in the order in which the code takes it. */
  lemma Blocked(l: Lists, s: Sched, w: nat)
    requires Legal(s, Block(w)) && l.waiting != l.run
    ensures var p := s.current.value;
            Step(s, Block(w)) == Pick(Left(l, s.(wq := s.wq[w := [p] + s.wq[w]]), l.waiting, p, WAITING))
  {
    hide Pick;
  }

  lemma OnRunOnly(l: Lists, f: Family, p: nat)
    requires Unlisted(f, p) && l.run in f
    ensures forall h :: h in f && p in f[l.run := [p] + f[l.run]][h] ==> ProcessList(l, h)
  {
  }

  ghost function OnList(f: Family, h: nat): seq<nat> {
    if h in f then f[h] else []
  }

  /** The lists at heads other than `heads` are the same. */
  ghost predicate SameLists(f: Family, f': Family, heads: set<nat>) {
    f'.Keys == f.Keys && forall h :: h in f && h !in heads ==> f'[h] == f[h]
  }

  lemma FirstOwner(m: seq<Word>, recs: seq<nat>, owners: seq<Pid>)
    requires OwnedBy(m, recs, owners) && recs != []
    ensures |owners| == |recs| && recs[0] + 8 < |m| && m[recs[0] + 8] as nat + 8 == owners[0]
  {
  }

  lemma FewerOwners(m: seq<Word>, m': seq<Word>, objs: set<nat>, recs: seq<nat>, owners: seq<Pid>)
    requires OwnedBy(m, recs, owners) && recs != [] && ThirdWordsKept(m, m', objs)
    requires forall x :: x in recs ==> x in objs
    ensures |owners| == |recs| && OwnedBy(m', recs[1..], owners[1..])
  {
    forall i | 0 <= i < |recs| - 1
      ensures recs[1..][i] + 8 < |m'| && m'[recs[1..][i] + 8] as nat + 8 == owners[1..][i]
    {
      assert recs[1..][i] == recs[i + 1] && recs[i + 1] in recs;
    }
  }

  /** The owner of the first record of a wait queue waits. */
  lemma OwnerWaits(m: seq<Word>, l: Lists, objs: set<nat>, f: Family, s: Sched, w: nat)
    requires Represents(m, l, objs, f, s) && Inv(s) && w < |s.wq| && s.wq[w] != []
    ensures s.wq[w][0] in s.waiting && s.wq[w][0] in s.st
  {
    hide Base, Records, Places, OwnedBy, Stated;
    WakeRecords(s, w);
  }

  /** Reading the links of a list at its head and at its first node. */
  lemma FirstLinks(m: seq<Word>, objs: set<nat>, f: Family, h: nat)
    requires Base(m, objs, f) && h in f
    ensures h < |m| && m[h] == At(h, f[h], 1) && (m[h] == h <==> f[h] == []) && m[h] as int < |m|
    ensures f[h] != [] ==> m[m[h] as int] == At(h, f[h], 2)
  {
    RingWalk(m, h, f[h], 0);
    if f[h] != [] {
      RingWalk(m, h, f[h], 1);
    }
  }

  /** What the loop of waitqueue_wakeup reads of its wait queue. */
  lemma QueueLinks(m: seq<Word>, l: Lists, objs: set<nat>, f: Family, s: Sched, w: nat)
    requires Represents(m, l, objs, f, s) && w < |l.wqs|
    ensures var h, recs := l.wqs[w], OnList(f, l.wqs[w]);
            && h < |m| && m[h] == At(h, recs, 1) && (m[h] == h <==> recs == []) && m[h] as int < |m|
            && (recs != [] ==> m[m[h] as int] == At(h, recs, 2))
            && w < |s.wq| && |s.wq[w]| == |recs|
  {
    hide Base;
    FirstLinks(m, objs, f, l.wqs[w]);
  }

  /** The loop of waitqueue_wakeup has dealt with the first `k` records of `all`. */
  ghost predicate Midway(l: Lists, w: nat, f: Family, s: Sched, f1: Family, s1: Sched, k: nat)
    requires w < |l.wqs| && w < |s.wq|
  {
    var all := OnList(f, l.wqs[w]);
    && k <= |all| == |s.wq[w]| && |s1.wq| == |s.wq|
    && OnList(f1, l.wqs[w]) == all[k..] && s1.wq[w] == s.wq[w][k..]
    && WakeAll(s1, w) == WakeAll(s, w)
    && SameLists(f, f1, {l.run, l.waiting, l.wqs[w]})
  }

  lemma StartWaking(m: seq<Word>, l: Lists, objs: set<nat>, f: Family, s: Sched, w: nat)
    requires Represents(m, l, objs, f, s) && w < |l.wqs| && w < |s.wq|
    ensures |OnList(f, l.wqs[w])| == |s.wq[w]| && Midway(l, w, f, s, f, s, 0)
    ensures Frame(m, m, objs + f.Keys, Elements(s.wq[w][..0]))
    ensures objs == objs - Elements(OnList(f, l.wqs[w])[..0])
  {
    hide Base;
    FrameRefl(m, objs + f.Keys);
    assert Elements([]) == {};
  }

  /** The record that comes next, and its owner. */
  lemma ThisRound(l: Lists, w: nat, f: Family, s: Sched, f1: Family, s1: Sched, k: nat)
    requires w < |l.wqs| && w < |s.wq| && Midway(l, w, f, s, f1, s1, k) && OnList(f1, l.wqs[w]) != []
    ensures k < |s.wq[w]| == |OnList(f, l.wqs[w])| && w < |s1.wq| && s1.wq[w] != []
    ensures OnList(f1, l.wqs[w])[0] == OnList(f, l.wqs[w])[k] && s1.wq[w][0] == s.wq[w][k]
  {
    hide OnList, SameLists, WakeAll;
  }

  lemma NextRound(l: Lists, w: nat, f: Family, s: Sched, f1: Family, s1: Sched, f2: Family, k: nat)
    requires w < |l.wqs| && w < |s.wq| && Midway(l, w, f, s, f1, s1, k) && k < |s.wq[w]|
    requires OnList(f2, l.wqs[w]) == OnList(f1, l.wqs[w])[1..]
    requires SameLists(f1, f2, {l.run, l.waiting, l.wqs[w]})
    ensures Midway(l, w, f, s, f2, WakeOne(s1, w), k + 1)
  {
    hide WakeAll, OnList;
    WakeUnfold(s1, w);
    Done(OnList(f, l.wqs[w]), k);
    Done(s.wq[w], k);
  }

  /** One more of the elements is done. */
  lemma Done(all: seq<nat>, k: nat)
    requires k < |all|
    ensures all[..k + 1] == all[..k] + [all[k]] && all[k..][1..] == all[k + 1..]
    ensures Elements(all[..k + 1]) == Elements(all[..k]) + {all[k]}
  {
    assert forall x :: x in all[..k + 1] <==> x in all[..k] || x == all[k];
  }

  lemma AllWoken(l: Lists, w: nat, f: Family, s: Sched, f1: Family, s1: Sched, k: nat)
    requires w < |l.wqs| && w < |s.wq| && Midway(l, w, f, s, f1, s1, k) && OnList(f1, l.wqs[w]) == []
    ensures s1 == WakeAll(s, w) && s1.run == Reverse(s.wq[w]) + s.run
    ensures k == |s.wq[w]| == |OnList(f, l.wqs[w])| && SameLists(f, f1, {l.run, l.waiting, l.wqs[w]})
    ensures s.wq[w][..k] == s.wq[w] && OnList(f, l.wqs[w])[..k] == OnList(f, l.wqs[w])
  {
    hide SameLists, OnList;
    WakeUnfold(s1, w);
    WakeEffect(s, w);
  }

  lemma WakeUnfold(s: Sched, w: nat)
    requires w < |s.wq|
    ensures s.wq[w] == [] ==> WakeAll(s, w) == s
    ensures s.wq[w] != [] ==>
              && |WakeOne(s, w).wq| == |s.wq| && WakeOne(s, w).wq[w] == s.wq[w][1..]
              && WakeAll(s, w) == WakeAll(WakeOne(s, w), w)
  {
  }

  function AllHeads(l: Lists): seq<nat> {
    [l.run, l.waiting, l.dead] + l.wqs
  }

  lemma HeadsPlaced(m: seq<Word>, l: Lists, idle: nat)
    requires HeadsFit(m, {idle}, AllHeads(l)) && InMemory(m, {idle})
    ensures idle + 8 < |m| && NoDup(AllHeads(l))
  {
  }

  lemma AllNamed(l: Lists)
    requires NoDup(AllHeads(l))
    ensures Named(l, Empty(Elements(AllHeads(l))))
  {
    var hs := AllHeads(l);
    assert hs[0] == l.run && hs[1] == l.waiting && hs[2] == l.dead;
    assert forall w :: 0 <= w < |l.wqs| ==> hs[w + 3] == l.wqs[w];
  }

  lemma Booted(m: seq<Word>, l: Lists, idle: nat)
    requires 8 < idle && idle + 8 < |m| && NoDup(AllHeads(l))
    requires Base(m, {idle}, Empty(Elements(AllHeads(l))))
    ensures Represents(m, l, {idle}, Empty(Elements(AllHeads(l))), Boot(idle, StateOf(m[idle + 8]), |l.wqs|))
  {
    hide Base, Elements, AllHeads, EmptyQueues, StateOf;
    NoSleepers(|l.wqs|);
    AllNamed(l);
  }

  class ProcessTable {
    const mem: array<Word>
    const lists: Lists

    /** The addresses of process blocks; `currentTsk` is NULL before the first pick. */
    const idleTsk: nat
    var currentTsk: nat

    /** The list nodes of the processes and wait records in use, the lists they are on, and the
        state that all this represents. */
    ghost var objs: set<nat>
    ghost var rings: Family
    ghost var sched: Sched

    /** The wait records freed so far, in the order of freeing. */
    ghost var freed: seq<nat>

    ghost predicate Rep()
      reads this, mem
    {
      && Represents(mem[..], lists, objs, rings, sched)
      && sched.current == (if currentTsk == NULL then None else Some(currentTsk + 8))
      && sched.idle == idleTsk + 8 && idleTsk != NULL
    }

    ghost predicate Valid()
      reads this, mem
    {
      Rep() && Inv(sched)
    }

    /** The static list heads and process_init, up to the first spawn.  The state word of the idle
        process is what the memory held (process.c:140). */
    constructor (mem: array<Word>, lists: Lists, idleTsk: nat)
      requires idleTsk != NULL && HeadsFit(mem[..], {idleTsk + 8}, AllHeads(lists)) && InMemory(mem[..], {idleTsk + 8})
      modifies mem
      ensures Valid() && this.mem == mem && this.lists == lists && this.idleTsk == idleTsk && freed == []
      ensures objs == {idleTsk + 8} && rings == Empty(Elements(AllHeads(lists)))
      ensures sched == Boot(idleTsk + 8, StateOf(old(mem[..])[idleTsk + 16]), |lists.wqs|)
      ensures Frame(old(mem[..]), mem[..], Elements(AllHeads(lists)), {})
    {
      hide Represents, Base, Frame, Inv, EmptyQueues, StateOf, InMemory, HeadsFit, Elements, AllHeads, Empty;
      HeadsPlaced(mem[..], lists, idleTsk + 8);
      this.mem, this.lists, this.idleTsk := mem, lists, idleTsk;
      currentTsk := NULL;
      objs, rings, freed := {idleTsk + 8}, Empty(Elements(AllHeads(lists))), [];
      sched := Boot(idleTsk + 8, StateOf(mem[idleTsk + 16]), |lists.wqs|);
      InitLists(mem, AllHeads(lists), {idleTsk + 8});
      new;
      BootInv(idleTsk + 8, StateOf(mem[idleTsk + 16]), |lists.wqs|);
      Booted(mem[..], lists, idleTsk + 8);
    }

    /** process_wakeup: from the ring of waiting processes to the head of the run queue. */
    method ProcessWakeup(proc: nat)
      requires Rep() && proc + 8 in sched.waiting && proc + 8 in sched.st
      modifies this`rings, this`sched, mem
      ensures Rep() && sched == Wakeup(old(sched), proc + 8)
      ensures rings == old(rings)[lists.waiting := sched.waiting][lists.run := sched.run]
      ensures Frame(old(mem[..]), mem[..], objs + old(rings).Keys, {proc + 8})
    {
      hide Represents, Base, Without, Frame;
      var p := proc + 8;
      ghost var m, f, s := mem[..], rings, sched;
      ghost var k := Position(s.waiting, p);
      ListsOf(m, lists, objs, f, s);
      Known(m, lists, objs, f, s, p);
      Delete(mem, p, lists.waiting, k, objs, f);
      ghost var m1, f1 := mem[..], f[lists.waiting := Without(f[lists.waiting], k)];
      ghost var s1 := WithList(lists, s, lists.waiting, Without(s.waiting, k));
      ListChanged(m, m1, lists, objs, f, s, lists.waiting, Without(s.waiting, k));
      AddFirst(mem, p, lists.run, objs, f1);
      ghost var m2 := mem[..];
      rings := f1[lists.run := [p] + f1[lists.run]];
      ListChanged(m1, m2, lists, objs, f1, s1, lists.run, [p] + s1.run);
      ghost var s2 := WithList(lists, s1, lists.run, [p] + s1.run);
      Known(m2, lists, objs, rings, s2, p);
      StateWritten(m2, lists, objs, rings, s2, p, RUNNING);
      mem[proc + 16] := RUNNING;
      sched := s2.(st := s2.st[p := Running]);
      assert mem[..] == m2[p + 8 := RUNNING];
      ghost var nodes := objs + f.Keys;
      assert f1.Keys == f.Keys;
      FrameTrans(m, m1, m2, nodes, {}, nodes, {}, nodes, {});
      FrameTrans(m, m2, mem[..], nodes, {p}, nodes, {}, {}, {p});
    }

    /** The first part of pick_new_task: a current process that still runs goes to the end of the
        run queue. */
    method PutBack()
      requires Rep() && (sched.current.Some? ==> sched.current.value in sched.st)
      requires Requeued(sched) ==> Unlisted(rings, currentTsk + 8)
      modifies this`rings, this`sched, mem
      ensures Rep()
      ensures var s := old(sched);
              sched == if Requeued(s) then s.(run := s.run + [currentTsk + 8]) else s
      ensures rings == old(rings)[lists.run := sched.run]
      ensures Frame(old(mem[..]), mem[..], objs + old(rings).Keys, {})
    {
      hide Represents, Base, Frame, Unlisted;
      ghost var m, f, s := mem[..], rings, sched;
      ListsOf(m, lists, objs, f, s);
      FrameRefl(m, objs + f.Keys);
      if currentTsk != NULL {
        Known(m, lists, objs, f, s, currentTsk + 8);
        if mem[currentTsk + 16] == RUNNING {
          AddLast(mem, currentTsk + 8, lists.run, objs, f);
          ListChanged(m, mem[..], lists, objs, f, s, lists.run, s.run + [currentTsk + 8]);
          rings := f[lists.run := s.run + [currentTsk + 8]];
          sched := s.(run := s.run + [currentTsk + 8]);
        }
      }
    }

    /** The rest of it: the head of the run queue, or else the idle process, becomes current. */
    method TakeNext()
      requires Rep() && forall p :: p in sched.run ==> p in sched.st
      modifies this`currentTsk, this`rings, this`sched, mem
      ensures Rep()
      ensures var s := old(sched);
              sched == if s.run == [] then s.(current := Some(s.idle))
                       else s.(current := Some(s.run[0]), run := s.run[1..])
      ensures rings == old(rings)[lists.run := sched.run]
      ensures Frame(old(mem[..]), mem[..], objs + old(rings).Keys, {})
    {
      hide Represents, Base, Frame, Unlisted;
      ghost var m, f, s := mem[..], rings, sched;
      ListsOf(m, lists, objs, f, s);
      var next := PopFirst(mem, lists.run, objs, f);
      if next != NULL {
        ListChanged(m, mem[..], lists, objs, f, s, lists.run, s.run[1..]);
        rings := f[lists.run := s.run[1..]];
        sched := s.(run := s.run[1..]);
        assert next in s.run;
        Known(mem[..], lists, objs, rings, sched, next);
        currentTsk := next - 8;
      } else {
        currentTsk := idleTsk;
      }
      AnyCurrent(mem[..], lists, objs, rings, sched, Some(currentTsk + 8));
      sched := sched.(current := Some(currentTsk + 8));
    }

    /** pick_new_task. */
    method PickNewTask()
      requires Rep() && (sched.current.Some? ==> sched.current.value in sched.st)
      requires Requeued(sched) ==> Unlisted(rings, currentTsk + 8)
      requires forall p :: p in sched.run ==> p in sched.st
      modifies this`currentTsk, this`rings, this`sched, mem
      ensures Rep() && sched == Pick(old(sched))
      ensures rings == old(rings)[lists.run := sched.run]
      ensures Frame(old(mem[..]), mem[..], objs + old(rings).Keys, {})
    {
      hide Represents, Frame, Unlisted;
      ghost var m, f := mem[..], rings;
      ListsOf(m, lists, objs, f, sched);
      PutBack();
      ghost var m1, nodes := mem[..], objs + f.Keys;
      ghost var run := sched.run;
      TakeNext();
      assert f[lists.run := run].Keys == f.Keys;
      FrameTrans(m, m1, mem[..], nodes, {}, nodes, {}, nodes, {});
    }

    /** A switch that the current process did not ask for: the step Preempt. */
    method Preempt()
      requires Valid()
      modifies this`currentTsk, this`rings, this`sched, mem
      ensures Valid() && sched == Pick(old(sched))
      ensures rings == old(rings)[lists.run := sched.run]
      ensures Frame(old(mem[..]), mem[..], objs + old(rings).Keys, {})
    {
      hide Represents, Inv, Frame, Unlisted, Pick;
      if sched.current.Some? {
        CurrentUnlisted(mem[..], lists, objs, rings, sched);
      }
      RunsExist(sched);
      PreemptKeeps(sched);
      PickNewTask();
    }

    /** Puts the current process on another of the global queues, in another state, as
        process_wait and process_finish do. */
    method Leave(head: nat, state: Word)
      requires Rep() && currentTsk != NULL && currentTsk + 8 in sched.st && Unlisted(rings, currentTsk + 8)
      requires ProcessList(lists, head)
      modifies this`rings, this`sched, mem
      ensures Rep() && sched == Left(lists, old(sched), head, currentTsk + 8, state)
      ensures rings == old(rings)[head := QueueAt(lists, sched, head)]
      ensures Frame(old(mem[..]), mem[..], objs + old(rings).Keys, {currentTsk + 8})
    {
      hide Represents, Base, Frame, Unlisted, StateOf;
      var p := currentTsk + 8;
      ghost var m, f, s := mem[..], rings, sched;
      ListsOf(m, lists, objs, f, s);
      Known(m, lists, objs, f, s, p);
      AddFirst(mem, p, head, objs, f);
      ghost var m1, nodes := mem[..], [p] + QueueAt(lists, s, head);
      ListChanged(m, m1, lists, objs, f, s, head, nodes);
      rings := f[head := nodes];
      ghost var s1 := WithList(lists, s, head, nodes);
      Known(m1, lists, objs, rings, s1, p);
      StateWritten(m1, lists, objs, rings, s1, p, state);
      mem[currentTsk + 16] := state;
      assert mem[..] == m1[p + 8 := state];
      sched := s1.(st := s1.st[p := StateOf(state)]);
      FrameTrans(m, m1, mem[..], objs + f.Keys, {p}, objs + f.Keys, {}, {}, {p});
    }

    /** process_wait: the current process goes to the ring of waiting processes, and another one
        becomes current. */
    method ProcessWait()
      requires Rep() && currentTsk != NULL && currentTsk + 8 in sched.st && Unlisted(rings, currentTsk + 8)
      requires forall p :: p in sched.run ==> p in sched.st
      modifies this`rings, this`sched, this`currentTsk, mem
      ensures Rep() && sched == Pick(Left(lists, old(sched), lists.waiting, old(currentTsk) + 8, WAITING))
      ensures rings == old(rings)[lists.waiting := sched.waiting][lists.run := sched.run]
      ensures Frame(old(mem[..]), mem[..], objs + old(rings).Keys, {old(currentTsk) + 8})
    {
      hide Represents, Frame, Unlisted, Pick;
      ghost var m, nodes, p := mem[..], objs + rings.Keys, currentTsk + 8;
      ListsOf(m, lists, objs, rings, sched);
      Leave(lists.waiting, WAITING);
      ghost var m1 := mem[..];
      assert rings.Keys == old(rings).Keys;
      PickNewTask();
      FrameTrans(m, m1, mem[..], nodes, {p}, nodes, {p}, nodes, {});
    }

    /** process_finish: the step Finish. */
    method ProcessFinish()
      requires Valid() && Legal(sched, Finish)
      modifies this`rings, this`sched, this`currentTsk, mem
      ensures Valid() && sched == Step(old(sched), Finish)
      ensures rings == old(rings)[lists.dead := sched.dead][lists.run := sched.run]
      ensures Frame(old(mem[..]), mem[..], objs + old(rings).Keys, {old(currentTsk) + 8})
    {
      hide Represents, Frame, Unlisted, Pick, Inv;
      ghost var m, s, nodes, p := mem[..], sched, objs + rings.Keys, currentTsk + 8;
      CurrentUnlisted(m, lists, objs, rings, s);
      ListsOf(m, lists, objs, rings, s);
      RunsExist(s);
      StepKeeps(s, Finish);
      Leave(lists.dead, FINISHED);
      ghost var m1 := mem[..];
      assert rings.Keys == old(rings).Keys;
      PickNewTask();
      FrameTrans(m, m1, mem[..], nodes, {p}, nodes, {p}, nodes, {});
    }

    /** __waitqueue_wait: the new wait record `rec` for the current process goes to the wait queue,
        and process_wait follows: together, the step Block(w). */
    method WaitqueueWait(w: nat, rec: nat)
      requires Valid() && Legal(sched, Block(w)) && w < |lists.wqs| && Fresh(mem[..], objs, rings.Keys, rec)
      modifies this`objs, this`rings, this`sched, this`currentTsk, mem
      ensures Valid() && sched == Step(old(sched), Block(w)) && objs == old(objs) + {rec}
      ensures SameLists(old(rings), rings, {lists.run, lists.waiting, lists.wqs[w]})
      ensures OnList(rings, lists.wqs[w]) == [rec] + OnList(old(rings), lists.wqs[w])
      ensures Frame(old(mem[..]), mem[..], objs + old(rings).Keys, {rec, old(currentTsk) + 8})
    {
      hide Represents, Frame, Fresh, Unlisted, Pick, Inv, StateOf, OwnedBy;
      ghost var m, s, nodes, p := mem[..], sched, objs + {rec} + rings.Keys, currentTsk + 8;
      CurrentUnlisted(m, lists, objs, rings, s);
      ListsOf(m, lists, objs, rings, s);
      MoreObjects(m, lists, objs, rings, s, rec);
      RunsExist(s);
      StepKeeps(s, Block(w));
      AddRecord(w, rec);
      ghost var m1 := mem[..];
      StillUnlisted(old(rings), rings, lists.wqs[w], rec, p);
      ProcessWait();
      Blocked(lists, s, w);
      FrameTrans(m, m1, mem[..], nodes, {rec, p}, nodes, {rec}, nodes, {p});
    }

    /** A new record for the current process, at the head of a wait queue. */
    method AddRecord(w: nat, rec: nat)
      requires Rep() && currentTsk != NULL && currentTsk + 8 in sched.st
      requires w < |sched.wq| && w < |lists.wqs| && Fresh(mem[..], objs, rings.Keys, rec)
      modifies this`objs, this`rings, this`sched, mem
      ensures Rep() && objs == old(objs) + {rec}
      ensures sched == old(sched).(wq := old(sched).wq[w := [currentTsk + 8] + old(sched).wq[w]])
      ensures rings.Keys == old(rings).Keys
      ensures forall h :: h in rings && h != lists.wqs[w] ==> rings[h] == old(rings)[h]
      ensures lists.wqs[w] in rings && rings[lists.wqs[w]] == [rec] + old(rings)[lists.wqs[w]]
      ensures Frame(old(mem[..]), mem[..], objs + rings.Keys, {rec})
    {
      hide Represents, Base, Frame, Fresh, Unlisted, OwnedBy;
      ghost var m, f, s, p, h := mem[..], rings, sched, currentTsk + 8, lists.wqs[w];
      MoreObjects(m, lists, objs, f, s, rec);
      objs := objs + {rec};
      ListsOf(m, lists, objs, f, s);
      Known(m, lists, objs, f, s, p);
      var proc: Word := currentTsk;
      RecordFilled(m, lists, objs, f, s, rec, proc);
      mem[rec + 8] := proc;
      ghost var m1 := mem[..];
      assert m1 == m[rec + 8 := proc];
      ListsOf(m1, lists, objs, f, s);
      AddFirst(mem, rec, lists.wqs[w], objs, f);
      RecordsNoProcesses(m1, lists, objs, f, s, w);
      OwnerAdded(m1, mem[..], objs, f[h], s.wq[w], rec);
      RecordsChanged(m1, mem[..], lists, objs, f, s, w, [rec] + f[h], [p] + s.wq[w]);
      rings := f[h := [rec] + f[h]];
      sched := s.(wq := s.wq[w := [p] + s.wq[w]]);
      FrameTrans(m, m1, mem[..], objs + f.Keys, {rec}, {}, {rec}, objs + f.Keys, {});
    }

    /** process_spawn, for a new process block at `proc`. */
    method ProcessSpawn(proc: nat)
      requires Valid() && proc != NULL && Fresh(mem[..], objs, rings.Keys, proc + 8)
      modifies this`objs, this`rings, this`sched, mem
      ensures old(Legal(sched, Spawn(proc + 8)))
      ensures Valid() && sched == Step(old(sched), Spawn(proc + 8)) && objs == old(objs) + {proc + 8}
      ensures rings == old(rings)[lists.run := sched.run]
      ensures Frame(old(mem[..]), mem[..], objs + old(rings).Keys, {proc + 8})
    {
      hide Represents, Base, Frame, Fresh, Unlisted, Inv;
      ghost var m, f, s, p := mem[..], rings, sched, proc + 8;
      MoreObjects(m, lists, objs, f, s, p);
      objs := objs + {p};
      ListsOf(m, lists, objs, f, s);
      SpawnKeeps(s, p);
      AddFirst(mem, proc + 8, lists.run, objs, f);
      ghost var m1, s1 := mem[..], WithList(lists, s, lists.run, [p] + s.run);
      ListChanged(m, m1, lists, objs, f, s, lists.run, [p] + s.run);
      rings := f[lists.run := [p] + s.run];
      OnRunOnly(lists, f, p);
      StateWritten(m1, lists, objs, rings, s1, p, RUNNING);
      mem[proc + 16] := RUNNING;
      assert mem[..] == m1[p + 8 := RUNNING];
      sched := s1.(st := s1.st[p := Running]);
      FrameTrans(m, m1, mem[..], objs + f.Keys, {p}, objs + f.Keys, {}, {}, {p});
    }

    /** One round of the idle task: pops the dead queue and frees the process it finds. */
    method ReapOne() returns (dead: nat)
      requires Valid() && Legal(sched, Reap)
      modifies this`objs, this`rings, this`sched, mem
      ensures Valid() && sched == Step(old(sched), Reap)
      ensures old(sched).dead == [] ==> dead == NULL && objs == old(objs) && mem[..] == old(mem[..])
      ensures old(sched).dead != [] ==> dead != NULL && dead + 8 == old(sched).dead[0] && objs == old(objs) - {dead + 8}
      ensures rings == old(rings)[lists.dead := sched.dead]
      ensures Frame(old(mem[..]), mem[..], old(objs) + old(rings).Keys, {})
    {
      hide Represents, Base, Frame, Unlisted, Inv;
      ghost var m, f, s := mem[..], rings, sched;
      ListsOf(m, lists, objs, f, s);
      StepKeeps(s, Reap);
      var node := PopFirst(mem, lists.dead, objs, f);
      if node == NULL {
        return NULL;
      }
      DeadExists(s);
      ghost var m1, s1 := mem[..], WithList(lists, s, lists.dead, s.dead[1..]);
      ListChanged(m, m1, lists, objs, f, s, lists.dead, s.dead[1..]);
      rings := f[lists.dead := s.dead[1..]];
      Known(m1, lists, objs, rings, s1, node);
      ProcessGone(m1, lists, objs, rings, s1, node);
      objs := objs - {node};
      sched := s1.(st := s1.st - {node});
      dead := node - 8;
    }

    /** The first record of a wait queue leaves it and is freed. */
    method FreeFirst(w: nat, rec: nat)
      requires Rep() && w < |sched.wq| && w < |lists.wqs| && OnList(rings, lists.wqs[w]) != []
      requires rec == OnList(rings, lists.wqs[w])[0]
      modifies this`objs, this`rings, this`sched, this`freed, mem
      ensures Rep() && old(sched).wq[w] != [] && sched == old(sched).(wq := old(sched).wq[w := old(sched).wq[w][1..]])
      ensures freed == old(freed) + [rec] && objs == old(objs) - {rec}
      ensures rings == old(rings)[lists.wqs[w] := OnList(old(rings), lists.wqs[w])[1..]]
      ensures Frame(old(mem[..]), mem[..], old(objs) + old(rings).Keys, {})
    {
      hide Represents, Base, Frame, Unlisted, OwnedBy;
      ghost var m, f, s, h := mem[..], rings, sched, lists.wqs[w];
      ListsOf(m, lists, objs, f, s);
      RecordsNoProcesses(m, lists, objs, f, s, w);
      Delete(mem, rec, lists.wqs[w], 0, objs, f);
      WithoutFirst(f[h]);
      FewerOwners(m, mem[..], objs, f[h], s.wq[w]);
      RecordsChanged(m, mem[..], lists, objs, f, s, w, f[h][1..], s.wq[w][1..]);
      rings := f[h := f[h][1..]];
      sched := s.(wq := s.wq[w := s.wq[w][1..]]);
      RecordGone(mem[..], lists, objs, rings, sched, rec);
      objs := objs - {rec};
      freed := freed + [rec];
    }

    /** One round of waitqueue_wakeup: the owner of the first record is woken, and the record leaves
        the wait queue and is freed. */
    method WakeFirst(w: nat, rec: nat)
      requires Valid() && w < |sched.wq| && w < |lists.wqs| && OnList(rings, lists.wqs[w]) != []
      requires rec == OnList(rings, lists.wqs[w])[0]
      modifies this`objs, this`rings, this`sched, this`freed, mem
      ensures Valid() && old(sched).wq[w] != [] && sched == WakeOne(old(sched), w)
      ensures freed == old(freed) + [rec] && objs == old(objs) - {rec} && rings.Keys == old(rings).Keys
      ensures OnList(rings, lists.wqs[w]) == OnList(old(rings), lists.wqs[w])[1..]
      ensures SameLists(old(rings), rings, {lists.run, lists.waiting, lists.wqs[w]})
      ensures Frame(old(mem[..]), mem[..], old(objs) + old(rings).Keys, {old(sched).wq[w][0]})
    {
      hide Represents, Base, Frame, OwnedBy, Inv, Remove;
      ghost var m, f, s, h := mem[..], rings, sched, lists.wqs[w];
      ghost var nodes := objs + f.Keys;
      ListsOf(m, lists, objs, f, s);
      FirstOwner(m, f[h], s.wq[w]);
      OwnerWaits(m, lists, objs, f, s, w);
      WakeOneKeeps(s, w);
      ProcessWakeup(mem[rec + 8]);
      ghost var m1 := mem[..];
      assert rings.Keys == f.Keys;
      FreeFirst(w, rec);
      FrameTrans(m, m1, mem[..], nodes, {s.wq[w][0]}, nodes, {s.wq[w][0]}, nodes, {});
    }

    /** waitqueue_wakeup, list_for_each_safe with a body that deletes and frees the record it is at:
        the step Wake(w). */
    method WaitqueueWakeup(w: nat)
      requires Valid() && w < |sched.wq| && w < |lists.wqs|
      modifies this`objs, this`rings, this`sched, this`freed, mem
      ensures Valid() && sched == WakeAll(old(sched), w)
      ensures sched.run == Reverse(old(sched).wq[w]) + old(sched).run
      ensures freed == old(freed) + OnList(old(rings), lists.wqs[w])
      ensures objs == old(objs) - Elements(OnList(old(rings), lists.wqs[w]))
      ensures SameLists(old(rings), rings, {lists.run, lists.waiting, lists.wqs[w]})
      ensures Frame(old(mem[..]), mem[..], old(objs) + old(rings).Keys, Elements(old(sched).wq[w]))
    {
      hide Represents, Frame, SameLists, OnList, Inv, WakeOne, WakeAll, Elements, Reverse, Midway;
      ghost var m, f, s, h, nodes := mem[..], rings, sched, lists.wqs[w], objs + rings.Keys;
      ghost var all, k := OnList(f, h), 0;
      StartWaking(m, lists, objs, f, s, w);
      QueueLinks(m, lists, objs, f, s, w);
      var pos: nat := mem[lists.wqs[w]];
      var next: nat := mem[pos];
      while pos != lists.wqs[w]
        invariant k <= |all| == |s.wq[w]| && Valid() && Midway(lists, w, f, s, rings, sched, k)
        invariant pos == At(h, OnList(rings, h), 1) && (OnList(rings, h) != [] ==> next == At(h, OnList(rings, h), 2))
        invariant freed == old(freed) + all[..k] && objs == old(objs) - Elements(all[..k]) && rings.Keys == f.Keys
        invariant Frame(m, mem[..], nodes, Elements(s.wq[w][..k]))
        decreases |all| - k
      {
        ghost var m1, f1, s1, nodes1 := mem[..], rings, sched, objs + rings.Keys;
        QueueLinks(m1, lists, objs, f1, s1, w);
        ThisRound(lists, w, f, s, f1, s1, k);
        Done(all, k);
        Done(s.wq[w], k);
        WakeFirst(w, pos);
        NextRound(lists, w, f, s, f1, s1, rings, k);
        FrameTrans(m, m1, mem[..], nodes, Elements(s.wq[w][..k + 1]),
                   nodes, Elements(s.wq[w][..k]), nodes1, {s.wq[w][k]});
        k := k + 1;
        QueueLinks(mem[..], lists, objs, rings, sched, w);
        pos := next;
        next := mem[pos];
      }
      QueueLinks(mem[..], lists, objs, rings, sched, w);
      AllWoken(lists, w, f, s, rings, sched, k);
    }
  }
}
