/** Work queues with sleeping consumers (wait.h, ethernet.c, ipv4.c, protocol.c): no wakeup is
lost.

Work queue `w` belongs to wait queue `w`.  A producer puts an item at the head of a work queue and
then wakes the wait queue: ether_tx and ip4_xmit_packet in two steps, packet_inject in one.  A
consumer checks its work queue and sleeps in one step, and pops the head. */
module WorkQueues {
  import opened Scheduling
  import opened Sequences

  type Item = nat

  /** `pending[w]` counts the producers between their enqueue and their wakeup.  `put` and `taken`
      are all the items that ever entered and left the queues. */
  datatype Sys = Sys(sched: Sched, work: seq<seq<Item>>, pending: seq<nat>, put: multiset<Item>, taken: multiset<Item>)

  datatype Action =
    | Enqueue(w: nat, x: Item)
    | Notify(w: nat)
    | Inject(w: nat, x: Item)
    | Check(w: nat)
    | Pop(w: nat)
    | Other(e: Event)

  /** There may be wait queues without a work queue, such as those of arp.c, tcp.c and udp.c. */
  predicate Shaped(t: Sys) {
    |t.work| == |t.pending| <= |t.sched.wq|
  }

  /** On the wait queue of a work queue, processes sleep only in the check-then-sleep loop.  On any
      other they may sleep at any time, and any wait queue may be woken at any time. */
  predicate Possible(t: Sys, a: Action)
    requires Shaped(t)
  {
    match a
    case Enqueue(w, _) => w < |t.work|
    case Notify(w) => w < |t.work| && t.pending[w] > 0
    case Inject(w, _) => w < |t.work|
    case Check(w) => w < |t.work| && Busy(t.sched)
    case Pop(w) => w < |t.work|
    case Other(e) => Legal(t.sched, e) && (e.Block? ==> e.w >= |t.work|)
  }

  function Act(t: Sys, a: Action): (t': Sys)
    requires Shaped(t) && Possible(t, a)
  {
    match a
    case Enqueue(w, x) =>
      t.(work := t.work[w := [x] + t.work[w]], pending := t.pending[w := t.pending[w] + 1], put := t.put + multiset{x})
    case Notify(w) =>
      t.(sched := WakeAll(t.sched, w), pending := t.pending[w := t.pending[w] - 1])
    case Inject(w, x) =>
      t.(work := t.work[w := [x] + t.work[w]], sched := WakeAll(t.sched, w), put := t.put + multiset{x})
    case Check(w) =>
      if t.work[w] != [] then t else t.(sched := Step(t.sched, Block(w)))
    case Pop(w) =>
      if t.work[w] == [] then t
      else t.(work := t.work[w := t.work[w][1..]], taken := t.taken + multiset{t.work[w][0]})
    case Other(e) => t.(sched := Step(t.sched, e))
  }

  /** Whenever somebody sleeps on wait queue `w`, its work queue is empty, or some producer is
      still to send the wakeup. */
  ghost predicate NoLostWakeup(t: Sys) {
    && Shaped(t)
    && forall w :: 0 <= w < |t.work| && t.sched.wq[w] != [] ==> t.work[w] == [] || t.pending[w] > 0
  }

  lemma OtherQueues(s: Sched, e: Event)
    requires Legal(s, e) && !e.Block? && !e.Wake?
    ensures Step(s, e).wq == s.wq
  {
  }

  lemma BlockQueues(s: Sched, w: nat)
    requires Legal(s, Block(w))
    ensures Step(s, Block(w)).wq == s.wq[w := [s.current.value] + s.wq[w]]
  {
  }

  lemma ActKeeps(t: Sys, a: Action)
    requires NoLostWakeup(t) && Possible(t, a)
    ensures NoLostWakeup(Act(t, a))
  {
    match a
    case Notify(w) => WakeEffect(t.sched, w);
    case Inject(w, _) => WakeEffect(t.sched, w);
    case Check(w) =>
      if t.work[w] == [] {
        BlockQueues(t.sched, w);
      }
    case Other(e) =>
      match e {
        case Block(w) => BlockQueues(t.sched, w);
        case Wake(w) => WakeEffect(t.sched, w);
        case _ => OtherQueues(t.sched, e);
      }
    case _ =>
  }

  /** A system at boot: any work queues, with no producer under way. */
  function Start(idle: Pid, garbage: ProcState, queues: nat, work: seq<seq<Item>>): Sys {
    Sys(Boot(idle, garbage, queues), work, seq(|work|, _ => 0), InQueues(work), multiset{})
  }

  lemma StartSafe(idle: Pid, garbage: ProcState, queues: nat, work: seq<seq<Item>>)
    requires |work| <= queues
    ensures NoLostWakeup(Start(idle, garbage, queues, work)) && Conserved(Start(idle, garbage, queues, work))
    ensures Inv(Start(idle, garbage, queues, work).sched)
  {
    NoSleepers(queues);
    BootInv(idle, garbage, queues);
  }

  ghost predicate PossibleRun(t: Sys, acts: seq<Action>)
    decreases |acts|
  {
    acts == [] || (Shaped(t) && Possible(t, acts[0]) && PossibleRun(Act(t, acts[0]), acts[1..]))
  }

  ghost function RunActs(t: Sys, acts: seq<Action>): Sys
    requires PossibleRun(t, acts)
    decreases |acts|
  {
    if acts == [] then t else RunActs(Act(t, acts[0]), acts[1..])
  }

  /** No run loses a wakeup. */
  lemma {:induction false} RunNoLostWakeup(t: Sys, acts: seq<Action>)
    requires NoLostWakeup(t) && PossibleRun(t, acts)
    ensures NoLostWakeup(RunActs(t, acts))
    decreases |acts|
  {
    if acts != [] {
      ActKeeps(t, acts[0]);
      RunNoLostWakeup(Act(t, acts[0]), acts[1..]);
    }
  }

  lemma {:induction false} RunKeepsPlaces(t: Sys, acts: seq<Action>)
    requires PossibleRun(t, acts) && Inv(t.sched)
    ensures Inv(RunActs(t, acts).sched)
    decreases |acts|
  {
    hide Inv, Act;
    if acts != [] {
      ActKeepsPlaces(t, acts[0]);
      RunKeepsPlaces(Act(t, acts[0]), acts[1..]);
    }
  }

  /** In every run from boot: every process is in exactly one place; whenever somebody sleeps on the
      wait queue of a work queue, that is empty or some producer is still to send the wakeup; and
      every item is there or was taken. */
  lemma Reachable(idle: Pid, garbage: ProcState, queues: nat, work: seq<seq<Item>>, acts: seq<Action>)
    requires |work| <= queues && PossibleRun(Start(idle, garbage, queues, work), acts)
    ensures NoLostWakeup(RunActs(Start(idle, garbage, queues, work), acts))
    ensures Conserved(RunActs(Start(idle, garbage, queues, work), acts))
    ensures Inv(RunActs(Start(idle, garbage, queues, work), acts).sched)
  {
    hide NoLostWakeup, Start, Conserved, Inv;
    StartSafe(idle, garbage, queues, work);
    RunKeepsPlaces(Start(idle, garbage, queues, work), acts);
    RunNoLostWakeup(Start(idle, garbage, queues, work), acts);
    RunConserves(Start(idle, garbage, queues, work), acts);
  }

  // ---------------------------------------------------------------------------------------
  // Who is under way
  // ---------------------------------------------------------------------------------------

  /** How many producers of the two-step kind have put an item on queue `w`. */
  function Enqueues(acts: seq<Action>, w: nat): nat {
    if acts == [] then 0 else (if acts[0].Enqueue? && acts[0].w == w then 1 else 0) + Enqueues(acts[1..], w)
  }

  /** How many of them have woken its wait queue, and so returned. */
  function Notifies(acts: seq<Action>, w: nat): nat {
    if acts == [] then 0 else (if acts[0].Notify? && acts[0].w == w then 1 else 0) + Notifies(acts[1..], w)
  }

  /** `pending` counts exactly the producers that are between the two steps. */
  lemma {:induction false} PendingCounts(t: Sys, acts: seq<Action>, w: nat)
    requires PossibleRun(t, acts) && Shaped(t) && w < |t.work|
    ensures var t' := RunActs(t, acts);
            |t'.pending| == |t.pending| && t'.pending[w] + Notifies(acts, w) == t.pending[w] + Enqueues(acts, w)
    decreases |acts|
  {
    if acts != [] {
      ActShape(t, acts[0]);
      PendingCounts(Act(t, acts[0]), acts[1..], w);
    }
  }

  /** When every producer of `w` has returned, a sleeping consumer means an empty work queue. */
  lemma AllReturned(idle: Pid, garbage: ProcState, queues: nat, work: seq<seq<Item>>, acts: seq<Action>, w: nat)
    requires w < |work| <= queues && PossibleRun(Start(idle, garbage, queues, work), acts)
    requires Enqueues(acts, w) == Notifies(acts, w)
    ensures var t := RunActs(Start(idle, garbage, queues, work), acts);
            |t.work| == |work| <= |t.sched.wq| && (t.sched.wq[w] != [] ==> t.work[w] == [])
  {
    var t := Start(idle, garbage, queues, work);
    StartSafe(idle, garbage, queues, work);
    RunNoLostWakeup(t, acts);
    PendingCounts(t, acts, w);
  }

  /** An action leaves the work queues and counters of other queues alone. */
  lemma ActShape(t: Sys, a: Action)
    requires Shaped(t) && Possible(t, a)
    ensures Shaped(Act(t, a)) && |Act(t, a).work| == |t.work|
    ensures forall v :: 0 <= v < |t.work| && (a.Other? || v != a.w) ==>
              Act(t, a).work[v] == t.work[v] && Act(t, a).pending[v] == t.pending[v]
  {
    match a
    case Notify(w) => WakeEffect(t.sched, w);
    case Inject(w, _) => WakeEffect(t.sched, w);
    case Check(w) =>
      if t.work[w] == [] {
        BlockQueues(t.sched, w);
      }
    case Other(e) =>
      match e {
        case Block(w) => BlockQueues(t.sched, w);
        case Wake(w) => WakeEffect(t.sched, w);
        case _ => OtherQueues(t.sched, e);
      }
    case _ =>
  }

  /** What an action is to the scheduler. */
  function EventOf(t: Sys, a: Action): Option<Event>
    requires Shaped(t) && Possible(t, a)
  {
    match a
    case Notify(w) => Some(Wake(w))
    case Inject(w, _) => Some(Wake(w))
    case Check(w) => if t.work[w] == [] then Some(Block(w)) else None
    case Other(e) => Some(e)
    case _ => None
  }

  /** Producers and consumers act on the scheduler by its own steps only, so that all its laws hold
      for them. */
  lemma ActIsStep(t: Sys, a: Action)
    requires Shaped(t) && Possible(t, a)
    ensures EventOf(t, a) == None ==> Act(t, a).sched == t.sched
    ensures EventOf(t, a).Some? ==>
              Legal(t.sched, EventOf(t, a).value) && Act(t, a).sched == Step(t.sched, EventOf(t, a).value)
  {
  }

  /** A producer that has put its item on the queue can wake the consumers, and every step of the
      scheduler is possible but sleeping on a work queue's wait queue without checking. */
  lemma NothingElseRuledOut(t: Sys, w: nat, x: Item, e: Event)
    requires Shaped(t)
    ensures w < |t.work| ==> Possible(t, Enqueue(w, x)) && Possible(t, Inject(w, x)) && Possible(t, Pop(w))
    ensures w < |t.work| ==> var t' := Act(t, Enqueue(w, x)); Shaped(t') && Possible(t', Notify(w))
    ensures w < |t.work| && Legal(t.sched, Block(w)) ==> Possible(t, Check(w)) && !Possible(t, Other(Block(w)))
    ensures Legal(t.sched, e) && !(e.Block? && e.w < |t.work|) ==> Possible(t, Other(e))
  {
  }

  /** A consumer that checks its work queue goes to sleep exactly when that is empty, on its own wait
      queue; otherwise it goes on. */
  lemma CheckSleeps(t: Sys, w: nat)
    requires Shaped(t) && Possible(t, Check(w)) && Inv(t.sched)
    ensures var p, t' := t.sched.current.value, Act(t, Check(w));
            && (p in t'.sched.waiting <==> t.work[w] == [])
            && (t.work[w] == [] ==> p in t'.sched.wq[w] && t'.sched.current != Some(p))
            && (t.work[w] != [] ==> t' == t)
            && t'.work == t.work
  {
    var p := t.sched.current.value;
    CurrentAlone(t.sched);
    if t.work[w] == [] {
      var s := Step(t.sched, Block(w));
      StepKeeps(t.sched, Block(w));
      BlockQueues(t.sched, w);
      assert p in s.waiting && s.st[p] == Waiting;
      OnePlace(s, p);
    }
  }

  /** Items come off a queue in the opposite order: what was put on last is taken first. */
  lemma LastInFirstOut(t: Sys, w: nat, x: Item)
    requires Shaped(t) && w < |t.work|
    ensures Act(Act(t, Enqueue(w, x)), Pop(w)) ==
            t.(pending := t.pending[w := t.pending[w] + 1], put := t.put + multiset{x}, taken := t.taken + multiset{x})
    ensures Act(t, Inject(w, x)).work == Act(t, Enqueue(w, x)).work && Act(t, Inject(w, x)).pending == t.pending
    ensures t.work[w] == [] ==> Act(t, Pop(w)) == t
  {
    assert t.work[w := [x] + t.work[w]][w := ([x] + t.work[w])[1..]] == t.work;
  }

  function Items(acts: seq<Action>): multiset<Item> {
    if acts == [] then multiset{}
    else (if acts[0].Enqueue? || acts[0].Inject? then multiset{acts[0].x} else multiset{}) + Items(acts[1..])
  }

  /** What was ever put on the queues is what the producers put there. */
  lemma {:induction false} PutCounts(t: Sys, acts: seq<Action>)
    requires PossibleRun(t, acts)
    ensures RunActs(t, acts).put == t.put + Items(acts)
    decreases |acts|
  {
    if acts != [] {
      PutCounts(Act(t, acts[0]), acts[1..]);
    }
  }

  /** The scheduler's own invariant goes on holding underneath. */
  lemma ActKeepsPlaces(t: Sys, a: Action)
    requires Shaped(t) && Possible(t, a) && Inv(t.sched)
    ensures Inv(Act(t, a).sched)
  {
    hide Inv;
    match a
    case Notify(w) => WakeKeeps(t.sched, w);
    case Inject(w, _) => WakeKeeps(t.sched, w);
    case Check(w) => StepKeeps(t.sched, Block(w));
    case Other(e) => StepKeeps(t.sched, e);
    case _ =>
  }

  /** No producer of `w` uses the two-step way. */
  predicate OnlyInjects(acts: seq<Action>, w: nat) {
    forall i :: 0 <= i < |acts| ==> !(acts[i].Enqueue? && acts[i].w == w)
  }

  lemma {:induction false} PendingStaysZero(t: Sys, acts: seq<Action>, w: nat)
    requires NoLostWakeup(t) && PossibleRun(t, acts) && OnlyInjects(acts, w)
    requires w < |t.work| && t.pending[w] == 0
    ensures var t' := RunActs(t, acts);
            NoLostWakeup(t') && w < |t'.work| && t'.pending[w] == 0
    decreases |acts|
  {
    if acts != [] {
      ActKeeps(t, acts[0]);
      assert !(acts[0].Enqueue? && acts[0].w == w);
      assert OnlyInjects(acts[1..], w) by {
        assert forall i :: 0 <= i < |acts[1..]| ==> acts[1..][i] == acts[i + 1];
      }
      PendingStaysZero(Act(t, acts[0]), acts[1..], w);
    }
  }

  /** For a queue that is only fed by packet_inject, a sleeping consumer means an empty queue. */
  lemma InjectedQueue(t: Sys, acts: seq<Action>, w: nat)
    requires NoLostWakeup(t) && PossibleRun(t, acts) && OnlyInjects(acts, w)
    requires w < |t.work| && t.pending[w] == 0
    ensures var t' := RunActs(t, acts);
            w < |t'.work| && Shaped(t') && (t'.sched.wq[w] != [] ==> t'.work[w] == [])
  {
    PendingStaysZero(t, acts, w);
  }

  // ---------------------------------------------------------------------------------------
  // Nothing is lost or duplicated
  // ---------------------------------------------------------------------------------------

  function InQueues(work: seq<seq<Item>>): multiset<Item> {
    Records(work)
  }

  ghost predicate Conserved(t: Sys) {
    t.put == InQueues(t.work) + t.taken
  }

  lemma ActConserves(t: Sys, a: Action)
    requires Shaped(t) && Possible(t, a) && Conserved(t)
    ensures Conserved(Act(t, a))
  {
    match a
    case Enqueue(w, x) => RecordsPush(t.work, w, x);
    case Inject(w, x) => RecordsPush(t.work, w, x);
    case Pop(w) =>
      if t.work[w] != [] {
        RecordsPop(t.work, w);
      }
    case _ =>
  }

  /** Every item put on a queue is on it still or was taken once. */
  lemma {:induction false} RunConserves(t: Sys, acts: seq<Action>)
    requires PossibleRun(t, acts) && Conserved(t)
    ensures Conserved(RunActs(t, acts))
    decreases |acts|
  {
    if acts != [] {
      ActConserves(t, acts[0]);
      RunConserves(Act(t, acts[0]), acts[1..]);
    }
  }

  // ---------------------------------------------------------------------------------------
  // A notified consumer runs
  // ---------------------------------------------------------------------------------------

  lemma {:induction false} ReverseHas(xs: seq<Pid>, p: Pid) returns (k: nat)
    requires p in xs
    ensures k < |xs| && Reverse(xs)[k] == p
  {
    if xs[0] == p {
      k := |xs| - 1;
    } else {
      k := ReverseHas(xs[1..], p);
    }
  }

  /** A consumer asleep when its wait queue is notified becomes current after at most as many picks
      as there were sleepers, plus the head insertions that come afterwards. */
  lemma NotifiedRuns(t: Sys, w: nat, p: Pid, es: seq<Event>) returns (i: nat)
    requires Shaped(t) && Possible(t, Notify(w)) && p in t.sched.wq[w]
    requires var s := Act(t, Notify(w)).sched;
             LegalRun(s, es) && Picks(es) >= |t.sched.wq[w]| + Inserted(s, es)
    ensures var s := Act(t, Notify(w)).sched;
            && i <= |es| && LegalRun(s, es[..i]) && Run(s, es[..i]).current == Some(p)
            && Picks(es[..i]) <= |t.sched.wq[w]| + Inserted(s, es[..i])
  {
    WakeEffect(t.sched, w);
    var k := ReverseHas(t.sched.wq[w], p);
    var s := Act(t, Notify(w)).sched;
    assert s.run[k] == p;
    i := BoundedBypass(s, es, k);
  }
}
