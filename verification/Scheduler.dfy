/** Processes, the run queue and wait queues (process.c, wait.c), as steps on one state.

A region with interrupts off is one step.  Marking the current process WAITING or FINISHED and
switching away from it is one step too: reschedule() turns interrupts on before it asks for the
switch (process.c:19-27), and a wakeup in between is outside this model. */
module Scheduling {
  import opened Sequences

  type Pid = nat

  datatype ProcState = Running | Waiting | Finished

  /** `run`, `waiting` and `dead` are the three global queues from head to tail, `wq` the wait
      queues, each as the processes of its wait records from head to tail.  `st` gives the state
      of every process that exists, the idle process included. */
  datatype Sched = Sched(
    current: Option<Pid>, idle: Pid,
    run: seq<Pid>, waiting: seq<Pid>, dead: seq<Pid>,
    st: map<Pid, ProcState>, wq: seq<seq<Pid>>)

  // ---------------------------------------------------------------------------------------
  // The steps
  // ---------------------------------------------------------------------------------------

  function Reverse(xs: seq<Pid>): (r: seq<Pid>)
    ensures |r| == |xs|
  {
    if xs == [] then [] else Reverse(xs[1..]) + [xs[0]]
  }

  /** Whether pick_new_task puts the current process back on the run queue. */
  predicate Requeued(s: Sched) {
    s.current.Some? && s.current.value in s.st && s.st[s.current.value] == Running
  }

  /** pick_new_task. */
  function Pick(s: Sched): (r: Sched)
    ensures r.st == s.st && r.idle == s.idle && r.wq == s.wq && r.waiting == s.waiting && r.dead == s.dead
  {
    var run := if Requeued(s) then s.run + [s.current.value] else s.run;
    if run == [] then s.(current := Some(s.idle), run := [])
    else s.(current := Some(run[0]), run := run[1..])
  }

  /** process_wakeup. */
  function Wakeup(s: Sched, p: Pid): Sched {
    s.(waiting := Remove(s.waiting, p), run := [p] + s.run, st := s.st[p := Running])
  }

  /** waitqueue_wakeup: from the head of the wait queue, one record after the other. */
  function WakeAll(s: Sched, w: nat): Sched
    requires w < |s.wq|
    decreases |s.wq[w]|
  {
    if s.wq[w] == [] then s
    else WakeAll(Wakeup(s, s.wq[w][0]).(wq := s.wq[w := s.wq[w][1..]]), w)
  }

  datatype Event =
    | Spawn(p: Pid)
    | Block(w: nat)
    | Wake(w: nat)
    | Finish
    | Preempt
    | Reap

  /** The process that runs is not the idle process. */
  predicate Busy(s: Sched) {
    s.current.Some? && s.current.value != s.idle
  }

  /** What can happen in a state.  The idle process neither blocks nor finishes, and it alone
      reaps; a new process is none that exists. */
  predicate Legal(s: Sched, e: Event) {
    match e
    case Spawn(p) => p !in s.st
    case Block(w) => Busy(s) && w < |s.wq|
    case Wake(w) => w < |s.wq|
    case Finish => Busy(s)
    case Preempt => true
    case Reap => s.current == Some(s.idle)
  }

  function Step(s: Sched, e: Event): Sched
    requires Legal(s, e)
  {
    match e
    case Spawn(p) => s.(run := [p] + s.run, st := s.st[p := Running])
    case Block(w) =>
      var p := s.current.value;
      Pick(s.(wq := s.wq[w := [p] + s.wq[w]], waiting := [p] + s.waiting, st := s.st[p := Waiting]))
    case Wake(w) => WakeAll(s, w)
    case Finish =>
      var p := s.current.value;
      Pick(s.(dead := [p] + s.dead, st := s.st[p := Finished]))
    case Preempt => Pick(s)
    case Reap => if s.dead == [] then s else s.(dead := s.dead[1..], st := s.st - {s.dead[0]})
  }

  /** The step `e` where it is legal. */
  function Next(s: Sched, e: Event): Sched {
    if Legal(s, e) then Step(s, e) else s
  }

  predicate LegalRun(s: Sched, es: seq<Event>)
    decreases |es|
  {
    es == [] || (Legal(s, es[0]) && LegalRun(Step(s, es[0]), es[1..]))
  }

  function Run(s: Sched, es: seq<Event>): Sched
    requires LegalRun(s, es)
    decreases |es|
  {
    if es == [] then s else Run(Step(s, es[0]), es[1..])
  }

  function EmptyQueues(n: nat): seq<seq<Pid>> {
    if n == 0 then [] else [[]] + EmptyQueues(n - 1)
  }

  /** Before the first process is spawned: no process is current, and the idle process exists
      with whatever its state word holds, because it is never initialised (process.c:140). */
  function Boot(idle: Pid, garbage: ProcState, queues: nat): Sched {
    Sched(None, idle, [], [], [], map[idle := garbage], EmptyQueues(queues))
  }

  // ---------------------------------------------------------------------------------------
  // Every process is in exactly one place
  // ---------------------------------------------------------------------------------------

  /** All wait records. */
  function Records(wq: seq<seq<Pid>>): multiset<Pid> {
    if wq == [] then multiset{} else multiset(wq[0]) + Records(wq[1..])
  }

  function Current(s: Sched): multiset<Pid> {
    if s.current.Some? then multiset{s.current.value} else multiset{}
  }

  /** The places where a process can be, with multiplicity. */
  function Places(s: Sched): multiset<Pid> {
    Current(s) + multiset(s.run) + multiset(s.waiting) + multiset(s.dead)
  }

  /** Every process but the idle one is in exactly one of those places, and nothing else is. */
  ghost predicate Placed(places: multiset<Pid>, existing: set<Pid>, idle: Pid) {
    && idle in existing
    && (forall p :: p in existing && p != idle ==> places[p] == 1)
    && (forall p :: p in places ==> p in existing)
    && places[idle] <= 1
  }

  /** The place a process is in agrees with its state. */
  ghost predicate Labelled(s: Sched) {
    && (forall p :: p in s.run ==> p in s.st && s.st[p] == Running)
    && (forall p :: p in s.waiting ==> p in s.st && s.st[p] == Waiting && p != s.idle)
    && (forall p :: p in s.dead ==> p in s.st && s.st[p] == Finished && p != s.idle)
    && (Busy(s) ==> s.current.value in s.st && s.st[s.current.value] == Running)
  }

  ghost predicate Inv(s: Sched) {
    && Placed(Places(s), s.st.Keys, s.idle)
    && Labelled(s)
    && Records(s.wq) == multiset(s.waiting)
  }

  lemma HeadTail(xs: seq<Pid>)
    requires xs != []
    ensures multiset(xs) == multiset{xs[0]} + multiset(xs[1..])
  {
    assert xs == [xs[0]] + xs[1..];
  }

  lemma DropBag(xs: seq<Pid>, p: Pid)
    ensures multiset(Remove(xs, p)) == multiset(xs) - multiset{p}
  {
    hide Position;
    var k := Position(xs, p);
    if k < |xs| {
      assert xs == xs[..k] + ([p] + xs[k + 1..]);
      assert multiset(Without(xs, k)) == multiset(xs[..k]) + multiset(xs[k + 1..]);
      assert multiset(xs) == multiset(xs[..k]) + (multiset{p} + multiset(xs[k + 1..]));
    } else {
      assert p !in multiset(xs);
    }
  }

  lemma BagAdd(a: multiset<Pid>, b: multiset<Pid>, c: multiset<Pid>, d: multiset<Pid>, e: multiset<Pid>)
    requires b + c == d + e
    ensures a + b + c == a + d + e
  {
    forall p
      ensures (a + b + c)[p] == (a + d + e)[p]
    {
      assert (b + c)[p] == (d + e)[p];
    }
  }

  lemma {:induction false} RecordsUpdate(wq: seq<seq<Pid>>, w: nat, q: seq<Pid>)
    requires w < |wq|
    ensures Records(wq[w := q]) + multiset(wq[w]) == Records(wq) + multiset(q)
  {
    if w > 0 {
      RecordsUpdate(wq[1..], w - 1, q);
      assert wq[w := q][1..] == wq[1..][w - 1 := q];
      assert wq[1..][w - 1] == wq[w];
      BagAdd(multiset(wq[0]), Records(wq[1..][w - 1 := q]), multiset(wq[w]), Records(wq[1..]), multiset(q));
    } else {
      assert wq[0 := q][1..] == wq[1..];
    }
  }

  lemma RecordsPush(wq: seq<seq<Pid>>, w: nat, p: Pid)
    requires w < |wq|
    ensures Records(wq[w := [p] + wq[w]]) == Records(wq) + multiset{p}
  {
    RecordsUpdate(wq, w, [p] + wq[w]);
    assert multiset([p] + wq[w]) == multiset{p} + multiset(wq[w]);
    BagCancel(Records(wq[w := [p] + wq[w]]), multiset(wq[w]), Records(wq) + multiset{p});
  }

  lemma RecordsPop(wq: seq<seq<Pid>>, w: nat)
    requires w < |wq| && wq[w] != []
    ensures Records(wq) == Records(wq[w := wq[w][1..]]) + multiset{wq[w][0]}
  {
    RecordsUpdate(wq, w, wq[w][1..]);
    HeadTail(wq[w]);
    BagCancel(Records(wq), multiset(wq[w][1..]), Records(wq[w := wq[w][1..]]) + multiset{wq[w][0]});
  }

  lemma BagCancel(a: multiset<Pid>, b: multiset<Pid>, c: multiset<Pid>)
    requires a + b == c + b
    ensures a == c
  {
    forall p
      ensures a[p] == c[p]
    {
      assert (a + b)[p] == (c + b)[p];
    }
  }

  lemma {:induction false} RecordsHas(wq: seq<seq<Pid>>, w: nat)
    requires w < |wq|
    ensures multiset(wq[w]) <= Records(wq)
  {
    if w > 0 {
      RecordsHas(wq[1..], w - 1);
      assert wq[1..][w - 1] == wq[w];
    }
    assert Records(wq) == multiset(wq[0]) + Records(wq[1..]);
  }

  /** Picking moves the current process to the run queue if it still runs, and the head of the run
      queue, or else the idle process, to the processor. */
  lemma PickPlaces(s: Sched)
    ensures Requeued(s) ==> Places(Pick(s)) == Places(s)
    ensures !Requeued(s) && s.run != [] ==> Places(Pick(s)) == Places(s) - Current(s)
    ensures !Requeued(s) && s.run == [] ==> Places(Pick(s)) == Places(s) - Current(s) + multiset{s.idle}
  {
    if Requeued(s) {
      PickRequeued(s);
    } else if s.run != [] {
      HeadTail(s.run);
    }
  }

  lemma PickRequeued(s: Sched)
    requires Requeued(s)
    ensures Places(Pick(s)) == Places(s)
  {
    var run := s.run + [s.current.value];
    HeadTail(run);
    assert Current(Pick(s)) + multiset(Pick(s).run) == multiset(run);
    assert multiset(run) == Current(s) + multiset(s.run);
  }

  /** Picking keeps the labels when the process it takes off the processor is labelled. */
  lemma PickLabels(s: Sched)
    requires Labelled(s.(current := None))
    ensures Labelled(Pick(s))
  {
    var run := if Requeued(s) then s.run + [s.current.value] else s.run;
    assert forall p :: p in run ==> p in s.run || (Requeued(s) && p == s.current.value);
    if run != [] {
      assert run[0] in run;
      assert forall p :: p in run[1..] ==> p in run;
    }
  }

  /** Only the idle process moved. */
  lemma IdleMoved(places: multiset<Pid>, places': multiset<Pid>, existing: set<Pid>, idle: Pid)
    requires Placed(places, existing, idle)
    requires forall p :: p != idle ==> places'[p] == places[p]
    requires places'[idle] <= 1
    ensures Placed(places', existing, idle)
  {
    forall p | p in places'
      ensures p in existing
    {
      assert p != idle ==> p in places;
    }
  }

  lemma IdlePlaces(s: Sched)
    requires Labelled(s)
    ensures Places(s)[s.idle] == Current(s)[s.idle] + multiset(s.run)[s.idle]
    ensures !Requeued(s) ==> Current(s) == multiset{} || Current(s) == multiset{s.idle}
  {
    assert s.idle !in s.waiting && s.idle !in s.dead;
  }

  lemma PreemptKeeps(s: Sched)
    requires Inv(s)
    ensures Inv(Pick(s))
  {
    hide Places, Records, Requeued, Pick;
    PickPlaces(s);
    PickLabels(s);
    if !Requeued(s) {
      NotRequeuedPlaces(s);
      IdleMoved(Places(s), Places(Pick(s)), s.st.Keys, s.idle);
    }
  }

  lemma NotRequeuedPlaces(s: Sched)
    requires Placed(Places(s), s.st.Keys, s.idle) && Labelled(s) && !Requeued(s)
    ensures forall p :: p != s.idle ==> Places(Pick(s))[p] == Places(s)[p]
    ensures Places(Pick(s))[s.idle] <= 1
  {
    hide Places, Labelled, Requeued, Pick;
    PickPlaces(s);
    IdlePlaces(s);
  }

  /** The current process, marked not running and put on one of the other queues, leaves the
      processor. */
  lemma LeaveKeeps(s: Sched, s1: Sched)
    requires Inv(s) && Busy(s)
    requires s1.idle == s.idle && s1.current == s.current && s1.run == s.run && s1.st.Keys == s.st.Keys
    requires !Requeued(s1) && Labelled(s1.(current := None))
    requires Places(s1) == Places(s) + Current(s)
    requires Records(s1.wq) == multiset(s1.waiting)
    ensures Inv(Pick(s1))
  {
    hide Places, Labelled, Records, Pick, Requeued, Placed;
    PickPlaces(s1);
    PickLabels(s1);
    IdlePlaces(s);
    assert Current(s1) == Current(s) && Current(s)[s.idle] == 0;
    LeaveBags(Places(s), Current(s));
    if s.run == [] {
      IdleMoved(Places(s), Places(Pick(s1)), s.st.Keys, s.idle);
    }
  }

  lemma LeaveBags(a: multiset<Pid>, c: multiset<Pid>)
    ensures a + c - c == a
  {
  }

  lemma BlockKeeps(s: Sched, w: nat)
    requires Inv(s) && Legal(s, Block(w))
    ensures Inv(Step(s, Block(w)))
  {
    hide Records, Pick;
    var p := s.current.value;
    var s1 := s.(wq := s.wq[w := [p] + s.wq[w]], waiting := [p] + s.waiting, st := s.st[p := Waiting]);
    CurrentAlone(s);
    RecordsPush(s.wq, w, p);
    assert multiset([p] + s.waiting) == multiset{p} + multiset(s.waiting);
    assert s1.st.Keys == s.st.Keys;
    LeaveKeeps(s, s1);
  }

  /** The current process is on no queue. */
  lemma CurrentAlone(s: Sched)
    requires Inv(s) && Busy(s)
    ensures s.current.value !in s.run && s.current.value !in s.waiting && s.current.value !in s.dead
    ensures s.current.value in s.st
  {
    var p := s.current.value;
    assert Current(s)[p] == 1;
    assert p in Places(s);
    assert Places(s)[p] == 1;
  }

  lemma FinishKeeps(s: Sched)
    requires Inv(s) && Legal(s, Finish)
    ensures Inv(Step(s, Finish))
  {
    hide Records, Pick, Placed;
    var p := s.current.value;
    var s1 := s.(dead := [p] + s.dead, st := s.st[p := Finished]);
    CurrentAlone(s);
    assert multiset([p] + s.dead) == multiset{p} + multiset(s.dead);
    assert s1.st.Keys == s.st.Keys;
    LeaveKeeps(s, s1);
  }

  lemma PlacedGrow(places: multiset<Pid>, existing: set<Pid>, idle: Pid, p: Pid)
    requires Placed(places, existing, idle) && p !in existing
    ensures places[p] == 0
    ensures Placed(places + multiset{p}, existing + {p}, idle)
  {
  }

  lemma PlacedShrink(places: multiset<Pid>, existing: set<Pid>, idle: Pid, p: Pid)
    requires Placed(places, existing, idle) && p in existing && p != idle
    ensures Placed(places - multiset{p}, existing - {p}, idle)
    ensures (places - multiset{p})[p] == 0
  {
  }

  lemma SpawnLabels(s: Sched, p: Pid)
    requires Labelled(s) && p !in s.st
    ensures Labelled(s.(run := [p] + s.run, st := s.st[p := Running]))
  {
    assert p !in s.waiting && p !in s.dead;
    assert forall q :: q in [p] + s.run ==> q == p || q in s.run;
  }

  lemma SpawnKeeps(s: Sched, p: Pid)
    requires Inv(s) && p !in s.st
    ensures Inv(Step(s, Spawn(p)))
  {
    hide Placed, Records, Labelled;
    var s' := Step(s, Spawn(p));
    assert multiset([p] + s.run) == multiset{p} + multiset(s.run);
    assert Places(s') == Places(s) + multiset{p};
    assert s'.st.Keys == s.st.Keys + {p};
    PlacedGrow(Places(s), s.st.Keys, s.idle, p);
    SpawnLabels(s, p);
  }

  /** A process is reaped only when it is in no other place, and then it is in none. */
  lemma ReapKeeps(s: Sched)
    requires Inv(s) && Legal(s, Reap) && s.dead != []
    ensures Inv(Step(s, Reap))
    ensures var p := s.dead[0];
            p in s.st && s.st[p] == Finished && p !in Step(s, Reap).st
            && Places(Step(s, Reap))[p] == 0 && Records(s.wq)[p] == 0
  {
    hide Placed, Records;
    var p, s' := s.dead[0], Step(s, Reap);
    HeadTail(s.dead);
    assert p in s.dead;
    assert Places(s') == Places(s) - multiset{p};
    PlacedShrink(Places(s), s.st.Keys, s.idle, p);
    assert s'.st.Keys == s.st.Keys - {p};
    ReapLabels(s);
  }

  lemma ReapLabels(s: Sched)
    requires Labelled(s) && s.dead != [] && s.current == Some(s.idle)
    requires Places(s.(dead := s.dead[1..]))[s.dead[0]] == 0
    ensures Labelled(s.(dead := s.dead[1..], st := s.st - {s.dead[0]}))
    ensures s.dead[0] !in s.waiting
  {
    var p := s.dead[0];
    assert p !in s.run && p !in s.waiting && p !in s.dead[1..];
    assert forall q :: q in s.dead[1..] ==> q in s.dead;
  }

  /** One round of waitqueue_wakeup. */
  function WakeOne(s: Sched, w: nat): Sched
    requires w < |s.wq| && s.wq[w] != []
  {
    Wakeup(s, s.wq[w][0]).(wq := s.wq[w := s.wq[w][1..]])
  }

  lemma WakeLabels(s: Sched, p: Pid)
    requires Labelled(s) && p in s.waiting && multiset(s.waiting)[p] == 1
    requires p !in s.dead && p !in s.run && Current(s)[p] == 0
    ensures Labelled(Wakeup(s, p))
  {
    DropOne(s.waiting, p);
    hide Remove;
    assert forall q :: q in [p] + s.run ==> q == p || q in s.run;
  }

  lemma DropOne(xs: seq<Pid>, p: Pid)
    requires multiset(xs)[p] == 1
    ensures forall q :: q in Remove(xs, p) ==> q in xs && q != p
  {
    DropBag(xs, p);
    hide Remove;
    forall q | q in Remove(xs, p)
      ensures q in xs && q != p
    {
      assert q in multiset(Remove(xs, p));
    }
  }

  lemma WakeRecords(s: Sched, w: nat)
    requires Records(s.wq) == multiset(s.waiting) && w < |s.wq| && s.wq[w] != []
    ensures s.wq[w][0] in s.waiting
    ensures Records(s.wq[w := s.wq[w][1..]]) == multiset(Remove(s.waiting, s.wq[w][0]))
  {
    hide Records, Remove;
    var p := s.wq[w][0];
    RecordsPop(s.wq, w);
    assert p in multiset(s.waiting);
    DropBag(s.waiting, p);
    assert multiset(Remove(s.waiting, p)) + multiset{p} == multiset(s.waiting);
    BagCancel(Records(s.wq[w := s.wq[w][1..]]), multiset{p}, multiset(Remove(s.waiting, p)));
  }

  lemma WakeOneKeeps(s: Sched, w: nat)
    requires Inv(s) && w < |s.wq| && s.wq[w] != []
    ensures Inv(WakeOne(s, w))
  {
    hide Records, Places, Labelled, Remove;
    var p := s.wq[w][0];
    WakeRecords(s, w);
    WakingPlaces(s, p);
    WakeLabels(s, p);
    WakeFrame(s, w);
  }

  lemma WakeFrame(s: Sched, w: nat)
    requires w < |s.wq| && s.wq[w] != [] && s.wq[w][0] in s.st
    ensures Places(WakeOne(s, w)) == Places(Wakeup(s, s.wq[w][0]))
    ensures Labelled(WakeOne(s, w)) <==> Labelled(Wakeup(s, s.wq[w][0]))
    ensures WakeOne(s, w).st.Keys == s.st.Keys
  {
  }

  /** A waiting process is nowhere else; waking it moves it to the run queue. */
  lemma WakingPlaces(s: Sched, p: Pid)
    requires Placed(Places(s), s.st.Keys, s.idle) && Labelled(s) && p in s.waiting
    ensures Places(Wakeup(s, p)) == Places(s)
    ensures multiset(s.waiting)[p] == 1 && p !in s.dead && p !in s.run && Current(s)[p] == 0 && p in s.st
  {
    DropBag(s.waiting, p);
    assert p in Places(s);
    assert Places(s)[p] == 1;
    assert multiset([p] + s.run) == multiset{p} + multiset(s.run);
  }

  lemma {:induction false} WakeKeeps(s: Sched, w: nat)
    requires Inv(s) && w < |s.wq|
    ensures Inv(WakeAll(s, w))
    decreases |s.wq[w]|
  {
    if s.wq[w] != [] {
      WakeOneKeeps(s, w);
      WakeKeeps(WakeOne(s, w), w);
    }
  }

  /** Every step keeps every process in exactly one place, in agreement with its state, with one
      wait record for each waiting process. */
  lemma StepKeeps(s: Sched, e: Event)
    requires Inv(s) && Legal(s, e)
    ensures Inv(Step(s, e))
  {
    hide Inv;
    match e
    case Spawn(p) => SpawnKeeps(s, p);
    case Block(w) => BlockKeeps(s, w);
    case Wake(w) => WakeKeeps(s, w);
    case Finish => FinishKeeps(s);
    case Preempt => PreemptKeeps(s);
    case Reap =>
      if s.dead != [] {
        ReapKeeps(s);
      }
  }

  lemma {:induction false} NoRecords(queues: nat)
    ensures Records(EmptyQueues(queues)) == multiset{}
  {
    if queues > 0 {
      NoRecords(queues - 1);
      assert EmptyQueues(queues)[1..] == EmptyQueues(queues - 1);
    }
  }

  lemma {:induction false} NoSleepers(queues: nat)
    ensures |EmptyQueues(queues)| == queues
    ensures forall w :: 0 <= w < queues ==> EmptyQueues(queues)[w] == []
  {
    if queues > 0 {
      NoSleepers(queues - 1);
    }
  }

  lemma BootInv(idle: Pid, garbage: ProcState, queues: nat)
    ensures Inv(Boot(idle, garbage, queues))
  {
    NoRecords(queues);
  }

  lemma {:induction false} RunKeeps(s: Sched, es: seq<Event>)
    requires Inv(s) && LegalRun(s, es)
    ensures Inv(Run(s, es))
    decreases |es|
  {
    if es != [] {
      StepKeeps(s, es[0]);
      RunKeeps(Step(s, es[0]), es[1..]);
    }
  }

  /** Every state that can be reached from boot, whatever the idle process's state word held. */
  lemma Reachable(idle: Pid, garbage: ProcState, queues: nat, es: seq<Event>)
    requires LegalRun(Boot(idle, garbage, queues), es)
    ensures Inv(Run(Boot(idle, garbage, queues), es))
  {
    hide Inv, Boot;
    BootInv(idle, garbage, queues);
    RunKeeps(Boot(idle, garbage, queues), es);
  }

  /** What the invariant says about one process. */
  lemma OnePlace(s: Sched, p: Pid)
    requires Inv(s) && p in s.st && p != s.idle
    ensures match s.st[p]
            case Running => (s.current == Some(p)) != (p in s.run) && p !in s.waiting && p !in s.dead
            case Waiting => s.current != Some(p) && p !in s.run && p in s.waiting && p !in s.dead
            case Finished => s.current != Some(p) && p !in s.run && p !in s.waiting && p in s.dead
    ensures Records(s.wq)[p] == (if s.st[p] == Waiting then 1 else 0)
    ensures multiset(s.run)[p] <= 1 && multiset(s.waiting)[p] <= 1 && multiset(s.dead)[p] <= 1
  {
    assert Places(s)[p] == Current(s)[p] + multiset(s.run)[p] + multiset(s.waiting)[p] + multiset(s.dead)[p];
  }

  // ---------------------------------------------------------------------------------------
  // Waking a wait queue
  // ---------------------------------------------------------------------------------------

  function DropAll(xs: seq<Pid>, ps: seq<Pid>): seq<Pid>
    decreases |ps|
  {
    if ps == [] then xs else DropAll(Remove(xs, ps[0]), ps[1..])
  }

  /** waitqueue_wakeup empties its wait queue, puts its processes, oldest first, in front of the
      run queue, and moves no other process. */
  lemma {:induction false} WakeEffect(s: Sched, w: nat)
    requires w < |s.wq|
    ensures var s', q := WakeAll(s, w), s.wq[w];
            && s'.wq == s.wq[w := []]
            && s'.run == Reverse(q) + s.run
            && s'.waiting == DropAll(s.waiting, q)
            && s'.current == s.current && s'.dead == s.dead && s'.idle == s.idle
    decreases |s.wq[w]|
  {
    hide Remove;
    var q := s.wq[w];
    if q == [] {
      assert s.wq[w := []] == s.wq;
    } else {
      WakeEffect(WakeOne(s, w), w);
      assert Reverse(q) + s.run == Reverse(q[1..]) + ([q[0]] + s.run);
    }
  }

  /** A wakeup runs the waiters in the order in which they went to sleep: the one that blocked last
      comes behind all that were there before. */
  lemma LastSleeperLast(s: Sched, w: nat)
    requires Legal(s, Block(w))
    ensures var p, s' := s.current.value, Step(s, Block(w));
            w < |s'.wq| && WakeAll(s', w).run == Reverse(s.wq[w]) + [p] + s'.run
  {
    var p, s' := s.current.value, Step(s, Block(w));
    assert s'.wq == s.wq[w := [p] + s.wq[w]];
    WakeEffect(s', w);
    assert ([p] + s.wq[w])[1..] == s.wq[w];
  }

  /** The process that finished last is the first to be reaped. */
  lemma LastFinishedFirst(s: Sched)
    requires Legal(s, Finish) && Inv(s)
    ensures var p, s' := s.current.value, Step(s, Finish);
            && p in s'.st && s'.st[p] == Finished && s'.dead == [p] + s.dead
            && (Legal(s', Reap) ==> Step(s', Reap).dead == s.dead && p !in Step(s', Reap).st)
  {
    CurrentAlone(s);
  }

  /** ... and marks exactly its processes RUNNING. */
  lemma {:induction false} WakeStates(s: Sched, w: nat)
    requires w < |s.wq|
    ensures forall p :: p in WakeAll(s, w).st <==> p in s.st || p in s.wq[w]
    ensures forall p :: p in WakeAll(s, w).st ==> WakeAll(s, w).st[p] == if p in s.wq[w] then Running else s.st[p]
    decreases |s.wq[w]|
  {
    hide Remove;
    var q := s.wq[w];
    if q != [] {
      WakeStates(WakeOne(s, w), w);
      assert forall p :: p in q <==> p == q[0] || p in q[1..];
    }
  }

  // ---------------------------------------------------------------------------------------
  // How long a runnable process waits
  // ---------------------------------------------------------------------------------------

  predicate IsPick(e: Event) {
    e.Block? || e.Finish? || e.Preempt?
  }

  /** How many processes an event puts at the head of the run queue. */
  function Inserts(s: Sched, e: Event): nat
    requires Legal(s, e)
  {
    match e
    case Spawn(_) => 1
    case Wake(w) => |s.wq[w]|
    case _ => 0
  }

  function Picks(es: seq<Event>): nat {
    if es == [] then 0 else (if IsPick(es[0]) then 1 else 0) + Picks(es[1..])
  }

  function Inserted(s: Sched, es: seq<Event>): nat
    requires LegalRun(s, es)
    decreases |es|
  {
    if es == [] then 0 else Inserts(s, es[0]) + Inserted(Step(s, es[0]), es[1..])
  }

  lemma PickStep(s: Sched, k: nat)
    requires k < |s.run|
    ensures if k == 0 then Pick(s).current == Some(s.run[0])
            else k - 1 < |Pick(s).run| && Pick(s).run[k - 1] == s.run[k]
  {
  }

  lemma QueueStep(s: Sched, e: Event, k: nat)
    requires Legal(s, e) && k < |s.run|
    ensures var s' := Step(s, e);
            if !IsPick(e) then k + Inserts(s, e) < |s'.run| && s'.run[k + Inserts(s, e)] == s.run[k]
            else if k == 0 then s'.current == Some(s.run[0])
            else k - 1 < |s'.run| && s'.run[k - 1] == s.run[k]
  {
    hide Pick, WakeAll, Remove, DropAll, Reverse;
    match e
    case Wake(w) => WakeEffect(s, w);
    case Block(w) =>
      var p := s.current.value;
      PickStep(s.(wq := s.wq[w := [p] + s.wq[w]], waiting := [p] + s.waiting, st := s.st[p := Waiting]), k);
    case Finish =>
      var p := s.current.value;
      PickStep(s.(dead := [p] + s.dead, st := s.st[p := Finished]), k);
    case Preempt => PickStep(s, k);
    case _ =>
  }

  lemma {:induction false} LegalPrefix(s: Sched, es: seq<Event>, i: nat)
    requires LegalRun(s, es) && i <= |es|
    ensures LegalRun(s, es[..i])
    decreases |es|
  {
    if i > 0 {
      LegalPrefix(Step(s, es[0]), es[1..], i - 1);
      assert es[..i][1..] == es[1..][..i - 1];
    }
  }

  /** A process at position `k` of the run queue becomes current at the pick whose number is one
      more than `k` and the head insertions until then; so any run with more picks than `k` and its
      head insertions makes it current. */
  lemma {:induction false} BoundedBypass(s: Sched, es: seq<Event>, k: nat) returns (i: nat)
    requires LegalRun(s, es) && k < |s.run|
    requires Picks(es) > k + Inserted(s, es)
    ensures 0 < i <= |es| && LegalRun(s, es[..i])
    ensures Run(s, es[..i]).current == Some(s.run[k])
    ensures Picks(es[..i]) == k + Inserted(s, es[..i]) + 1
    decreases |es|
  {
    var e, s1 := es[0], Step(s, es[0]);
    QueueStep(s, e, k);
    if IsPick(e) && k == 0 {
      i := 1;
      assert es[..1][1..] == [];
    } else {
      i := BoundedBypass(s1, es[1..], if IsPick(e) then k - 1 else k + Inserts(s, e));
      i := i + 1;
      assert es[..i][0] == e && es[..i][1..] == es[1..][..i - 1];
    }
    LegalPrefix(s, es, i);
  }

  function Preemptions(n: nat): (es: seq<Event>)
    ensures |es| == n
  {
    if n == 0 then [] else [Preempt] + Preemptions(n - 1)
  }

  lemma {:induction false} PreemptionsLegal(s: Sched, n: nat)
    ensures LegalRun(s, Preemptions(n))
    decreases n
  {
    if n > 0 {
      PreemptionsLegal(Pick(s), n - 1);
      assert Preemptions(n)[1..] == Preemptions(n - 1);
    }
  }

  /** The processes in the order in which they will run. */
  function Turn(s: Sched): seq<Pid>
    requires s.current.Some?
  {
    [s.current.value] + s.run
  }

  function Rotate(t: seq<Pid>, n: nat): (r: seq<Pid>)
    requires n <= |t|
    ensures |r| == |t|
  {
    t[n..] + t[..n]
  }

  lemma RotateStep(t: seq<Pid>, n: nat)
    requires 0 < n <= |t|
    ensures Rotate(Rotate(t, 1), n - 1) == Rotate(t, n)
  {
  }

  lemma PickRotates(s: Sched)
    requires s.current.Some? && Requeued(s)
    ensures Pick(s).current.Some? && Turn(Pick(s)) == Rotate(Turn(s), 1)
  {
  }

  lemma {:induction false} PreemptionsCount(s: Sched, n: nat)
    ensures |Preemptions(n)| == n && LegalRun(s, Preemptions(n))
    ensures Picks(Preemptions(n)) == n && Inserted(s, Preemptions(n)) == 0
    decreases n
  {
    if n > 0 {
      assert Preemptions(n)[0] == Preempt && Preemptions(n)[1..] == Preemptions(n - 1);
      PreemptionsCount(Pick(s), n - 1);
    }
  }

  /** When nothing goes in front of it, a process at position `k` becomes current at pick `k + 1`. */
  lemma Undisturbed(s: Sched, k: nat)
    requires k < |s.run|
    ensures LegalRun(s, Preemptions(k + 1)) && Run(s, Preemptions(k + 1)).current == Some(s.run[k])
  {
    var es := Preemptions(k + 1);
    PreemptionsCount(s, k + 1);
    var i := BoundedBypass(s, es, k);
    PreemptionsCount(s, i);
    PreemptionsPrefix(k + 1, i);
    assert es[..k + 1] == es;
  }

  lemma {:induction false} PreemptionsPrefix(n: nat, i: nat)
    requires i <= n
    ensures |Preemptions(n)| == n && Preemptions(n)[..i] == Preemptions(i)
  {
    if i > 0 {
      PreemptionsPrefix(n - 1, i - 1);
    } else if n > 0 {
      PreemptionsPrefix(n - 1, 0);
    }
  }

  /** Without blocking, finishing, spawning or waking, picking is a rotation: strict round robin. */
  lemma {:induction false} RoundRobin(s: Sched, n: nat)
    requires s.current.Some? && n <= |Turn(s)|
    requires forall p :: p in Turn(s) ==> p in s.st && s.st[p] == Running
    ensures LegalRun(s, Preemptions(n))
    ensures var s' := Run(s, Preemptions(n));
            s'.current.Some? && Turn(s') == Rotate(Turn(s), n) && s' == s.(current := s'.current, run := s'.run)
    decreases n
  {
    PreemptionsLegal(s, n);
    if n > 0 {
      var s1 := Pick(s);
      assert s.current.value in Turn(s);
      PickRotates(s);
      assert Preemptions(n)[0] == Preempt && Preemptions(n)[1..] == Preemptions(n - 1);
      assert forall p :: p in Turn(s1) ==> p in Turn(s);
      RoundRobin(s1, n - 1);
      RotateStep(Turn(s), n);
    }
  }

  /** One turn for every runnable process brings the scheduler back where it was. */
  lemma FullRound(s: Sched)
    requires s.current.Some?
    requires forall p :: p in Turn(s) ==> p in s.st && s.st[p] == Running
    ensures LegalRun(s, Preemptions(|Turn(s)|)) && Run(s, Preemptions(|Turn(s)|)) == s
  {
    RoundRobin(s, |Turn(s)|);
    var s' := Run(s, Preemptions(|Turn(s)|));
    assert Turn(s') == Turn(s);
    assert s'.current.value == Turn(s')[0] && s'.run == Turn(s')[1..];
  }
}
