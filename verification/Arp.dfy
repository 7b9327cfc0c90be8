/** The life of a pending ARP request (arp.c). */
module Arp {
  import opened Sequences

  type Ip = nat
  type Mac = seq<nat>
  type Id = nat

  datatype Entry = Entry(mac: Mac, ip: Ip)

  /** One arp_pending_request, which lives on the stack of the caller of resolve_address. */
  datatype Request = Request(target: Ip, tickCount: nat, finished: bool, timedOut: bool, answer: Option<Entry>)

  /** An OPER_REPLY packet. */
  datatype Packet = Packet(spa: Ip, sha: Mac, tha: Mac)

  const ARP_TIMEOUT := 250

  /** `pending` is the ring of pending requests and `table` the address table, both from head to
      tail; `requests` remembers every request, and `heard` every reply that was received. */
  datatype State = State(
    ours: Mac, pending: seq<Id>, requests: map<Id, Request>, table: seq<Entry>, heard: seq<Packet>)

  function Start(ours: Mac): State {
    State(ours, [], map[], [], [])
  }

  // ---------------------------------------------------------------------------------------
  // The steps
  // ---------------------------------------------------------------------------------------

  /** Whether this tick ends the request: the count is compared before it is incremented. */
  predicate Expires(r: Request) {
    r.tickCount >= ARP_TIMEOUT
  }

  function Aged(r: Request): Request {
    if Expires(r) then r.(tickCount := r.tickCount + 1, finished := true, timedOut := true)
    else r.(tickCount := r.tickCount + 1)
  }

  /** The pending requests that survive a tick. */
  function Survivors(ids: seq<Id>, requests: map<Id, Request>): seq<Id> {
    if ids == [] then []
    else (if ids[0] in requests && Expires(requests[ids[0]]) then [] else [ids[0]]) + Survivors(ids[1..], requests)
  }

  function AgedAll(ids: seq<Id>, requests: map<Id, Request>): map<Id, Request> {
    map i | i in requests :: if i in ids then Aged(requests[i]) else requests[i]
  }

  /** The position of the first pending request for address `ip`. */
  function FirstFor(ids: seq<Id>, requests: map<Id, Request>, ip: Ip): (k: nat)
    requires forall i :: i in ids ==> i in requests
    ensures k <= |ids|
    ensures k < |ids| ==> requests[ids[k]].target == ip
    ensures forall j :: 0 <= j < k ==> requests[ids[j]].target != ip
  {
    if ids == [] || requests[ids[0]].target == ip then 0 else 1 + FirstFor(ids[1..], requests, ip)
  }

  /** The request `r` with its answer. */
  function Answered(r: Request, e: Entry): Request {
    r.(finished := true, answer := Some(e))
  }

  datatype Event = Ask(id: Id, ip: Ip) | Reply(packet: Packet) | Tick

  predicate Legal(s: State, e: Event) {
    && (forall i :: i in s.pending ==> i in s.requests)
    && (e.Ask? ==> e.id !in s.requests)
  }

  /** A reply that is for us answers the first pending request for its sender, and no other. */
  function TakeReply(s: State, p: Packet): State
    requires forall i :: i in s.pending ==> i in s.requests
  {
    var k := FirstFor(s.pending, s.requests, p.spa);
    if p.tha != s.ours || k == |s.pending| then s
    else
      var e := Entry(p.sha, p.spa);
      s.(table := [e] + s.table,
         requests := s.requests[s.pending[k] := Answered(s.requests[s.pending[k]], e)],
         pending := Without(s.pending, k))
  }

  function Step(s: State, e: Event): State
    requires Legal(s, e)
  {
    match e
    case Ask(id, ip) =>
      s.(requests := s.requests[id := Request(ip, 0, false, false, None)], pending := [id] + s.pending)
    case Reply(p) => TakeReply(s, p).(heard := s.heard + [p])
    case Tick => s.(requests := AgedAll(s.pending, s.requests), pending := Survivors(s.pending, s.requests))
  }

  predicate LegalRun(s: State, es: seq<Event>)
    decreases |es|
  {
    es == [] || (Legal(s, es[0]) && LegalRun(Step(s, es[0]), es[1..]))
  }

  function Run(s: State, es: seq<Event>): State
    requires LegalRun(s, es)
    decreases |es|
  {
    if es == [] then s else Run(Step(s, es[0]), es[1..])
  }

  // ---------------------------------------------------------------------------------------
  // What every step keeps
  // ---------------------------------------------------------------------------------------

  ghost predicate Waiting(r: Request) {
    !r.finished && !r.timedOut && r.answer.None? && r.tickCount <= ARP_TIMEOUT
  }

  /** Finished with exactly one of the two outcomes. */
  ghost predicate Done(r: Request, table: seq<Entry>) {
    && r.finished
    && r.timedOut == r.answer.None?
    && (r.timedOut ==> r.tickCount == ARP_TIMEOUT + 1)
    && (r.answer.Some? ==> r.answer.value in table && r.answer.value.ip == r.target && r.tickCount <= ARP_TIMEOUT)
  }

  /** The entry repeats what some received reply, addressed to us, said. */
  ghost predicate Justified(e: Entry, s: State) {
    exists p :: p in s.heard && p.tha == s.ours && p.spa == e.ip && p.sha == e.mac
  }

  ghost predicate Inv(s: State) {
    && NoDup(s.pending)
    && (forall i :: i in s.pending ==> i in s.requests && Waiting(s.requests[i]))
    && (forall i :: i in s.requests && i !in s.pending ==> Done(s.requests[i], s.table))
    && (forall e :: e in s.table ==> Justified(e, s))
  }

  lemma {:induction false} SurvivorsAre(ids: seq<Id>, requests: map<Id, Request>)
    requires forall i :: i in ids ==> i in requests
    requires NoDup(ids)
    ensures NoDup(Survivors(ids, requests))
    ensures forall i :: i in Survivors(ids, requests) <==> i in ids && !Expires(requests[i])
  {
    if ids != [] {
      SurvivorsAre(ids[1..], requests);
      assert ids == [ids[0]] + ids[1..];
    }
  }

  lemma HeardMore(s: State, s': State, e: Entry, p: Packet)
    requires s'.ours == s.ours && s'.heard == s.heard + [p]
    requires Justified(e, s) || (p.tha == s.ours && e == Entry(p.sha, p.spa))
    ensures Justified(e, s')
  {
    if Justified(e, s) {
      var q :| q in s.heard && q.tha == s.ours && q.spa == e.ip && q.sha == e.mac;
      assert q in s'.heard;
    } else {
      assert p in s'.heard;
    }
  }

  lemma ReplyKeeps(s: State, p: Packet)
    requires Inv(s)
    ensures Inv(Step(s, Reply(p)))
  {
    var s' := Step(s, Reply(p));
    var k := FirstFor(s.pending, s.requests, p.spa);
    if k < |s.pending| {
      WithoutIs(s.pending, k);
    }
    forall e | e in s'.table
      ensures Justified(e, s')
    {
      HeardMore(s, s', e, p);
    }
  }

  lemma TickKeeps(s: State)
    requires Inv(s)
    ensures Inv(Step(s, Tick))
  {
    var s' := Step(s, Tick);
    SurvivorsAre(s.pending, s.requests);
    assert forall e :: e in s'.table ==> Justified(e, s) ==> Justified(e, s');
  }

  lemma StepKeeps(s: State, e: Event)
    requires Inv(s) && Legal(s, e)
    ensures Inv(Step(s, e))
  {
    match e
    case Ask(id, ip) =>
      var s' := Step(s, e);
      assert forall x :: x in s'.table ==> Justified(x, s) ==> Justified(x, s');
    case Reply(p) => ReplyKeeps(s, p);
    case Tick => TickKeeps(s);
  }

  /** Over any interleaving of requests, replies and ticks: a request is pending exactly until it
      is finished, with an answer from a received reply or by timing out, never both. */
  lemma {:induction false} RunKeeps(s: State, es: seq<Event>)
    requires Inv(s) && LegalRun(s, es)
    ensures Inv(Run(s, es))
    decreases |es|
  {
    if es != [] {
      StepKeeps(s, es[0]);
      RunKeeps(Step(s, es[0]), es[1..]);
    }
  }

  /** What that says about one request of a run from the start. */
  lemma Reachable(ours: Mac, es: seq<Event>, id: Id)
    requires LegalRun(Start(ours), es) && id in Run(Start(ours), es).requests
    ensures var s := Run(Start(ours), es);
            var r := s.requests[id];
            && (id in s.pending <==> !r.finished)
            && (r.finished <==> r.timedOut || r.answer.Some?)
            && !(r.timedOut && r.answer.Some?)
            && (r.timedOut ==> r.tickCount == 251)
            && (r.answer.Some? ==> r.answer.value.ip == r.target && Justified(r.answer.value, s))
  {
    RunKeeps(Start(ours), es);
  }

  /** A request finishes at most once: when it has, it never changes again. */
  lemma {:induction false} FinishedStays(s: State, es: seq<Event>, id: Id)
    requires Inv(s) && LegalRun(s, es)
    requires id in s.requests && s.requests[id].finished
    ensures id in Run(s, es).requests && Run(s, es).requests[id] == s.requests[id]
    ensures id !in Run(s, es).pending
    decreases |es|
  {
    if es != [] {
      StepKeeps(s, es[0]);
      FinishedStays(Step(s, es[0]), es[1..], id);
    }
  }

  function Ticks(es: seq<Event>): nat {
    if es == [] then 0 else (if es[0].Tick? then 1 else 0) + Ticks(es[1..])
  }

  /** While a request is pending, its count is the number of ticks since it was made. */
  lemma {:induction false} CountsTicks(s: State, es: seq<Event>, id: Id)
    requires Inv(s) && LegalRun(s, es) && id in s.pending
    ensures id in Run(s, es).requests
    ensures id in Run(s, es).pending ==> Run(s, es).requests[id].tickCount == s.requests[id].tickCount + Ticks(es)
    decreases |es|
  {
    if es != [] {
      var s1 := Step(s, es[0]);
      StepKeeps(s, es[0]);
      if id in s1.pending {
        assert s1.requests[id].tickCount == s.requests[id].tickCount + if es[0].Tick? then 1 else 0;
        CountsTicks(s1, es[1..], id);
      } else {
        FinishedStays(s1, es[1..], id);
      }
    }
  }

  /** A request still pending after `es` times out at the next tick exactly when that is its
      251st. */
  lemma TimesOutExactly(s: State, id: Id, ip: Ip, es: seq<Event>)
    requires Inv(s) && Legal(s, Ask(id, ip)) && LegalRun(Step(s, Ask(id, ip)), es)
    requires id in Run(Step(s, Ask(id, ip)), es).pending
    ensures var s' := Run(Step(s, Ask(id, ip)), es);
            && Legal(s', Tick) && Ticks(es) <= 250
            && (Step(s', Tick).requests[id].timedOut <==> Ticks(es) + 1 == 251)
            && (id !in Step(s', Tick).pending <==> Ticks(es) + 1 == 251)
  {
    var s1 := Step(s, Ask(id, ip));
    StepKeeps(s, Ask(id, ip));
    assert id in s1.pending;
    CountsTicks(s1, es, id);
    RunKeeps(s1, es);
    SurvivorsAre(Run(s1, es).pending, Run(s1, es).requests);
  }

  /** A pending request is answered by exactly the replies for us whose sender it asked for, when
      no newer request asks for the same address. */
  lemma AnsweredExactly(s: State, p: Packet, k: nat)
    requires Inv(s) && k < |s.pending|
    ensures var id, s' := s.pending[k], Step(s, Reply(p));
            id !in s'.pending <==>
              p.tha == s.ours && s.requests[id].target == p.spa
              && forall j :: 0 <= j < k ==> s.requests[s.pending[j]].target != p.spa
    ensures var id, s' := s.pending[k], Step(s, Reply(p));
            id !in s'.pending ==> s'.requests[id] == Answered(s.requests[id], Entry(p.sha, p.spa))
  {
    var f := FirstFor(s.pending, s.requests, p.spa);
    if f < |s.pending| {
      WithoutIs(s.pending, f);
    }
  }

  /** A reply that answers a request adds its sender to the front of the table, takes that request off
      the pending ring and changes no other; any other reply changes nothing. */
  lemma ReplyEffect(s: State, p: Packet)
    requires Inv(s)
    ensures var s' := Step(s, Reply(p));
            if p.tha == s.ours && exists i :: i in s.pending && s.requests[i].target == p.spa
            then s'.table == [Entry(p.sha, p.spa)] + s.table
                 && exists i :: i in s.pending && s.requests[i].target == p.spa
                                && s'.pending == Remove(s.pending, i)
                                && forall j :: j in s.requests && j != i ==> s'.requests[j] == s.requests[j]
            else s'.table == s.table && s'.pending == s.pending && s'.requests == s.requests
  {
    var k := FirstFor(s.pending, s.requests, p.spa);
    if k < |s.pending| {
      assert s.pending[k] in s.pending;
      PositionOf(s.pending, k);
    }
  }

  lemma PositionOf(xs: seq<nat>, k: nat)
    requires NoDup(xs) && k < |xs|
    ensures Position(xs, xs[k]) == k && Remove(xs, xs[k]) == Without(xs, k)
  {
    var j := Position(xs, xs[k]);
    assert xs[j] == xs[k];
  }

  /** A request keeps the address that was asked for, and an answer is for that address. */
  lemma {:induction false} AnswersWhatWasAsked(s: State, id: Id, ip: Ip, es: seq<Event>)
    requires Inv(s) && Legal(s, Ask(id, ip)) && LegalRun(Step(s, Ask(id, ip)), es)
    ensures var r := Run(Step(s, Ask(id, ip)), es);
            && id in r.requests && r.requests[id].target == ip
            && (r.requests[id].answer.Some? ==> r.requests[id].answer.value.ip == ip)
  {
    var s1 := Step(s, Ask(id, ip));
    StepKeeps(s, Ask(id, ip));
    RunKeeps(s1, es);
    TargetKept(s1, id, es);
  }

  lemma {:induction false} TargetKept(s: State, id: Id, es: seq<Event>)
    requires LegalRun(s, es) && id in s.requests
    ensures id in Run(s, es).requests && Run(s, es).requests[id].target == s.requests[id].target
    decreases |es|
  {
    if es != [] {
      TargetKept(Step(s, es[0]), id, es[1..]);
    }
  }

  /** A tick that ends no request leaves the pending ring as it is. */
  lemma {:induction false} QuietTick(ids: seq<Id>, requests: map<Id, Request>)
    requires forall i :: i in ids && i in requests ==> !Expires(requests[i])
    ensures Survivors(ids, requests) == ids
  {
    if ids != [] {
      QuietTick(ids[1..], requests);
      assert ids == [ids[0]] + ids[1..];
    }
  }

  /** Of two requests for one address, a reply answers the newer; the older goes on waiting. */
  lemma OlderRequestWaits(ours: Mac, ip: Ip, mac: Mac)
    ensures Legal(Step(Start(ours), Ask(1, ip)), Ask(2, ip))
    ensures var s := Step(Step(Start(ours), Ask(1, ip)), Ask(2, ip));
            var s' := Step(s, Reply(Packet(ip, mac, ours)));
            && s'.pending == [1] && s'.requests[1] == s.requests[1] && !s'.requests[1].finished
            && s'.requests[2] == Answered(s.requests[2], Entry(mac, ip))
  {
    var s := Step(Step(Start(ours), Ask(1, ip)), Ask(2, ip));
    assert s.pending == [2, 1] && s.requests[2].target == ip;
    assert Without([2, 1], 0) == [1];
  }

  // ---------------------------------------------------------------------------------------
  // The loops
  // ---------------------------------------------------------------------------------------

  lemma {:induction false} SurvivorsSnoc(ids: seq<Id>, x: Id, requests: map<Id, Request>)
    requires x in requests
    ensures Survivors(ids + [x], requests) == Survivors(ids, requests) + if Expires(requests[x]) then [] else [x]
  {
    if ids != [] {
      assert (ids + [x])[1..] == ids[1..] + [x];
      SurvivorsSnoc(ids[1..], x, requests);
    }
  }

  lemma TickIs(s: State)
    requires Legal(s, Tick)
    ensures Step(s, Tick) == s.(requests := AgedAll(s.pending, s.requests), pending := Survivors(s.pending, s.requests))
  {
  }

  /** Moving past position `i`, with and without deleting what stands there. */
  lemma CursorMoves(ids: seq<Id>, i: nat)
    requires i < |ids|
    ensures ids[..i + 1] == ids[..i] + [ids[i]] && ids[i + 1..] == ids[i..][1..]
    ensures |Without(ids, i)| == |ids| - 1 && Without(ids, i)[..i] == ids[..i] && Without(ids, i)[i..] == ids[i..][1..]
  {
  }

  lemma PendingKnown(s: State)
    requires Inv(s)
    ensures Legal(s, Tick) && NoDup(s.pending)
    ensures forall i :: 0 <= i < |s.pending| ==> s.pending[i] in s.requests
  {
  }

  lemma TickStart(ids: seq<Id>, requests: map<Id, Request>)
    ensures ids[0..] == ids && Survivors(ids[..0], requests) == [] && AgedAll(ids[..0], requests) == requests
  {
  }

  /** What the tick of one more request adds. */
  lemma TickRound(ids: seq<Id>, n: nat, requests: map<Id, Request>)
    requires NoDup(ids) && n < |ids|
    requires forall i :: 0 <= i < |ids| ==> ids[i] in requests
    ensures ids[n] in AgedAll(ids[..n], requests) && AgedAll(ids[..n], requests)[ids[n]] == requests[ids[n]]
    ensures AgedAll(ids[..n + 1], requests) == AgedAll(ids[..n], requests)[ids[n] := Aged(requests[ids[n]])]
    ensures Survivors(ids[..n + 1], requests)
         == Survivors(ids[..n], requests) + if Expires(requests[ids[n]]) then [] else [ids[n]]
  {
    assert ids[..n + 1] == ids[..n] + [ids[n]];
    SurvivorsSnoc(ids[..n], ids[n], requests);
    assert ids[n] !in ids[..n];
  }

  class ArpState {
    const ours: Mac
    var pending: seq<Id>
    var requests: map<Id, Request>
    var table: seq<Entry>
    ghost var heard: seq<Packet>

    ghost function Model(): State
      reads this
    {
      State(ours, pending, requests, table, heard)
    }

    constructor (ours: Mac)
      ensures Model() == Start(ours) && Inv(Model())
    {
      this.ours := ours;
      pending, requests, table, heard := [], map[], [], [];
    }

    /** The request steps of resolve_address: a new pending request at the head of the ring. */
    method AddRequest(id: Id, ip: Ip)
      requires Inv(Model()) && Legal(Model(), Ask(id, ip))
      modifies this`pending, this`requests
      ensures Model() == Step(old(Model()), Ask(id, ip)) && Inv(Model())
    {
      StepKeeps(Model(), Ask(id, ip));
      requests := requests[id := Request(ip, 0, false, false, None)];
      pending := [id] + pending;
    }

    /** The loop body of arp_tick: ages one pending request, and unlinks it if it times out. */
    method AgeOne(i: nat) returns (next: nat)
      requires i < |pending| && pending[i] in requests
      modifies this`pending, this`requests
      ensures var r := old(requests[pending[i]]);
              && requests == old(requests[pending[i] := Aged(requests[pending[i]])])
              && pending == (if Expires(r) then Without(old(pending), i) else old(pending))
              && next == (if Expires(r) then i else i + 1)
    {
      var id := pending[i];
      var r := requests[id];
      requests := requests[id := r.(tickCount := r.tickCount + 1)];
      if r.tickCount >= ARP_TIMEOUT {
        requests := requests[id := requests[id].(finished := true, timedOut := true)];
        pending := pending[..i] + pending[i + 1..];
        next := i;
      } else {
        next := i + 1;
      }
    }

    /** arp_tick: ages every pending request, unlinking those that time out on the way. */
    method ArpTick()
      requires Inv(Model())
      modifies this`pending, this`requests
      ensures Model() == Step(old(Model()), Tick) && Inv(Model())
    {
      hide Inv, Survivors, AgedAll, Without, Step, NoDup, Expires, Aged;
      ghost var s := Model();
      PendingKnown(s);
      StepKeeps(s, Tick);
      var i: nat := 0;
      ghost var n: nat := 0;
      TickStart(s.pending, s.requests);
      while i < |pending|
        invariant n <= |s.pending| && i <= |pending|
        invariant pending[..i] == Survivors(s.pending[..n], s.requests)
        invariant pending[i..] == s.pending[n..]
        invariant requests == AgedAll(s.pending[..n], s.requests)
        decreases |s.pending| - n
      {
        assert pending[i] == s.pending[n];
        TickRound(s.pending, n, s.requests);
        CursorMoves(pending, i);
        CursorMoves(s.pending, n);
        i := AgeOne(i);
        n := n + 1;
      }
      assert s.pending[..n] == s.pending;
      assert pending[..i] == pending;
      TickIs(s);
    }

    /** The OPER_REPLY branch of arp_rx_packet.  It wakes the wait queue of the callers exactly for
        a reply that is for us, whether or not that answers a request. */
    method RxReply(p: Packet) returns (wakes: bool)
      requires Inv(Model())
      modifies this
      ensures Model() == Step(old(Model()), Reply(p)) && Inv(Model())
      ensures wakes <==> p.tha == ours
    {
      wakes := false;
      ghost var s := Model();
      StepKeeps(s, Reply(p));
      heard := heard + [p];
      if p.tha != ours {
        return;
      }
      wakes := true;
      ghost var k := FirstFor(s.pending, s.requests, p.spa);
      var i := 0;
      while i < |pending|
        invariant i <= k && pending == s.pending && requests == s.requests && table == s.table
      {
        var id := pending[i];
        if requests[id].target == p.spa {
          assert i == k;
          var e := Entry(p.sha, p.spa);
          table := [e] + table;
          requests := requests[id := requests[id].(answer := Some(e), finished := true)];
          pending := pending[..i] + pending[i + 1..];
          return;
        }
        i := i + 1;
      }
    }

    /** The table look-up of resolve_address. */
    method Lookup(ip: Ip) returns (e: Option<Entry>)
      requires Inv(Model())
      ensures e.Some? ==> e.value in table && e.value.ip == ip && Justified(e.value, Model())
      ensures e.None? ==> forall x :: x in table ==> x.ip != ip
    {
      for i := 0 to |table|
        invariant forall j :: 0 <= j < i ==> table[j].ip != ip
      {
        if table[i].ip == ip {
          return Some(table[i]);
        }
      }
      e := None;
    }
  }
}
