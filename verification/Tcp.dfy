/** A TCP connection block as a state machine (tcp.c): what segments, user calls and ticks do. */
module Tcp {
  import opened Words
  import opened Checksum

  datatype TcpState =
    | Closed
    | Listen
    | SynSent
    | SynReceived
    | Established
    | CloseWait
    | LastAck
    | FinWait1
    | FinWait2
    | Closing
    | TimeWait

  /** A received segment that was matched to this block. */
  datatype Segment = Segment(
    srcIp: Word, srcPort: nat, seqN: Word, ackN: Word,
    fin: bool, syn: bool, ack: bool, window: nat, data: seq<Byte>)

  /** A connection block.  `halted` says that the code has reached the endless loop with
      interrupts off (tcp.c:193-196), and `removed` that the block has been freed. */
  datatype Conn = Conn(
    state: TcpState, seqN: Word, ackN: Word, unacked: Word,
    ring: seq<Byte>, capacity: nat,
    timeout: nat, counting: bool, timedOut: bool,
    window: nat, peerIp: Word, peerPort: nat,
    halted: bool, removed: bool)

  datatype Reply = NoReply | Ack(seqN: Word, ackN: Word, window: int) | FinAck(seqN: Word, ackN: Word, window: int)

  const TCP_TIMEOUT := 250
  const TCP_BUF_SZ := 127
  const FIRST_SEQ: Word := 1024

  function Connecting(ip: Word, port: nat): Conn {
    Conn(SynSent, FIRST_SEQ, 0, 0, [], TCP_BUF_SZ, TCP_TIMEOUT, true, false, 0, ip, port, false, false)
  }

  function Listening(): Conn {
    Conn(Listen, FIRST_SEQ, 0, 0, [], TCP_BUF_SZ, 0, false, false, 0, 0, 0, false, false)
  }

  /** A 32-bit difference read as a signed `int`. */
  function Signed(w: Word): int {
    if w < WORD_LIMIT / 2 then w else w - WORD_LIMIT
  }

  function Pushed(c: Conn, data: seq<Byte>): seq<Byte> {
    if |c.ring| + |data| <= c.capacity then c.ring + data else c.ring
  }

  // ---------------------------------------------------------------------------------------
  // Segments
  // ---------------------------------------------------------------------------------------

  function AckedBytes(c: Conn, g: Segment): int {
    if g.ack then Signed(Wrap(g.ackN as int - c.seqN)) else 0
  }

  function TakeAck(c: Conn, g: Segment): Conn {
    var n := AckedBytes(c, g);
    if !g.ack then c
    else c.(unacked := if n > 0 then Wrap(c.unacked - n) else c.unacked, seqN := g.ackN)
  }

  function TakeFin(c: Conn, g: Segment): Conn {
    if g.fin then c.(state := CloseWait, ackN := Wrap(c.ackN as int + 1)) else c
  }

  function TakeData(c: Conn, g: Segment): Conn {
    if g.data == [] then c
    else c.(ring := Pushed(c, g.data), ackN := Wrap(c.ackN as int + |g.data|))
  }

  function StartTimer(c: Conn): Conn {
    c.(timeout := TCP_TIMEOUT, counting := true)
  }

  function StopTimer(c: Conn): Conn {
    c.(timeout := 0, counting := false, timedOut := false)
  }

  predicate AcksOurFin(c: Conn, g: Segment) {
    g.ack && g.ackN == c.seqN
  }

  /** tcp_rx_packet, from the point where the block is known. */
  function Receive(before: Conn, g: Segment): Conn {
    var c := StopTimer(before);
    match c.state
    case CloseWait => c.(halted := true)
    case SynSent =>
      if g.syn && g.ack then
        c.(seqN := Wrap(c.seqN as int + 1), ackN := Wrap(g.seqN as int + 1), window := g.window, state := Established)
      else
        c.(state := Closed)
    case Listen =>
      if g.syn then
        c.(peerIp := g.srcIp, peerPort := g.srcPort, ackN := Wrap(g.seqN as int + 1), state := SynReceived)
      else c
    case SynReceived =>
      if g.ack then c.(seqN := g.ackN, state := Established) else c
    case Established => TakeData(TakeFin(TakeAck(c, g), g), g)
    case FinWait1 =>
      if g.fin && AcksOurFin(c, g) then StartTimer(c.(ackN := Wrap(g.seqN as int + 1), state := TimeWait))
      else if AcksOurFin(c, g) then c.(ackN := g.seqN, state := FinWait2)
      else if g.fin then c.(ackN := Wrap(c.ackN as int + 1), state := Closing)
      else c
    case FinWait2 => if g.fin && g.ack then StartTimer(c.(state := TimeWait)) else c
    case Closing => StartTimer(c.(ackN := if g.ack then 1 else c.ackN, state := TimeWait))
    case Closed => c
    case LastAck => c
    case TimeWait => c
  }

  predicate SendsAck(c: Conn, g: Segment) {
    match c.state
    case SynSent => g.syn && g.ack
    case Established => g.fin || g.data != [] || AckedBytes(c, g) == 0
    case FinWait1 => g.fin
    case FinWait2 => g.fin && g.ack
    case _ => false
  }

  function AckFrom(c: Conn): Reply {
    Ack(c.seqN, c.ackN, c.capacity - |c.ring|)
  }

  function ReplyTo(c: Conn, g: Segment): Reply {
    if SendsAck(c, g) then AckFrom(Receive(c, g)) else NoReply
  }

  // ---------------------------------------------------------------------------------------
  // User calls and ticks
  // ---------------------------------------------------------------------------------------

  function Close(c: Conn): Conn {
    match c.state
    case CloseWait => c.(state := LastAck)
    case Established => c.(seqN := Wrap(c.seqN as int + 1), state := FinWait1)
    case _ => c
  }

  function CloseReply(c: Conn): Reply {
    if c.state.CloseWait? || c.state.Established? then FinAck(c.seqN, c.ackN, c.capacity - |c.ring|) else NoReply
  }

  /** tcp_tick on one block: the 16-bit countdown, tested before it is decremented. */
  function Tick(c: Conn): Conn {
    if !c.counting then c
    else if c.timeout == 0 then
      c.(timeout := HALF - 1, timedOut := true, counting := false, removed := c.state == TimeWait)
    else c.(timeout := c.timeout - 1)
  }

  /** tcp_tx_data up to its wait. */
  function Send(c: Conn, len: nat): Conn {
    c.(unacked := Wrap(c.unacked as int + len))
  }

  /** The bytes one round of tcp_rx_data takes when it asks for `len`: none while the ring is
      empty, and none in CLOSE_WAIT, when the call gives up. */
  function Taken(c: Conn, len: nat): nat {
    if c.state == CloseWait then 0 else if len < |c.ring| then len else |c.ring|
  }

  function Read(c: Conn, len: nat): Conn {
    c.(ring := c.ring[Taken(c, len)..])
  }

  datatype Event = Rx(seg: Segment) | UserClose | TimerTick | UserSend(len: nat) | UserRead(len: nat)

  /** One event.  Nothing happens to a block after the code has halted or freed it. */
  function Step(c: Conn, e: Event): Conn {
    if c.halted || c.removed then c else
    match e
    case Rx(g) => Receive(c, g)
    case UserClose => Close(c)
    case TimerTick => Tick(c)
    case UserSend(len) => Send(c, len)
    case UserRead(len) => Read(c, len)
  }

  function Run(c: Conn, es: seq<Event>): Conn
    decreases |es|
  {
    if es == [] then c else Run(Step(c, es[0]), es[1..])
  }

  lemma {:induction false} RunConcat(c: Conn, es: seq<Event>, fs: seq<Event>)
    ensures Run(c, es + fs) == Run(Run(c, es), fs)
    decreases |es|
  {
    hide Step;
    if es == [] {
      assert es + fs == fs;
    } else {
      RunConcat(Step(c, es[0]), es[1..], fs);
      assert (es + fs)[1..] == es[1..] + fs;
    }
  }

  // ---------------------------------------------------------------------------------------
  // Numbers, answers and timers
  // ---------------------------------------------------------------------------------------

  /** The free part of the ring, which every answer advertises. */
  function Room(c: Conn): int {
    c.capacity - |c.ring|
  }

  /** An accepted SYN is answered by acknowledging it, and the peer's window is kept. */
  lemma OpenAnswered(c: Conn, g: Segment)
    requires c.state == SynSent && g.syn && g.ack
    ensures ReplyTo(c, g) == Ack(Wrap(c.seqN as int + 1), Wrap(g.seqN as int + 1), Room(c))
    ensures Receive(c, g).seqN == Wrap(c.seqN as int + 1) && Receive(c, g).window == g.window
  {
    hide Wrap;
  }

  /** A SYN for a listening block names the peer and its first number; the acknowledgement that
      follows names ours. */
  lemma PassiveOpen(c: Conn, g: Segment, a: Segment)
    requires c.state == Listen && g.syn && a.ack
    ensures var c1 := Receive(c, g);
            && c1.peerIp == g.srcIp && c1.peerPort == g.srcPort && c1.ackN == Wrap(g.seqN as int + 1)
            && c1.seqN == c.seqN && ReplyTo(c, g) == NoReply
            && Receive(c1, a).seqN == a.ackN && Receive(c1, a).ackN == c1.ackN && ReplyTo(c1, a) == NoReply
  {
    hide Wrap;
  }

  /** In ESTABLISHED, FIN, payload and a segment that acknowledges nothing new are answered, with
      the FIN and the payload covered and the room that is left. */
  lemma EstablishedAnswered(c: Conn, g: Segment)
    requires c.state == Established
    ensures ReplyTo(c, g) ==
            if g.fin || g.data != [] || !g.ack || g.ackN == c.seqN
            then Ack(if g.ack then g.ackN else c.seqN,
                     Wrap(c.ackN as int + (if g.fin then 1 else 0) + |g.data|),
                     if |g.data| <= Room(c) then Room(c) - |g.data| else Room(c))
            else NoReply
  {
    AckNothing(c, g);
    if g.fin {
      WrapTwice(c.ackN as int, 1, |g.data|);
    }
    hide Wrap, Signed, AckedBytes;
    assert g.data == [] ==> c.ring + g.data == c.ring;
  }

  lemma AckNothing(c: Conn, g: Segment)
    ensures AckedBytes(c, g) == 0 <==> !g.ack || g.ackN == c.seqN
  {
  }

  lemma WrapTwice(x: int, y: int, z: int)
    ensures Wrap(Wrap(x + y) as int + z) == Wrap(x + y + z)
  {
    var q := (x + y) / WORD_LIMIT;
    assert x + y == Wrap(x + y) + WORD_LIMIT * q;
    var p := (x + y + z) / WORD_LIMIT;
    assert x + y + z == Wrap(x + y + z) + WORD_LIMIT * p;
    var r := (Wrap(x + y) as int + z) / WORD_LIMIT;
    assert Wrap(x + y) as int + z == Wrap(Wrap(x + y) as int + z) + WORD_LIMIT * r;
    SameResidue(Wrap(Wrap(x + y) as int + z), Wrap(x + y + z), p - q - r);
  }

  lemma SameResidue(a: Word, b: Word, k: int)
    requires a as int - b as int == WORD_LIMIT * k
    ensures a == b
  {
  }

  /** In FIN_WAIT1 a FIN is answered, with the FIN covered; nothing else is. */
  lemma FinAnswered(c: Conn, g: Segment)
    requires c.state == FinWait1
    ensures ReplyTo(c, g) ==
            if !g.fin then NoReply
            else if g.ack && g.ackN == c.seqN then Ack(c.seqN, Wrap(g.seqN as int + 1), Room(c))
            else Ack(c.seqN, Wrap(c.ackN as int + 1), Room(c))
    ensures !g.fin && g.ack && g.ackN == c.seqN ==> Receive(c, g).ackN == g.seqN
  {
    hide Wrap;
  }

  /** In the other states nothing is answered, but a FIN with ACK in FIN_WAIT2. */
  lemma Unanswered(c: Conn, g: Segment)
    requires c.state in {Closed, CloseWait, LastAck, Closing, TimeWait, Listen, SynReceived}
             || (c.state == SynSent && !(g.syn && g.ack)) || (c.state == FinWait2 && !(g.fin && g.ack))
    ensures ReplyTo(c, g) == NoReply
  {
  }

  /** A segment that a state has no use for only stops the timer; a refusal also closes. */
  lemma Ignored(c: Conn, g: Segment)
    requires match c.state
             case Listen => !g.syn
             case SynSent => !(g.syn && g.ack)
             case SynReceived => !g.ack
             case FinWait1 => !g.fin && !(g.ack && g.ackN == c.seqN)
             case FinWait2 => !(g.fin && g.ack)
             case _ => c.state in {Closed, LastAck, TimeWait}
    ensures Receive(c, g) == c.(timeout := 0, counting := false, timedOut := false,
                                state := if c.state == SynSent then Closed else c.state)
  {
    hide Wrap;
  }

  /** Our FIN carries our sequence number and acknowledges what was received.  It is counted in that
      number when we close first, and not when the peer did. */
  lemma FinSent(c: Conn)
    ensures CloseReply(c) == if c.state in {Established, CloseWait} then FinAck(c.seqN, c.ackN, Room(c)) else NoReply
    ensures Close(c).seqN == if c.state == Established then Wrap(c.seqN as int + 1) else c.seqN
    ensures Close(c) == c.(state := Close(c).state, seqN := Close(c).seqN)
  {
    hide Wrap;
  }

  /** Every segment stops the timer, and one that leads to TIME_WAIT starts it afresh. */
  lemma TimerAfterSegment(c: Conn, g: Segment)
    ensures var c' := Receive(c, g);
            && c'.counting == (c'.state == TimeWait && c.state != TimeWait)
            && c'.timeout == (if c'.counting then 250 else 0) && !c'.timedOut
  {
  }

  /** The countdown is one of 16 bits, which wraps at the tick that ends it. */
  lemma TickCounts(c: Conn)
    requires c.timeout < 0x1_0000
    ensures Tick(c).timeout == if c.counting then (c.timeout + 0xFFFF) % 0x1_0000 else c.timeout
    ensures Tick(c).timedOut == (c.timedOut || (c.counting && c.timeout == 0))
    ensures Tick(c).counting == (c.counting && c.timeout > 0)
  {
  }

  /** After the handshake has begun the peer stays the same, and so does the ring's capacity. */
  lemma PeerKept(c: Conn, e: Event)
    ensures Step(c, e).capacity == c.capacity
    ensures c.state != Listen ==> Step(c, e).peerIp == c.peerIp && Step(c, e).peerPort == c.peerPort
    ensures c.state != SynSent ==> Step(c, e).window == c.window
  {
    hide Wrap, Signed;
  }

  /** A call to read moves the oldest bytes to the user, as many as it asks for or else all there
      are; in CLOSE_WAIT it moves none. */
  lemma ReadTakes(c: Conn, len: nat)
    ensures Taken(c, len) <= len && Taken(c, len) <= |c.ring|
    ensures c.state == CloseWait ==> Taken(c, len) == 0
    ensures c.state != CloseWait ==> Taken(c, len) == len || Taken(c, len) == |c.ring|
    ensures Read(c, len) == c.(ring := Read(c, len).ring) && c.ring[..Taken(c, len)] + Read(c, len).ring == c.ring
  {
  }

  // ---------------------------------------------------------------------------------------
  // The life cycle
  // ---------------------------------------------------------------------------------------

  /** The edges of the state diagram in section 3.3.2 of RFC 9293 that a segment or a close can
      take, with the edge from FIN-WAIT-1 to TIME-WAIT of its note 2; SYN-SENT to CLOSED stands
      for a refused connection. */
  predicate Edge(from: TcpState, to: TcpState) {
    match from
    case Listen => to in {SynReceived}
    case SynSent => to in {Established, Closed}
    case SynReceived => to in {Established}
    case Established => to in {CloseWait, FinWait1}
    case CloseWait => to in {LastAck}
    case FinWait1 => to in {FinWait2, Closing, TimeWait}
    case FinWait2 => to in {TimeWait}
    case Closing => to in {TimeWait}
    case _ => false
  }

  function Rank(s: TcpState): nat {
    match s
    case Listen => 0
    case SynSent => 0
    case SynReceived => 1
    case Established => 2
    case CloseWait => 3
    case FinWait1 => 3
    case FinWait2 => 4
    case Closing => 4
    case LastAck => 5
    case TimeWait => 5
    case Closed => 6
  }

  /** Despite the switch falling through, every state change is an edge of the diagram. */
  lemma ChangesAreEdges(c: Conn, e: Event)
    requires Step(c, e).state != c.state
    ensures Edge(c.state, Step(c, e).state)
    ensures Rank(c.state) < Rank(Step(c, e).state)
  {
  }

  /** The segment acknowledges the SYN or FIN that this block sent last.  A block that answers with
      a SYN, or with a FIN in LAST_ACK, does not count it in its sequence number. */
  predicate AcksOurs(c: Conn, g: Segment) {
    g.ack && g.ackN == if c.state == SynReceived || c.state == LastAck then Wrap(c.seqN as int + 1) else c.seqN
  }

  /** The state that the diagram in section 3.3.2 of RFC 9293 gives after a segment that is not
      a reset. */
  function RfcNext(c: Conn, g: Segment): TcpState {
    match c.state
    case Listen => if g.syn then SynReceived else Listen
    case SynSent => if !g.syn then SynSent else if g.ack then Established else SynReceived
    case SynReceived => if AcksOurs(c, g) then Established else SynReceived
    case Established => if g.fin then CloseWait else Established
    case CloseWait => CloseWait
    case FinWait1 =>
      if g.fin then (if AcksOurs(c, g) then TimeWait else Closing)
      else if AcksOurs(c, g) then FinWait2 else FinWait1
    case FinWait2 => if g.fin then TimeWait else FinWait2
    case Closing => if AcksOurs(c, g) then TimeWait else Closing
    case LastAck => if AcksOurs(c, g) then Closed else LastAck
    case TimeWait => TimeWait
    case Closed => Closed
  }

  /** A segment takes a block where the diagram says exactly outside five cases: in SYN_SENT any
      segment but SYN with ACK is taken for a refusal, in SYN_RECEIVED an ACK of anything will do,
      in FIN_WAIT2 a FIN needs an ACK, in CLOSING any segment will do, and LAST_ACK has no case. */
  lemma ConformsExactly(c: Conn, g: Segment)
    ensures Receive(c, g).state == RfcNext(c, g) <==>
            match c.state
            case SynSent => g.syn && g.ack
            case SynReceived => g.ack ==> g.ackN == Wrap(c.seqN as int + 1)
            case FinWait2 => g.fin ==> g.ack
            case Closing => g.ack && g.ackN == c.seqN
            case LastAck => g.ack ==> g.ackN != Wrap(c.seqN as int + 1)
            case _ => true
  {
    hide Wrap, Pushed, Signed;
  }

  /** A segment without payload from the peer, with the peer's sequence number zero. */
  function Flags(ackN: Word, fin: bool, syn: bool, ack: bool): Event {
    Rx(Segment(0, 0, 0, ackN, fin, syn, ack, 0, []))
  }

  lemma RunOne(c: Conn, a: Event)
    ensures Run(c, [a]) == Step(c, a)
  {
    assert [a][1..] == [];
  }

  lemma RunTwo(c: Conn, a: Event, b: Event)
    ensures Run(c, [a, b]) == Step(Step(c, a), b)
  {
    hide Step;
    assert [a, b][1..] == [b];
    RunOne(Step(c, a), b);
  }

  lemma RunThree(c: Conn, a: Event, b: Event, d: Event)
    ensures Run(c, [a, b, d]) == Step(Step(Step(c, a), b), d)
  {
    hide Step;
    assert [a, b, d][1..] == [b, d];
    RunTwo(Step(c, a), b, d);
  }

  /** Runs of a connection that tcp_connect opens. */
  const SYN_ACK := Flags(FIRST_SEQ + 1, false, true, true)
  const ACK_FIN := Flags(FIRST_SEQ + 2, false, false, true)
  const PLAIN_FIN := Flags(0, true, false, false)
  const TO_FIN_WAIT2: seq<Event> := [SYN_ACK, UserClose, ACK_FIN]
  const TO_CLOSING: seq<Event> := [SYN_ACK, UserClose, PLAIN_FIN]
  const TO_LAST_ACK: seq<Event> := [SYN_ACK, PLAIN_FIN, UserClose]

  lemma WhereTheyLead(ip: Word, port: nat)
    ensures var c := Run(Connecting(ip, port), TO_FIN_WAIT2);
            c.state == FinWait2 && c.seqN == FIRST_SEQ + 2 && c.ackN == 0 && c.ring == [] && c.capacity == TCP_BUF_SZ
    ensures Run(Connecting(ip, port), TO_CLOSING).state == Closing
    ensures Run(Connecting(ip, port), TO_LAST_ACK).state == LastAck
    ensures Run(Connecting(ip, port), TO_LAST_ACK).seqN == FIRST_SEQ + 1
  {
    var c := Connecting(ip, port);
    RunThree(c, SYN_ACK, UserClose, ACK_FIN);
    RunThree(c, SYN_ACK, UserClose, PLAIN_FIN);
    RunThree(c, SYN_ACK, PLAIN_FIN, UserClose);
    hide Run;
  }

  /** A run of a new connection and a segment for each of the five cases in which the block does
      not go where the diagram says. */
  lemma Deviations(ip: Word, port: nat)
    ensures var c, g := Connecting(ip, port), Flags(0, false, true, false).seg;
            c.state == SynSent && Receive(c, g).state == Closed && RfcNext(c, g) == SynReceived
    ensures var c, g := Connecting(ip, port), Flags(FIRST_SEQ, false, false, true).seg;
            c.state == SynSent && Receive(c, g).state == Closed && RfcNext(c, g) == SynSent
    ensures var c, g := Run(Listening(), [Flags(0, false, true, false)]), Flags(7, false, false, true).seg;
            c.state == SynReceived && Receive(c, g).state == Established && RfcNext(c, g) == SynReceived
    ensures var c, g := Run(Connecting(ip, port), TO_FIN_WAIT2), PLAIN_FIN.seg;
            c.state == FinWait2 && Receive(c, g).state == FinWait2 && RfcNext(c, g) == TimeWait
    ensures var c, g := Run(Connecting(ip, port), TO_CLOSING), Flags(0, false, false, false).seg;
            c.state == Closing && Receive(c, g).state == TimeWait && RfcNext(c, g) == Closing
    ensures var c, g := Run(Connecting(ip, port), TO_LAST_ACK), ACK_FIN.seg;
            c.state == LastAck && Receive(c, g).state == LastAck && RfcNext(c, g) == Closed
  {
    hide Run;
    WhereTheyLead(ip, port);
    RunOne(Listening(), Flags(0, false, true, false));
  }

  /** In CLOSING, the acknowledgement flag overwrites the acknowledgement number (tcp.c:325-326). */
  lemma ClosingAck(c: Conn, g: Segment)
    requires c.state == Closing
    ensures Receive(c, g).ackN == c.ackN <==> !g.ack || c.ackN == 1
    ensures g.ack ==> Receive(c, g).ackN == 1
  {
  }

  /** In FIN_WAIT2, a FIN is answered with the acknowledgement number as it was, because the code
      compares where an assignment was meant (tcp.c:315): the answer covers the FIN exactly when
      the number did so already. */
  lemma FinWait2Ack(c: Conn, g: Segment)
    requires c.state == FinWait2 && g.fin && g.ack
    ensures ReplyTo(c, g) == Ack(c.seqN, c.ackN, c.capacity - |c.ring|)
    ensures Receive(c, g).ackN == Wrap(g.seqN as int + 1) <==> c.ackN == Wrap(g.seqN as int + 1)
  {
    hide Wrap;
  }

  /** A peer that closes after it has acknowledged our FIN gets an answer that does not cover its
      own: it repeats the number of the FIN. */
  lemma FinNotCovered(ip: Word, port: nat)
    ensures var c, g := Run(Connecting(ip, port), TO_FIN_WAIT2), Flags(FIRST_SEQ + 2, true, false, true).seg;
            c.state == FinWait2 && ReplyTo(c, g) == Ack(FIRST_SEQ + 2, g.seqN, TCP_BUF_SZ)
  {
    hide Run;
    WhereTheyLead(ip, port);
  }

  lemma {:induction false} RankGrows(c: Conn, es: seq<Event>)
    ensures Rank(c.state) <= Rank(Run(c, es).state)
    ensures Rank(c.state) == Rank(Run(c, es).state) ==> c.state == Run(c, es).state
    decreases |es|
  {
    if es != [] {
      if Step(c, es[0]).state != c.state {
        ChangesAreEdges(c, es[0]);
      }
      RankGrows(Step(c, es[0]), es[1..]);
    }
  }

  /** No run comes back to a state it has left. */
  lemma NoRevisit(c: Conn, es: seq<Event>, fs: seq<Event>)
    requires Run(c, es).state != c.state
    ensures Run(c, es + fs).state != c.state
  {
    RunConcat(c, es, fs);
    RankGrows(c, es);
    RankGrows(Run(c, es), fs);
  }

  /** Once ESTABLISHED has been left, the ring only loses bytes, from its front. */
  lemma {:induction false} NoByteAfterEstablished(c: Conn, es: seq<Event>) returns (k: nat)
    requires Rank(c.state) > Rank(Established)
    ensures k <= |c.ring| && Run(c, es).ring == c.ring[k..]
    decreases |es|
  {
    if es == [] {
      k := 0;
    } else {
      var c1 := Step(c, es[0]);
      if c1.state != c.state {
        ChangesAreEdges(c, es[0]);
      }
      var j := if es[0].UserRead? && !c.halted && !c.removed then Taken(c, es[0].len) else 0;
      assert c1.ring == c.ring[j..];
      k := NoByteAfterEstablished(c1, es[1..]);
      k := k + j;
    }
  }

  function Ticks(es: seq<Event>): nat {
    if es == [] then 0 else (if es[0].TimerTick? then 1 else 0) + Ticks(es[1..])
  }

  /** The events before the first segment. */
  function BeforeSegment(es: seq<Event>): seq<Event> {
    if es == [] || es[0].Rx? then [] else [es[0]] + BeforeSegment(es[1..])
  }

  /** A segment that reaches a block in CLOSE_WAIT stops the code: nothing happens any more. */
  lemma HaltsInCloseWait(c: Conn, g: Segment, es: seq<Event>)
    requires c.state == CloseWait && !c.halted && !c.removed
    ensures Run(c, [Rx(g)] + es) == StopTimer(c).(halted := true)
  {
    assert ([Rx(g)] + es)[1..] == es;
    StoppedStays(Step(c, Rx(g)), es);
  }

  /** A run halts in no other way. */
  lemma {:induction false} HaltsExactly(c: Conn, es: seq<Event>)
    requires !c.halted && !c.removed
    ensures Run(c, es).halted <==> exists i :: 0 <= i < |es| && SegmentInCloseWait(c, es, i)
    decreases |es|
  {
    if es != [] {
      var c1 := Step(c, es[0]);
      assert es[..0] == [];
      if c1.halted || c1.removed {
        StoppedStays(c1, es[1..]);
        StoppedBefore(c, es);
        assert c1.halted ==> SegmentInCloseWait(c, es, 0);
      } else {
        HaltsExactly(c1, es[1..]);
        assert !SegmentInCloseWait(c, es, 0);
        forall i | 0 < i < |es|
          ensures SegmentInCloseWait(c, es, i) <==> SegmentInCloseWait(c1, es[1..], i - 1)
        {
          assert es[..i][1..] == es[1..][..i - 1];
        }
        if i :| 0 <= i < |es| - 1 && SegmentInCloseWait(c1, es[1..], i) {
          assert SegmentInCloseWait(c, es, i + 1);
        }
      }
    }
  }

  /** A segment is the event at position `i`, and finds the block live and in CLOSE_WAIT. */
  predicate SegmentInCloseWait(c: Conn, es: seq<Event>, i: nat)
    requires i < |es|
  {
    var d := Run(c, es[..i]);
    es[i].Rx? && d.state == CloseWait && !d.halted && !d.removed
  }

  /** A block that the first event stops meets no segment afterwards. */
  lemma StoppedBefore(c: Conn, es: seq<Event>)
    requires es != [] && (Step(c, es[0]).halted || Step(c, es[0]).removed)
    ensures forall i :: 0 < i < |es| ==> !SegmentInCloseWait(c, es, i)
  {
    forall i | 0 < i < |es|
      ensures !SegmentInCloseWait(c, es, i)
    {
      StoppedStays(Step(c, es[0]), es[1..i]);
      assert es[..i][1..] == es[1..i];
    }
  }

  lemma {:induction false} StoppedStays(c: Conn, es: seq<Event>)
    requires c.removed || c.halted
    ensures Run(c, es) == c
    decreases |es|
  {
    if es != [] {
      StoppedStays(c, es[1..]);
    }
  }

  /** A segment that reaches a block in TIME_WAIT stops its timer for good: it is never removed. */
  lemma {:induction false} TimeWaitStuck(c: Conn, es: seq<Event>)
    requires c.state == TimeWait && !c.removed && !c.counting
    ensures Run(c, es).state == TimeWait && !Run(c, es).removed
    decreases |es|
  {
    if es != [] {
      TimeWaitStuck(Step(c, es[0]), es[1..]);
    }
  }

  lemma {:induction false} TimerRuns(c: Conn, es: seq<Event>)
    requires c.state == TimeWait && !c.halted && !c.removed && c.counting
    ensures Run(c, es).removed <==> Ticks(BeforeSegment(es)) > c.timeout
    decreases |es|
  {
    if es != [] {
      var c1 := Step(c, es[0]);
      assert !es[0].Rx? ==> BeforeSegment(es)[1..] == BeforeSegment(es[1..]);
      if c1.removed {
        StoppedStays(c1, es[1..]);
      } else if es[0].Rx? {
        TimeWaitStuck(c1, es[1..]);
      } else {
        TimerRuns(c1, es[1..]);
      }
    }
  }

  /** A connection that is being opened times out on exactly its 251st tick without a segment. */
  lemma ConnectTimesOut(ip: Word, port: nat, es: seq<Event>)
    requires forall i :: 0 <= i < |es| ==> !es[i].Rx?
    ensures Run(Connecting(ip, port), es).timedOut <==> Ticks(es) >= 251
  {
    Counting(Connecting(ip, port), es);
  }

  lemma {:induction false} Counting(c: Conn, es: seq<Event>)
    requires c.state == SynSent && !c.halted && !c.removed && !c.timedOut && c.counting
    requires forall i :: 0 <= i < |es| ==> !es[i].Rx?
    ensures Run(c, es).timedOut <==> Ticks(es) > c.timeout
    decreases |es|
  {
    if es != [] {
      var c1 := Step(c, es[0]);
      if c1.timedOut {
        StaysTimedOut(c1, es[1..]);
      } else {
        Counting(c1, es[1..]);
      }
    }
  }

  lemma {:induction false} StaysTimedOut(c: Conn, es: seq<Event>)
    requires c.timedOut && !c.counting
    requires forall i :: 0 <= i < |es| ==> !es[i].Rx?
    ensures Run(c, es).timedOut
    decreases |es|
  {
    if es != [] {
      StaysTimedOut(Step(c, es[0]), es[1..]);
    }
  }

  /** A block that a segment has just moved to TIME_WAIT is removed on exactly its 251st tick,
      and only if no other segment comes before that. */
  lemma TimeWaitRemoval(c: Conn, g: Segment, es: seq<Event>)
    requires !c.halted && !c.removed && c.state != TimeWait
    requires Receive(c, g).state == TimeWait
    ensures Run(c, [Rx(g)] + es).removed <==> Ticks(BeforeSegment(es)) >= 251
  {
    assert ([Rx(g)] + es)[1..] == es;
    TimerRuns(Receive(c, g), es);
  }
}
