/** What a TCP connection delivers and accounts for over whole runs (tcp.c). */
module TcpStreams {
  import opened Words
  import opened Checksum
  import opened Tcp

  /** A connection block with what happened to it: the bytes handed to the user, the bytes put in
      the ring, the payloads acknowledged, the peer's initial sequence number, our sequence number
      when the connection was established, and the bytes sent and seen acknowledged since. */
  datatype History = History(
    c: Conn, delivered: seq<Byte>, pushed: seq<Byte>, accepted: seq<Byte>,
    irs: Word, base: Word, sent: nat, acked: nat)

  function Begin(c: Conn): History {
    History(c, [], [], [], 0, 0, 0, 0)
  }

  predicate Live(c: Conn) {
    !c.halted && !c.removed
  }

  /** The payload of an event that a connection in ESTABLISHED accepts. */
  function Payload(c: Conn, e: Event): seq<Byte> {
    if Live(c) && e.Rx? && c.state == Established then e.seg.data else []
  }

  /** The segment that tells the peer's initial sequence number. */
  predicate FirstHeard(c: Conn, e: Event) {
    Live(c) && e.Rx? && c.state in {Listen, SynSent} && Step(c, e).state in {SynReceived, Established}
  }

  /** The bytes in flight that a segment acknowledges. */
  function NewlyAcked(c: Conn, e: Event): nat {
    if Live(c) && e.Rx? && c.state == Established && AckedBytes(c, e.seg) > 0 then AckedBytes(c, e.seg) else 0
  }

  function Advance(h: History, e: Event): History {
    var c, c' := h.c, Step(h.c, e);
    var d := Payload(c, e);
    History(
      c',
      if Live(c) && e.UserRead? then h.delivered + c.ring[..Taken(c, e.len)] else h.delivered,
      if |c.ring| + |d| <= c.capacity then h.pushed + d else h.pushed,
      h.accepted + d,
      if FirstHeard(c, e) then e.seg.seqN else h.irs,
      if c.state == SynReceived && Live(c) && e.Rx? && e.seg.ack then e.seg.ackN
      else if c.state == SynSent && Live(c) && e.Rx? && e.seg.syn && e.seg.ack then FIRST_SEQ + 1
      else h.base,
      if Live(c) && e.UserSend? then h.sent + e.len else h.sent,
      h.acked + NewlyAcked(c, e))
  }

  function Record(h: History, es: seq<Event>): History
    decreases |es|
  {
    if es == [] then h else Record(Advance(h, es[0]), es[1..])
  }

  /** The record follows the run. */
  lemma {:induction false} RecordRuns(h: History, es: seq<Event>)
    ensures Record(h, es).c == Run(h.c, es)
    decreases |es|
  {
    if es != [] {
      RecordRuns(Advance(h, es[0]), es[1..]);
    }
  }

  /** What a segment does in ESTABLISHED. */
  lemma ReceiveEstablished(c: Conn, g: Segment)
    requires c.state == Established
    ensures var c' := Receive(c, g);
            && c'.ring == Pushed(c, g.data) && c'.capacity == c.capacity
            && c'.state == (if g.fin then CloseWait else Established)
            && c'.seqN == (if g.ack then g.ackN else c.seqN)
            && c'.unacked == TakeAck(c, g).unacked
            && c'.ackN == TakeData(TakeFin(c, g), g).ackN
  {
    hide Wrap, Signed, TakeAck, TakeFin, TakeData;
    TakeAckIs(StopTimer(c), g);
    TakeAckIs(c, g);
    var c1 := TakeAck(StopTimer(c), g);
    TakeDataIs(TakeFin(c1, g), g);
    TakeFinIs(c1, g);
    TakeDataIs(TakeFin(c, g), g);
    TakeFinIs(c, g);
  }

  lemma TakeAckIs(c: Conn, g: Segment)
    ensures TakeAck(c, g) == c.(unacked := TakeAck(c, g).unacked, seqN := if g.ack then g.ackN else c.seqN)
    ensures TakeAck(StopTimer(c), g).unacked == TakeAck(c, g).unacked
  {
    hide Wrap, Signed;
  }

  lemma TakeFinIs(c: Conn, g: Segment)
    ensures TakeFin(c, g) == c.(state := if g.fin then CloseWait else c.state,
                                ackN := if g.fin then Wrap(c.ackN as int + 1) else c.ackN)
  {
  }

  lemma TakeDataIs(c: Conn, g: Segment)
    ensures TakeData(c, g) == c.(ring := Pushed(c, g.data),
                                 ackN := if g.data == [] then c.ackN else Wrap(c.ackN as int + |g.data|))
  {
    hide Wrap;
    assert c.ring + [] == c.ring;
  }

  /** Elsewhere it leaves the ring and the send count alone. */
  lemma ReceiveElsewhere(c: Conn, g: Segment)
    requires c.state != Established
    ensures Receive(c, g).ring == c.ring && Receive(c, g).capacity == c.capacity && Receive(c, g).unacked == c.unacked
  {
  }

  // ---------------------------------------------------------------------------------------
  // Modular arithmetic
  // ---------------------------------------------------------------------------------------

  lemma WrapQuotient(x: int) returns (q: int)
    ensures x == Wrap(x) + WORD_LIMIT * q
  {
    q := x / WORD_LIMIT;
  }

  lemma WrapUnique(x: int, w: Word, q: int)
    requires x == w + WORD_LIMIT * q
    ensures Wrap(x) == w
  {
    var r := WrapQuotient(x);
    assert WORD_LIMIT * (r - q) == w - Wrap(x);
    assert r == q;
  }

  lemma WrapSum(x: int, y: int)
    ensures Wrap(Wrap(x) as int + y) == Wrap(x + y)
  {
    var q := WrapQuotient(x);
    var r := WrapQuotient(x + y);
    WrapUnique(Wrap(x) as int + y, Wrap(x + y), r - q);
  }

  // ---------------------------------------------------------------------------------------
  // The receive stream
  // ---------------------------------------------------------------------------------------

  /** Every payload fits in the free part of the ring when it arrives. */
  predicate AllFit(c: Conn, es: seq<Event>)
    decreases |es|
  {
    es == [] || (|c.ring| + |Payload(c, es[0])| <= c.capacity && AllFit(Step(c, es[0]), es[1..]))
  }

  ghost predicate StreamInv(h: History) {
    && |h.c.ring| <= h.c.capacity
    && h.delivered + h.c.ring == h.pushed
  }

  lemma StreamStep(h: History, e: Event)
    requires StreamInv(h)
    ensures StreamInv(Advance(h, e))
    ensures |Advance(h, e).accepted| - |Advance(h, e).pushed| == |h.accepted| - |h.pushed|
              + if |h.c.ring| + |Payload(h.c, e)| <= h.c.capacity then 0 else |Payload(h.c, e)|
  {
    hide Receive, Wrap;
    var c := h.c;
    if Live(c) {
      match e
      case Rx(g) =>
        if c.state == Established {
          ReceiveEstablished(c, g);
          assert h.delivered + (c.ring + g.data) == h.delivered + c.ring + g.data;
        } else {
          ReceiveElsewhere(c, g);
        }
      case UserRead(len) =>
        var k := Taken(c, len);
        assert h.delivered + c.ring[..k] + c.ring[k..] == h.delivered + c.ring;
      case _ =>
    }
  }

  lemma {:induction false} StreamRun(h: History, es: seq<Event>)
    requires StreamInv(h)
    ensures StreamInv(Record(h, es))
    ensures |h.accepted| - |h.pushed| <= |Record(h, es).accepted| - |Record(h, es).pushed|
    ensures !AllFit(h.c, es) ==> |h.accepted| - |h.pushed| < |Record(h, es).accepted| - |Record(h, es).pushed|
    ensures AllFit(h.c, es) && h.accepted == h.pushed ==> Record(h, es).accepted == Record(h, es).pushed
    decreases |es|
  {
    if es != [] {
      StreamStep(h, es[0]);
      StreamRun(Advance(h, es[0]), es[1..]);
    }
  }

  /** Over any run of a new connection, the bytes handed to the user followed by those still in
      the ring are the acknowledged payloads in order of arrival, exactly when every payload fitted
      in the ring: a payload that does not fit is dropped and acknowledged all the same. */
  lemma ReceiveStream(c: Conn, es: seq<Event>)
    requires c.ring == []
    ensures Record(Begin(c), es).delivered + Run(c, es).ring == Record(Begin(c), es).accepted <==> AllFit(c, es)
  {
    StreamRun(Begin(c), es);
    RecordRuns(Begin(c), es);
  }

  /** One byte for a full ring is dropped, and its acknowledgement number sent. */
  lemma RefusedByte(c: Conn, g: Segment, b: Byte)
    requires c.state == Established && |c.ring| == c.capacity
    requires g.data == [b] && !g.fin
    ensures Receive(c, g).ring == c.ring && Receive(c, g).ackN == Wrap(c.ackN as int + 1)
    ensures ReplyTo(c, g) == Ack(Receive(c, g).seqN, Wrap(c.ackN as int + 1), 0)
    ensures !AllFit(c.(halted := false, removed := false), [Rx(g)])
  {
    hide Wrap;
    ReceiveEstablished(c, g);
    assert SendsAck(c, g);
  }

  /** Bytes that are in the ring when the peer's FIN arrives stay there: until the user closes,
      tcp_rx_data gives up in CLOSE_WAIT without delivering any (tcp.c:454-455). */
  lemma {:induction false} StrandedBytes(h: History, es: seq<Event>)
    requires h.c.state == CloseWait && UserClose !in es
    ensures Record(h, es).delivered == h.delivered && Run(h.c, es).ring == h.c.ring
    ensures Run(h.c, es).state == CloseWait
    decreases |es|
  {
    if es != [] {
      assert es[0] in es && forall e :: e in es[1..] ==> e in es;
      assert h.delivered + [] == h.delivered && h.c.ring[0..] == h.c.ring;
      StrandedBytes(Advance(h, es[0]), es[1..]);
    }
  }

  /** The user closes before any segment comes, and reads later. */
  predicate ClosesThenReads(es: seq<Event>)
    decreases |es|
  {
    es != [] && !es[0].Rx? && if es[0].UserClose? then Reads(es[1..]) else ClosesThenReads(es[1..])
  }

  predicate Reads(es: seq<Event>) {
    exists j :: 0 <= j < |es| && es[j].UserRead? && es[j].len > 0
  }

  lemma {:induction false} DeliveredGrows(h: History, es: seq<Event>)
    ensures |Record(h, es).delivered| >= |h.delivered|
    decreases |es|
  {
    hide Step;
    if es != [] {
      DeliveredGrows(Advance(h, es[0]), es[1..]);
    }
  }

  lemma {:induction false} StoppedDeliversNothing(h: History, es: seq<Event>)
    requires !Live(h.c)
    ensures Record(h, es).delivered == h.delivered
    decreases |es|
  {
    if es != [] {
      StoppedDeliversNothing(Advance(h, es[0]), es[1..]);
    }
  }

  lemma ReadsFirst(es: seq<Event>)
    requires es != []
    ensures Reads(es) <==> (es[0].UserRead? && es[0].len > 0) || Reads(es[1..])
  {
    if Reads(es[1..]) {
      var j :| 0 <= j < |es[1..]| && es[1..][j].UserRead? && es[1..][j].len > 0;
      assert es[j + 1].UserRead?;
    }
    if Reads(es) && !(es[0].UserRead? && es[0].len > 0) {
      var j :| 0 <= j < |es| && es[j].UserRead? && es[j].len > 0;
      assert es[1..][j - 1].UserRead?;
    }
  }

  /** In LAST_ACK, where nothing ends, the first read delivers. */
  lemma {:induction false} LastAckReads(h: History, es: seq<Event>)
    requires Live(h.c) && h.c.state == LastAck && h.c.ring != []
    ensures Record(h, es).delivered != h.delivered <==> Reads(es)
    decreases |es|
  {
    if es != [] {
      hide Reads;
      var h1 := Advance(h, es[0]);
      ReadsFirst(es);
      if es[0].UserRead? && es[0].len > 0 {
        DeliveredGrows(h1, es[1..]);
      } else {
        assert h1.delivered == h.delivered && h1.c.ring == h.c.ring;
        LastAckReads(h1, es[1..]);
      }
    }
  }

  /** Bytes that are in the ring in CLOSE_WAIT are delivered again exactly when the user closes
      before any segment comes, and then reads. */
  lemma {:induction false} StrandedExactly(h: History, es: seq<Event>)
    requires Live(h.c) && h.c.state == CloseWait && h.c.ring != []
    ensures Record(h, es).delivered != h.delivered <==> ClosesThenReads(es)
    decreases |es|
  {
    if es != [] {
      var h1 := Advance(h, es[0]);
      assert h1.delivered == h.delivered && h1.c.ring == h.c.ring;
      match es[0]
      case Rx(_) => StoppedDeliversNothing(h1, es[1..]);
      case UserClose => LastAckReads(h1, es[1..]);
      case _ => StrandedExactly(h1, es[1..]);
    }
  }

  // ---------------------------------------------------------------------------------------
  // Acknowledgement numbers
  // ---------------------------------------------------------------------------------------

  ghost predicate AckInv(h: History) {
    match h.c.state
    case Listen => h.accepted == []
    case SynSent => h.accepted == []
    case SynReceived => h.accepted == [] && h.c.ackN == Wrap(h.irs as int + 1)
    case Established => h.c.ackN == Wrap(h.irs as int + 1 + |h.accepted|)
    case FinWait1 => h.c.ackN == Wrap(h.irs as int + 1 + |h.accepted|)
    case Closing => h.c.ackN == Wrap(h.irs as int + 2 + |h.accepted|)
    case CloseWait => h.c.ackN == Wrap(h.irs as int + 2 + |h.accepted|)
    case LastAck => h.c.ackN == Wrap(h.irs as int + 2 + |h.accepted|)
    case _ => true
  }

  lemma AckEstablished(h: History, g: Segment)
    requires AckInv(h) && Live(h.c) && h.c.state == Established
    ensures AckInv(Advance(h, Rx(g)))
  {
    hide Receive, Wrap, AckedBytes;
    var n := h.irs as int + 1 + |h.accepted|;
    ReceiveEstablished(h.c, g);
    WrapSum(n, 1);
    WrapSum(n, |g.data|);
    WrapSum(n + 1, |g.data|);
  }

  lemma AckElsewhere(h: History, e: Event)
    requires AckInv(h) && !(Live(h.c) && e.Rx? && h.c.state == Established)
    ensures AckInv(Advance(h, e))
  {
    WrapSum(h.irs as int + 1 + |h.accepted|, 1);
    hide Wrap, AckedBytes, Pushed;
  }

  lemma AckStep(h: History, e: Event)
    requires AckInv(h)
    ensures AckInv(Advance(h, e))
  {
    hide AckInv, Advance;
    if Live(h.c) && e.Rx? && h.c.state == Established {
      AckEstablished(h, e.seg);
    } else {
      AckElsewhere(h, e);
    }
  }

  /** Until both FINs have been exchanged or ours has been acknowledged, the acknowledgement number
      is the peer's initial sequence number, plus one, plus the payload bytes accepted, plus one
      after its FIN. */
  lemma {:induction false} AckNumber(h: History, es: seq<Event>)
    requires AckInv(h)
    ensures AckInv(Record(h, es))
    decreases |es|
  {
    if es != [] {
      AckStep(h, es[0]);
      AckNumber(Advance(h, es[0]), es[1..]);
    }
  }

  // ---------------------------------------------------------------------------------------
  // Send accounting
  // ---------------------------------------------------------------------------------------

  /** What an acknowledgement does to `seqN + unacked`: it keeps the sum exactly when it is not
      behind our sequence number, as a signed 32-bit difference. */
  lemma AckKeepsSum(c: Conn, g: Segment)
    requires g.ack
    ensures Wrap(TakeAck(c, g).seqN as int + TakeAck(c, g).unacked) == Wrap(c.seqN as int + c.unacked)
            <==> Wrap(g.ackN as int - c.seqN) < WORD_LIMIT / 2
  {
    var d := Wrap(g.ackN as int - c.seqN);
    var q := WrapQuotient(g.ackN as int - c.seqN);
    var c' := TakeAck(c, g);
    var u := WrapQuotient(c.seqN as int + c.unacked);
    if d < WORD_LIMIT / 2 {
      if d > 0 {
        var r := WrapQuotient(c.unacked as int - d);
        WrapUnique(c'.seqN as int + c'.unacked, Wrap(c.seqN as int + c.unacked), q - r + u);
      }
      if d == 0 {
        assert c'.seqN == c.seqN;
      }
    } else {
      var v := WrapQuotient(c'.seqN as int + c'.unacked);
      assert c'.seqN as int + c'.unacked == c.seqN as int + c.unacked + d + WORD_LIMIT * q;
    }
  }

  /** An acknowledgement one behind our sequence number moves the number back and leaves the count
      of unacknowledged bytes as it is: for instance, a second acknowledgement of nothing but the
      number our SYN had. */
  lemma StaleAck(c: Conn, g: Segment, ip: Word, port: nat)
    requires g.ack && c.seqN > 0 && g.ackN == c.seqN - 1
    ensures TakeAck(c, g) == c.(seqN := c.seqN - 1)
    ensures Run(Connecting(ip, port), [SYN_ACK]).seqN == FIRST_SEQ + 1
    ensures Run(Connecting(ip, port), [SYN_ACK, Flags(FIRST_SEQ, false, false, true)]).seqN == FIRST_SEQ
  {
    hide Run;
    assert Wrap(g.ackN as int - c.seqN) == WORD_LIMIT - 1;
    RunOne(Connecting(ip, port), SYN_ACK);
    RunTwo(Connecting(ip, port), SYN_ACK, Flags(FIRST_SEQ, false, false, true));
  }

  /** The user can hold the block: tcp_connect and tcp_listen have returned it. */
  predicate Opened(s: TcpState) {
    s !in {Closed, Listen, SynSent, SynReceived}
  }

  /** Acknowledgements cover only bytes in flight, and sends do not overflow the count. */
  predicate InWindow(c: Conn, e: Event) {
    match e
    case Rx(g) =>
      c.state == Established && g.ack ==>
        Wrap(g.ackN as int - c.seqN) <= c.unacked && Wrap(g.ackN as int - c.seqN) < WORD_LIMIT / 2
    case UserSend(len) => Opened(c.state) && c.unacked as int + len < WORD_LIMIT
    case _ => true
  }

  predicate AllInWindow(c: Conn, es: seq<Event>)
    decreases |es|
  {
    es == [] || (InWindow(c, es[0]) && AllInWindow(Step(c, es[0]), es[1..]))
  }

  /** How many of our own SYN and FIN the sequence number counts beyond the data. */
  function OwnFin(s: TcpState): nat {
    if s in {FinWait1, FinWait2, Closing, TimeWait} then 1 else 0
  }

  ghost predicate SendInv(h: History) {
    match h.c.state
    case Closed => true
    case Listen => h.c.unacked == 0 && h.sent == 0 && h.acked == 0
    case SynSent => h.c.unacked == 0 && h.sent == 0 && h.acked == 0 && h.c.seqN == FIRST_SEQ
    case SynReceived => h.c.unacked == 0 && h.sent == 0 && h.acked == 0
    case _ =>
      && h.acked + h.c.unacked == h.sent
      && h.c.seqN == Wrap(h.base as int + h.acked + OwnFin(h.c.state))
  }

  lemma SendEstablished(h: History, g: Segment)
    requires SendInv(h) && InWindow(h.c, Rx(g)) && Live(h.c) && h.c.state == Established
    ensures SendInv(Advance(h, Rx(g)))
  {
    hide Receive, Wrap, Signed, TakeAck;
    if g.ack {
      AckInWindow(h.c, g, h.base as int + h.acked);
    }
    ReceiveEstablished(h.c, g);
    TakeAckIs(h.c, g);
    if !g.ack {
      NoAck(h.c, g);
    }
  }

  lemma NoAck(c: Conn, g: Segment)
    requires !g.ack
    ensures TakeAck(c, g) == c && AckedBytes(c, g) == 0
  {
  }

  lemma SendElsewhere(h: History, e: Event)
    requires SendInv(h) && InWindow(h.c, e) && !(Live(h.c) && e.Rx? && h.c.state == Established)
    ensures SendInv(Advance(h, e))
  {
    WrapSum(h.base as int + h.acked, 1);
    hide Wrap, AckedBytes, Pushed;
  }

  lemma SendStep(h: History, e: Event)
    requires SendInv(h) && InWindow(h.c, e)
    ensures SendInv(Advance(h, e))
  {
    hide SendInv, Advance, InWindow;
    if Live(h.c) && e.Rx? && h.c.state == Established {
      SendEstablished(h, e.seg);
    } else {
      SendElsewhere(h, e);
    }
  }

  lemma AckInWindow(c: Conn, g: Segment, n: int)
    requires g.ack && c.seqN == Wrap(n)
    requires Wrap(g.ackN as int - c.seqN) <= c.unacked && Wrap(g.ackN as int - c.seqN) < WORD_LIMIT / 2
    ensures AckedBytes(c, g) >= 0
    ensures TakeAck(c, g).unacked == c.unacked as int - AckedBytes(c, g)
    ensures g.ackN == Wrap(n + AckedBytes(c, g))
  {
    var d := Wrap(g.ackN as int - c.seqN);
    var q := WrapQuotient(g.ackN as int - c.seqN);
    var r := WrapQuotient(n);
    WrapUnique(n + d, g.ackN, r - q);
  }

  /** Over any run whose acknowledgements are in the window, the bytes sent are the bytes
      acknowledged and the bytes counted as unacknowledged, and our sequence number has moved past
      exactly the acknowledged ones. */
  lemma {:induction false} SendAccount(h: History, es: seq<Event>)
    requires SendInv(h) && AllInWindow(h.c, es)
    ensures SendInv(Record(h, es))
    decreases |es|
  {
    if es != [] {
      SendStep(h, es[0]);
      SendAccount(Advance(h, es[0]), es[1..]);
    }
  }

  /** tcp_tx_data returns when the unacknowledged count is zero (tcp.c:440), whatever the state is
      by then: every byte sent on the connection has been acknowledged. */
  lemma SendReturns(c: Conn, es: seq<Event>)
    requires c == Listening() || exists ip, port :: c == Connecting(ip, port)
    requires AllInWindow(c, es)
    requires Opened(Run(c, es).state) && Run(c, es).unacked == 0
    ensures var h := Record(Begin(c), es);
            h.sent == h.acked && Run(c, es).seqN == Wrap(h.base as int + h.sent + OwnFin(Run(c, es).state))
  {
    hide Wrap, AllInWindow, Record, Run;
    SendAccount(Begin(c), es);
    RecordRuns(Begin(c), es);
  }

  /** The peer acknowledges our SYN, and not something else, when it completes a passive open. */
  predicate HandshakeAcked(c: Conn, es: seq<Event>)
    decreases |es|
  {
    es == [] || ((c.state == SynReceived && es[0].Rx? && es[0].seg.ack ==> es[0].seg.ackN == FIRST_SEQ + 1)
                 && HandshakeAcked(Step(c, es[0]), es[1..]))
  }

  lemma {:induction false} BaseFixed(h: History, es: seq<Event>)
    requires HandshakeAcked(h.c, es) && (Opened(h.c.state) ==> h.base == FIRST_SEQ + 1)
    ensures Opened(Record(h, es).c.state) ==> Record(h, es).base == FIRST_SEQ + 1
    decreases |es|
  {
    if es != [] {
      if Step(h.c, es[0]).state != h.c.state {
        ChangesAreEdges(h.c, es[0]);
      }
      hide Wrap, Pushed, Signed;
      BaseFixed(Advance(h, es[0]), es[1..]);
    }
  }

  /** Our sequence number over every run of a new connection: our first number, one for our SYN, the
      bytes acknowledged, and one for our FIN if we closed first. */
  lemma SendNumber(c: Conn, es: seq<Event>)
    requires c == Listening() || exists ip, port :: c == Connecting(ip, port)
    requires AllInWindow(c, es) && HandshakeAcked(c, es) && Opened(Run(c, es).state)
    ensures var h := Record(Begin(c), es);
            Run(c, es).seqN == Wrap(1025 + h.acked + OwnFin(Run(c, es).state))
  {
    hide Wrap, AllInWindow, HandshakeAcked, Record, Run;
    SendAccount(Begin(c), es);
    BaseFixed(Begin(c), es);
    RecordRuns(Begin(c), es);
  }

  /** A FIN that we send first, with everything acknowledged, has the number after our last byte. */
  lemma FinNumber(c: Conn, es: seq<Event>)
    requires c == Listening() || exists ip, port :: c == Connecting(ip, port)
    requires AllInWindow(c, es) && HandshakeAcked(c, es)
    requires Run(c, es).state == Established && Run(c, es).unacked == 0
    ensures var d := Run(c, es);
            CloseReply(d) == FinAck(Wrap(1025 + Record(Begin(c), es).sent), d.ackN, Room(d))
  {
    hide Wrap, AllInWindow, HandshakeAcked, Record, Run;
    SendNumber(c, es);
    SendAccount(Begin(c), es);
    RecordRuns(Begin(c), es);
  }

  /** A new connection, whether it was opened or accepted. */
  lemma FreshConnections(ip: Word, port: nat)
    ensures Connecting(ip, port).peerIp == ip && Connecting(ip, port).peerPort == port
    ensures Connecting(ip, port).capacity == Listening().capacity == 127
    ensures Connecting(ip, port).seqN == Listening().seqN == 1024
    ensures Connecting(ip, port).ackN == Connecting(ip, port).window == 0
    ensures Listening() == Connecting(0, 0).(state := Listen, timeout := 0, counting := false)
    ensures AckInv(Begin(Listening())) && AckInv(Begin(Connecting(ip, port)))
    ensures SendInv(Begin(Listening())) && SendInv(Begin(Connecting(ip, port)))
  {
  }
}
