/** The connection block itself, updated in place (tcp.c). */
module TcpBlock {
  import opened Words
  import opened Checksum
  import opened CircularBuffers
  import opened Tcp

  /** Stopping the timer first makes no difference to what a segment does. */
  lemma TimerFirst(c: Conn, g: Segment)
    ensures SendsAck(StopTimer(c), g) == SendsAck(c, g)
    ensures Receive(StopTimer(c), g) == Receive(c, g)
  {
  }

  /** The states in which a segment does nothing more, or nothing at all any more. */
  lemma NoCase(c: Conn, g: Segment)
    requires c.state in {CloseWait, Closed, LastAck, TimeWait}
    ensures !SendsAck(c, g)
    ensures Receive(c, g) == if c.state == CloseWait then StopTimer(c).(halted := true) else StopTimer(c)
  {
  }

  class Tcb {
    var state: TcpState
    var curSeq: Word
    var curAck: Word
    var unacked: Word
    const rxBuf: CircularBuffer
    var timeout: nat
    var decrementTimeout: bool
    var timedOut: bool
    var hostWindow: nat
    var dstIp: Word
    var dstPort: nat
    var halted: bool
    var removed: bool

    ghost predicate Valid()
      reads this, rxBuf, rxBuf.buffer
    {
      rxBuf.Valid() && timeout < HALF
    }

    /** The connection that the fields describe. */
    ghost function Model(): Conn
      requires Valid()
      reads this, rxBuf, rxBuf.buffer
    {
      Conn(state, curSeq, curAck, unacked, rxBuf.Contents(), rxBuf.buffer.Length,
           timeout, decrementTimeout, timedOut, hostWindow, dstIp, dstPort, halted, removed)
    }

    /** The block that tcp_connect sets up. */
    constructor Connect(ip: Word, port: nat)
      ensures Valid() && Model() == Connecting(ip, port)
    {
      rxBuf := new CircularBuffer(TCP_BUF_SZ);
      state, curSeq, curAck, unacked := SynSent, FIRST_SEQ, 0, 0;
      timeout, decrementTimeout, timedOut := TCP_TIMEOUT, true, false;
      hostWindow, dstIp, dstPort, halted, removed := 0, ip, port, false, false;
    }

    /** The block that tcp_listen sets up. */
    constructor Accept()
      ensures Valid() && Model() == Listening()
    {
      rxBuf := new CircularBuffer(TCP_BUF_SZ);
      state, curSeq, curAck, unacked := Listen, FIRST_SEQ, 0, 0;
      timeout, decrementTimeout, timedOut := 0, false, false;
      hostWindow, dstIp, dstPort, halted, removed := 0, 0, 0, false, false;
    }

    method EnterTimeWait()
      modifies this`state, this`timeout, this`decrementTimeout
      ensures state == TimeWait && timeout == TCP_TIMEOUT && decrementTimeout
    {
      state, timeout, decrementTimeout := TimeWait, TCP_TIMEOUT, true;
    }

    /** The FIN_WAIT2 case, which FIN_WAIT1 falls into when none of its tests succeeds. */
    method FinWait2Case(g: Segment) returns (sendAck: bool)
      modifies this`state, this`timeout, this`decrementTimeout
      ensures sendAck == (g.fin && g.ack)
      ensures if g.fin && g.ack then state == TimeWait && timeout == TCP_TIMEOUT && decrementTimeout
              else state == old(state) && timeout == old(timeout) && decrementTimeout == old(decrementTimeout)
    {
      sendAck := false;
      if g.fin && g.ack {
        EnterTimeWait();
        sendAck := true;
      }
    }

    /** The SYN_SENT, LISTEN and SYN_RECEIVED cases. */
    method HandshakeCase(g: Segment) returns (sendAck: bool)
      requires Valid() && state in {SynSent, Listen, SynReceived}
      requires !decrementTimeout && !timedOut && timeout == 0
      modifies this`state, this`curSeq, this`curAck, this`hostWindow, this`dstIp, this`dstPort
      ensures Valid() && Model() == Receive(old(Model()), g)
      ensures sendAck == SendsAck(old(Model()), g)
    {
      hide Wrap;
      sendAck := false;
      if state == SynSent {
        if g.syn && g.ack {
          curSeq := Wrap(curSeq as int + 1);
          curAck := Wrap(g.seqN as int + 1);
          hostWindow := g.window;
          sendAck := true;
          state := Established;
        } else {
          state := Closed;
        }
      } else if state == Listen {
        if g.syn {
          dstIp := g.srcIp;
          curAck := Wrap(g.seqN as int + 1);
          dstPort := g.srcPort;
          state := SynReceived;
        }
      } else if g.ack {
        curSeq := g.ackN;
        state := Established;
      }
    }

    method FinWait2Only(g: Segment) returns (sendAck: bool)
      requires Valid() && state == FinWait2
      requires !decrementTimeout && !timedOut && timeout == 0
      modifies this`state, this`timeout, this`decrementTimeout
      ensures Valid() && Model() == Receive(old(Model()), g)
      ensures sendAck == SendsAck(old(Model()), g)
    {
      sendAck := FinWait2Case(g);
    }

    /** The FIN_WAIT1 case. */
    method FinWait1Case(g: Segment) returns (sendAck: bool)
      requires Valid() && state == FinWait1
      requires !decrementTimeout && !timedOut && timeout == 0
      modifies this`state, this`curAck, this`timeout, this`decrementTimeout
      ensures Valid() && Model() == Receive(old(Model()), g)
      ensures sendAck == SendsAck(old(Model()), g)
    {
      hide Wrap;
      if g.fin && g.ack && g.ackN == curSeq {
        curAck := Wrap(g.seqN as int + 1);
        sendAck := true;
        EnterTimeWait();
      } else if g.ack && g.ackN == curSeq {
        curAck := g.seqN;
        state := FinWait2;
        sendAck := false;
      } else if g.fin {
        curAck := Wrap(curAck as int + 1);
        sendAck := true;
        state := Closing;
      } else {
        sendAck := FinWait2Case(g);
      }
    }

    /** The CLOSING case: any segment ends it, and an acknowledgement number is overwritten by
        the flag (tcp.c:325-326). */
    method ClosingCase(g: Segment)
      requires Valid() && state == Closing
      requires !decrementTimeout && !timedOut && timeout == 0
      modifies this`state, this`curAck, this`timeout, this`decrementTimeout
      ensures Valid() && Model() == Receive(old(Model()), g) && !SendsAck(old(Model()), g)
    {
      if g.ack {
        curAck := 1;
      }
      EnterTimeWait();
    }

    method TakeAckStep(g: Segment) returns (noAckedBytes: int)
      requires Valid()
      modifies this`curSeq, this`unacked
      ensures Valid() && Model() == TakeAck(old(Model()), g)
      ensures noAckedBytes == AckedBytes(old(Model()), g)
    {
      hide Wrap;
      noAckedBytes := 0;
      if g.ack {
        noAckedBytes := Signed(Wrap(g.ackN as int - curSeq));
        if noAckedBytes > 0 {
          unacked := Wrap(unacked as int - noAckedBytes);
        }
        curSeq := g.ackN;
      }
    }

    method TakeDataStep(data: seq<Byte>)
      requires Valid()
      modifies this`curAck, rxBuf`head, rxBuf`freeSpace, rxBuf.buffer
      ensures Valid()
      ensures Model() == old(Model()).(
        ring := Pushed(old(Model()), data), ackN := Wrap(old(curAck) as int + |data|))
    {
      hide Wrap;
      rxBuf.Push(data);
      curAck := Wrap(curAck as int + |data|);
    }

    /** The ESTABLISHED case: acknowledgement, then FIN, then data. */
    method EstablishedCase(g: Segment) returns (sendAck: bool)
      requires Valid() && state == Established
      modifies this`state, this`curSeq, this`curAck, this`unacked, rxBuf`head, rxBuf`freeSpace, rxBuf.buffer
      requires !decrementTimeout && !timedOut && timeout == 0
      ensures Valid()
      ensures Model() == TakeData(TakeFin(TakeAck(old(Model()), g), g), g) == Receive(old(Model()), g)
      ensures sendAck == SendsAck(old(Model()), g)
    {
      hide Wrap, TakeAck, Pushed, AckedBytes;
      sendAck := false;
      var noAckedBytes := TakeAckStep(g);
      if g.fin {
        state := CloseWait;
        curAck := Wrap(curAck as int + 1);
        sendAck := true;
      }
      assert Model() == TakeFin(TakeAck(old(Model()), g), g);
      if |g.data| != 0 {
        TakeDataStep(g.data);
        sendAck := true;
      }
      if |g.data| == 0 && noAckedBytes == 0 {
        sendAck := true;
      }
    }

    /** tcp_rx_packet, from the point where the block is known. */
    method RxPacket(g: Segment) returns (reply: Reply)
      requires Valid() && !halted && !removed
      modifies this, rxBuf, rxBuf.buffer
      ensures Valid()
      ensures Model() == Receive(old(Model()), g)
      ensures reply == ReplyTo(old(Model()), g)
    {
      hide Receive, SendsAck;
      ghost var before := Model();
      if before.state in {CloseWait, Closed, LastAck, TimeWait} {
        NoCase(before, g);
      }
      decrementTimeout, timedOut, timeout := false, false, 0;
      if state == CloseWait {
        halted := true;
        return NoReply;
      }
      TimerFirst(before, g);
      var sendAck := false;
      match state {
        case SynSent => sendAck := HandshakeCase(g);
        case Listen => sendAck := HandshakeCase(g);
        case SynReceived => sendAck := HandshakeCase(g);
        case Established => sendAck := EstablishedCase(g);
        case FinWait1 => sendAck := FinWait1Case(g);
        case FinWait2 => sendAck := FinWait2Only(g);
        case Closing => ClosingCase(g);
        case _ =>
      }
      assert Model() == Receive(before, g);
      reply := if sendAck then Ack(curSeq, curAck, rxBuf.freeSpace) else NoReply;
    }

    /** tcp_close. */
    method CloseConnection() returns (reply: Reply)
      requires Valid()
      modifies this`state, this`curSeq
      ensures Valid()
      ensures Model() == Close(old(Model()))
      ensures reply == CloseReply(old(Model()))
    {
      reply := NoReply;
      if state == CloseWait {
        reply := FinAck(curSeq, curAck, rxBuf.freeSpace);
        state := LastAck;
      } else if state == Established {
        reply := FinAck(curSeq, curAck, rxBuf.freeSpace);
        curSeq := Wrap(curSeq as int + 1);
        state := FinWait1;
      }
    }

    /** The body of the loop in tcp_tick. */
    method TickBlock()
      requires Valid()
      modifies this`timeout, this`timedOut, this`decrementTimeout, this`removed
      ensures Valid()
      ensures !old(removed) ==> Model() == Tick(old(Model()))
    {
      if decrementTimeout {
        var was := timeout;
        timeout := if was == 0 then HALF - 1 else was - 1;
        if was == 0 {
          timedOut := true;
          decrementTimeout := false;
          if state == TimeWait {
            removed := true;
          }
        }
      }
    }

    /** tcp_tx_data up to its wait. */
    method TxData(len: nat)
      requires Valid()
      modifies this`unacked
      ensures Valid()
      ensures Model() == Send(old(Model()), len)
    {
      unacked := Wrap(unacked as int + len);
    }

    /** One round of tcp_rx_data, entered when its wait is over: moves bytes to `dst`, or gives up
        in CLOSE_WAIT. */
    method RxRound(dst: array<Byte>, at: nat, len: nat) returns (taken: nat, gaveUp: bool)
      requires Valid() && at + len <= dst.Length && dst != rxBuf.buffer
      requires rxBuf.Contents() != [] || state == CloseWait
      modifies rxBuf`tail, rxBuf`freeSpace, dst
      ensures Valid()
      ensures gaveUp <==> state == CloseWait
      ensures taken == Taken(old(Model()), len) && Model() == Read(old(Model()), len)
      ensures dst[..] == old(dst[..at]) + old(Model()).ring[..taken] + old(dst[at + taken..])
      ensures len > 0 && !gaveUp ==> taken > 0
    {
      if state == CloseWait {
        return 0, true;
      }
      var inBuf := rxBuf.Usage();
      taken := if inBuf > len then len else inBuf;
      gaveUp := false;
      rxBuf.Pop(dst, at, taken);
    }
  }
}
