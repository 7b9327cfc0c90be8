/** Wrapping a payload in UDP, IPv4 and Ethernet headers, and the receive path that takes them off
again (udp.c, ipv4.c, ethernet.c, protocol.c). */
module Encapsulation {
  import opened Words
  import opened Checksum

  const ETHERTYPE_IP := 0x0800
  const ETHERTYPE_ARP := 0x0806
  const IP_PROTO_TCP := 0x6
  const IP_PROTO_UDP := 0x11
  const OUR_IP_ADDRESS: Word := 0xC0A800ab
  const DEFAULT_TTL := 10

  const ETHER_HEADER := 14
  const UDP_HEADER := 8

  // ---------------------------------------------------------------------------------------
  // Fields in network and host order
  // ---------------------------------------------------------------------------------------

  type Half = h: int | 0 <= h < HALF

  function Net16(v: Half): (b: seq<Byte>)
    ensures |b| == 2
  {
    [v / 256, v % 256]
  }

  function Net32(v: Word): (b: seq<Byte>)
    ensures |b| == 4
  {
    [v / 0x100_0000, v / 0x1_0000 % 256, v / 256 % 256, v % 256]
  }

  /** The host reads a field least significant byte first. */
  function Host16(b: seq<Byte>, at: nat): Half
    requires at + 2 <= |b|
  {
    (b[at] as int) + 256 * (b[at + 1] as int)
  }

  function Host32(b: seq<Byte>, at: nat): Word
    requires at + 4 <= |b|
  {
    (b[at] as int) + 256 * (b[at + 1] as int) + 0x1_0000 * (b[at + 2] as int) + 0x100_0000 * (b[at + 3] as int)
  }

  /** The bytes of a field in the other order. */
  function Swapped16(b: seq<Byte>, at: nat): (r: seq<Byte>)
    requires at + 2 <= |b|
    ensures |r| == |b| && forall k :: 0 <= k < |b| && !(at <= k < at + 2) ==> r[k] == b[k]
  {
    b[at := b[at + 1]][at + 1 := b[at]]
  }

  function Swapped32(b: seq<Byte>, at: nat): (r: seq<Byte>)
    requires at + 4 <= |b|
    ensures |r| == |b| && forall k :: 0 <= k < |b| && !(at <= k < at + 4) ==> r[k] == b[k]
  {
    b[at := b[at + 3]][at + 1 := b[at + 2]][at + 2 := b[at + 1]][at + 3 := b[at]]
  }

  /** swap_endian16 on the value that the host reads: the bytes in memory are swapped. */
  lemma SwappedValue16(b: seq<Byte>, at: nat, v: bv16)
    requires at + 2 <= |b| && Host16(b, at) == Number(v)
    ensures Host16(Swapped16(b, at), at) == Number(Swap16(v)) == Swap(Host16(b, at))
  {
    hide Number, Swap, Swap16;
    SwapJoin(b[at], b[at + 1]);
    SwapIsSwap16(v);
  }

  /** swap_endian32 on the word that the host reads from its bytes in memory. */
  lemma SwappedBytes32(b: seq<Byte>, at: nat, v: bv32)
    requires at + 4 <= |b| && forall i :: 0 <= i < 4 ==> b[at + i] as int == Byte32(v, i) as int
    ensures forall i :: 0 <= i < 4 ==> Swapped32(b, at)[at + i] as int == Byte32(Swap32(v), i) as int
  {
    hide Byte32, Swap32;
    forall i | 0 <= i < 4
      ensures Swapped32(b, at)[at + i] as int == Byte32(Swap32(v), i) as int
    {
      Swap32Reverses(v, i);
      assert Swapped32(b, at)[at + i] == b[at + (3 - i)];
    }
  }

  /** Reading a network-order field after swapping it in place gives its value. */
  lemma NetRead16(b: seq<Byte>, at: nat, v: Half)
    requires at + 2 <= |b| && b[at..at + 2] == Net16(v)
    ensures Host16(Swapped16(b, at), at) == v
  {
    assert b[at] == b[at..at + 2][0] && b[at + 1] == b[at..at + 2][1];
  }

  lemma NetRead32(b: seq<Byte>, at: nat, v: Word)
    requires at + 4 <= |b| && b[at..at + 4] == Net32(v)
    ensures Host32(Swapped32(b, at), at) == v
  {
    var n := b[at..at + 4];
    assert b[at] == n[0] && b[at + 1] == n[1] && b[at + 2] == n[2] && b[at + 3] == n[3];
    var q1 := v / 256;
    var q2 := q1 / 256;
    assert v / 0x1_0000 == q2 && v / 0x100_0000 == q2 / 256;
  }

  // ---------------------------------------------------------------------------------------
  // Building
  // ---------------------------------------------------------------------------------------

  /** udp_xmit_packet. */
  function UdpPacket(port: Half, payload: seq<Byte>): seq<Byte>
    requires UDP_HEADER + |payload| < HALF
  {
    [0, 0] + Net16(port) + Net16(UDP_HEADER + |payload|) + [0, 0] + payload
  }

  /** The IPv4 header with its checksum field still zero. */
  function IpHeaderZeroed(protocol: Byte, dst: Word, size: Half): (h: seq<Byte>)
    ensures |h| == IP_HEADER
  {
    [0x45, 0] + Net16(size) + [0, 0, 0, 0, DEFAULT_TTL, protocol, 0, 0] + Net32(OUR_IP_ADDRESS) + Net32(dst)
  }

  function IpHeader(protocol: Byte, dst: Word, size: Half): (h: seq<Byte>)
    ensures |h| == IP_HEADER
  {
    var h := IpHeaderZeroed(protocol, dst, size);
    Store(h, IP_CHECKSUM, FieldFor(SumLE(h)))
  }

  /** ip4_do_xmit_packet. */
  function IpPacket(protocol: Byte, dst: Word, payload: seq<Byte>): seq<Byte>
    requires IP_HEADER + |payload| < HALF
  {
    IpHeader(protocol, dst, IP_HEADER + |payload|) + payload
  }

  /** ether_xmit_payload. */
  function Frame(dhost: seq<Byte>, shost: seq<Byte>, etherType: Half, payload: seq<Byte>): seq<Byte>
    requires |dhost| == 6 && |shost| == 6
  {
    dhost + shost + Net16(etherType) + payload
  }

  /** The built header's checksum verifies. */
  lemma IpHeaderVerifies(protocol: Byte, dst: Word, size: Half)
    ensures Fold(SumLE(IpHeader(protocol, dst, size))) == ONES
  {
    ChecksumVerifies(IpHeaderZeroed(protocol, dst, size), IP_CHECKSUM);
  }

  // ---------------------------------------------------------------------------------------
  // Receiving
  // ---------------------------------------------------------------------------------------

  datatype Protocol = Ethernet | Ipv4 | Udp | TcpProto | ArpProto | Drop

  /** A packet_t: the frame, the cursor with the length that is left, and the next handler. */
  datatype Pkt = Pkt(data: seq<Byte>, cur: nat, len: int, handler: Protocol, srcIp: Word, dstIp: Word)

  /** A udp_listener: `got` is what its buffer of `size` bytes holds so far. */
  datatype Listener = Listener(port: Half, size: nat, got: seq<Byte>)

  function Received(frame: seq<Byte>): Pkt {
    Pkt(frame, 0, |frame|, Ethernet, 0, 0)
  }

  /** The fixed part of the header that the handler reads lies in the frame.  The code does not
      check this. */
  predicate HeaderInside(p: Pkt) {
    match p.handler
    case Ethernet => p.cur + ETHER_HEADER <= |p.data|
    case Ipv4 => p.cur + IP_HEADER <= |p.data|
    case Udp => p.cur + UDP_HEADER <= |p.data| && p.len == |p.data| - p.cur
    case _ => true
  }

  function EthernetStep(p: Pkt): (r: Pkt)
    requires p.cur + ETHER_HEADER <= |p.data|
    ensures r.handler in {Ipv4, ArpProto, Drop}
  {
    var data := Swapped16(p.data, p.cur + 12);
    var etherType := Host16(data, p.cur + 12);
    p.(data := data, cur := p.cur + ETHER_HEADER, len := p.len - ETHER_HEADER,
       handler := if etherType == ETHERTYPE_ARP then ArpProto else if etherType == ETHERTYPE_IP then Ipv4 else Drop)
  }

  /** ip4_swap_endian on the header at `at`. */
  function IpSwapped(b: seq<Byte>, at: nat): (r: seq<Byte>)
    requires at + IP_HEADER <= |b|
    ensures |r| == |b|
  {
    Swapped32(Swapped32(Swapped16(Swapped16(b, at + 2), at + 4), at + 12), at + 16)
  }

  function IpHandler(ttl: Byte, dst: Word, protocol: Byte): (h: Protocol)
    ensures h in {Udp, TcpProto, Drop}
  {
    if ttl == 0 || dst != OUR_IP_ADDRESS then Drop
    else if protocol == IP_PROTO_TCP then TcpProto
    else if protocol == IP_PROTO_UDP then Udp
    else Drop
  }

  function IpStep(p: Pkt): (r: Pkt)
    requires p.cur + IP_HEADER <= |p.data|
    ensures r.handler in {Udp, TcpProto, Drop}
  {
    var data := IpSwapped(p.data, p.cur);
    var headerLen := (data[p.cur] % 16) * 4;
    var dst := Host32(data, p.cur + 16);
    var handler := IpHandler(data[p.cur + 8], dst, data[p.cur + 9]);
    var q := p.(data := data, cur := p.cur + headerLen, len := p.len - headerLen, handler := handler);
    if data[p.cur + 8] == 0 || dst != OUR_IP_ADDRESS then q
    else q.(srcIp := Host32(data, p.cur + 12), dstIp := dst)
  }

  function UdpSwapped(b: seq<Byte>, at: nat): (r: seq<Byte>)
    requires at + UDP_HEADER <= |b|
    ensures |r| == |b|
  {
    Swapped16(Swapped16(b, at + 2), at + 4)
  }

  function UdpStep(p: Pkt): Pkt
    requires p.cur + UDP_HEADER <= |p.data|
  {
    p.(data := UdpSwapped(p.data, p.cur), cur := p.cur + UDP_HEADER, len := p.len - UDP_HEADER, handler := Drop)
  }

  /** What a listener on the port takes: as much of the payload as its buffer has room for. */
  function Deliver(l: Listener, port: Half, payload: seq<Byte>): Listener {
    if l.port != port || l.size < |l.got| then l
    else if |payload| < l.size - |l.got| then l.(got := l.got + payload)
    else l.(got := l.got + payload[..l.size - |l.got|])
  }

  function DeliverAll(ls: seq<Listener>, port: Half, payload: seq<Byte>): (r: seq<Listener>)
    ensures |r| == |ls|
    ensures forall i :: 0 <= i < |ls| ==> r[i] == Deliver(ls[i], port, payload)
  {
    seq(|ls|, i requires 0 <= i < |ls| => Deliver(ls[i], port, payload))
  }

  /** One call of a handler.  ARP and TCP packets end their way here; what their handlers do with
      them is modelled apart. */
  function Handle(p: Pkt): (r: Pkt)
    requires HeaderInside(p)
    ensures Level(p.handler) < Level(r.handler) || p.handler == r.handler == Drop
  {
    match p.handler
    case Ethernet => EthernetStep(p)
    case Ipv4 => IpStep(p)
    case Udp => UdpStep(p)
    case _ => p.(handler := Drop)
  }

  function Heard(p: Pkt, ls: seq<Listener>): seq<Listener>
    requires HeaderInside(p)
  {
    if p.handler != Udp then ls
    else DeliverAll(ls, Host16(UdpSwapped(p.data, p.cur), p.cur + 2), p.data[p.cur + UDP_HEADER..])
  }

  /** Every handler passes the packet on to a higher layer, or drops it. */
  function Level(h: Protocol): nat {
    match h
    case Ethernet => 0
    case Ipv4 => 1
    case Udp => 2
    case TcpProto => 2
    case ArpProto => 2
    case Drop => 3
  }

  /** The handlers that a packet meets find their headers inside the frame. */
  predicate Readable(p: Pkt, registered: seq<Protocol>)
    decreases 3 - Level(p.handler)
  {
    p.handler in registered && p.handler != Drop ==> HeaderInside(p) && Readable(Handle(p), registered)
  }

  /** What the listeners have after the dispatch loop of rx_task. */
  function Dispatch(p: Pkt, ls: seq<Listener>, registered: seq<Protocol>): seq<Listener>
    requires Readable(p, registered)
    decreases 3 - Level(p.handler)
  {
    if p.handler == Drop || p.handler !in registered then ls
    else Dispatch(Handle(p), Heard(p, ls), registered)
  }

  // ---------------------------------------------------------------------------------------
  // The round trip
  // ---------------------------------------------------------------------------------------

  /** Whatever follows the frame, such as the padding of a short one, goes up with its payload. */
  lemma FrameStep(p: Pkt, dhost: seq<Byte>, shost: seq<Byte>, rest: seq<Byte>, pad: seq<Byte>)
    requires |dhost| == 6 && |shost| == 6 && p.handler == Ethernet
    requires p.cur <= |p.data| && p.data[p.cur..] == Frame(dhost, shost, ETHERTYPE_IP, rest) + pad
    ensures HeaderInside(p)
    ensures var q := Handle(p);
            && q.handler == Ipv4 && q.cur <= |q.data| && q.data[q.cur..] == rest + pad
            && q.len - (|q.data| - q.cur) == p.len - (|p.data| - p.cur)
  {
    var f := p.data[p.cur..];
    assert p.data[p.cur + 12..p.cur + 14] == f[12..14] == Net16(ETHERTYPE_IP);
    NetRead16(p.data, p.cur + 12, ETHERTYPE_IP);
    assert f[14..] == rest + pad;
  }

  lemma IpParts(protocol: Byte, dst: Word, rest: seq<Byte>)
    requires IP_HEADER + |rest| < HALF
    ensures var h := IpPacket(protocol, dst, rest);
            && |h| == IP_HEADER + |rest|
            && h[0] == 0x45 && h[8] == DEFAULT_TTL && h[9] == protocol
            && h[12..16] == Net32(OUR_IP_ADDRESS) && h[16..20] == Net32(dst) && h[IP_HEADER..] == rest
  {
  }

  /** The total length in the header is not looked at: what follows the packet goes up with it. */
  lemma PacketStep(p: Pkt, protocol: Byte, dst: Word, rest: seq<Byte>, pad: seq<Byte>)
    requires IP_HEADER + |rest| < HALF && p.handler == Ipv4
    requires p.cur <= |p.data| && p.data[p.cur..] == IpPacket(protocol, dst, rest) + pad
    ensures HeaderInside(p)
    ensures var q := Handle(p);
            && q.handler == (if dst != OUR_IP_ADDRESS then Drop else if protocol == 0x6 then TcpProto
                             else if protocol == 0x11 then Udp else Drop)
            && (dst == OUR_IP_ADDRESS ==> q.srcIp == OUR_IP_ADDRESS && q.dstIp == dst)
            && q.cur <= |q.data| && q.data[q.cur..] == rest + pad
            && q.len - (|q.data| - q.cur) == p.len - (|p.data| - p.cur)
  {
    hide IpPacket, Host32, Swapped16, Swapped32;
    var h, c := p.data[p.cur..], p.cur;
    IpParts(protocol, dst, rest);
    IpSwappedParts(p.data, c, dst);
    var i := IpPacket(protocol, dst, rest);
    assert h[0] == i[0] && h[8] == i[8] && h[9] == i[9];
    assert h[16..20] == i[16..20] == p.data[c + 16..c + 20];
    assert h[12..16] == i[12..16] == p.data[c + 12..c + 16];
    IpSwappedSource(p.data, c, OUR_IP_ADDRESS);
    assert h[IP_HEADER..] == i[IP_HEADER..] + pad == p.data[c + IP_HEADER..];
  }

  lemma IpSwappedParts(b: seq<Byte>, at: nat, dst: Word)
    requires at + IP_HEADER <= |b|
    ensures var r := IpSwapped(b, at);
            && r[at] == b[at] && r[at + 8] == b[at + 8] && r[at + 9] == b[at + 9]
            && r[at + IP_HEADER..] == b[at + IP_HEADER..]
            && (b[at + 16..at + 20] == Net32(dst) ==> Host32(r, at + 16) == dst)
  {
    hide Host32, Swapped16, Swapped32, Net32;
    var before := Swapped32(Swapped16(Swapped16(b, at + 2), at + 4), at + 12);
    assert before[at + 16..at + 20] == b[at + 16..at + 20];
    if b[at + 16..at + 20] == Net32(dst) {
      NetRead32(before, at + 16, dst);
    }
  }

  lemma IpSwappedSource(b: seq<Byte>, at: nat, src: Word)
    requires at + IP_HEADER <= |b| && b[at + 12..at + 16] == Net32(src)
    ensures Host32(IpSwapped(b, at), at + 12) == src
  {
    hide Net32;
    var before := Swapped16(Swapped16(b, at + 2), at + 4);
    assert before[at + 12..at + 16] == b[at + 12..at + 16];
    NetRead32(before, at + 12, src);
    var once := Swapped32(before, at + 12);
    assert Host32(Swapped32(once, at + 16), at + 12) == Host32(once, at + 12);
  }

  lemma IpSwappedHalves(b: seq<Byte>, at: nat)
    requires at + IP_HEADER <= |b|
    ensures Host16(IpSwapped(b, at), at + 2) == Swap(Host16(b, at + 2))
    ensures Host16(IpSwapped(b, at), at + 4) == Swap(Host16(b, at + 4))
  {
    hide Swap, Swapped32;
    var r := IpSwapped(b, at);
    assert r[at + 2] == b[at + 3] && r[at + 3] == b[at + 2];
    assert r[at + 4] == b[at + 5] && r[at + 5] == b[at + 4];
    SwapJoin(b[at + 2], b[at + 3]);
    SwapJoin(b[at + 4], b[at + 5]);
  }

  /** What the IPv4 layer reads of any header: it accepts exactly a packet for this host whose time
      to live has not run out, remembers source and destination, and hands it on by protocol. */
  lemma Ipv4Law(p: Pkt, src: Word, dst: Word)
    requires p.handler == Ipv4 && HeaderInside(p)
    requires p.data[p.cur + 12..p.cur + 16] == Net32(src) && p.data[p.cur + 16..p.cur + 20] == Net32(dst)
    ensures var q := Handle(p);
            && q.cur == p.cur + 4 * (p.data[p.cur] % 16) && q.len == p.len - 4 * (p.data[p.cur] % 16)
            && (if p.data[p.cur + 8] == 0 || dst != OUR_IP_ADDRESS
                then q.handler == Drop && q.srcIp == p.srcIp && q.dstIp == p.dstIp
                else q.srcIp == src && q.dstIp == dst
                     && (q.handler == TcpProto <==> p.data[p.cur + 9] == 0x6)
                     && (q.handler == Udp <==> p.data[p.cur + 9] == 0x11)
                     && (q.handler == Drop <==> p.data[p.cur + 9] !in {0x6, 0x11}))
            && Host16(q.data, p.cur + 2) == Swap(Host16(p.data, p.cur + 2))
            && Host16(q.data, p.cur + 4) == Swap(Host16(p.data, p.cur + 4))
            && Host32(q.data, p.cur + 12) == src && Host32(q.data, p.cur + 16) == dst
            && q.data[..p.cur] == p.data[..p.cur] && q.data[p.cur + IP_HEADER..] == p.data[p.cur + IP_HEADER..]
  {
    hide Host16, Host32, Swapped16, Swapped32, Net32, Swap;
    IpSwappedParts(p.data, p.cur, dst);
    IpSwappedSource(p.data, p.cur, src);
    IpSwappedHalves(p.data, p.cur);
    assert IpSwapped(p.data, p.cur)[..p.cur] == p.data[..p.cur];
  }

  /** What the Ethernet layer reads of any header: the type decides who is next. */
  lemma EthernetLaw(p: Pkt, etherType: Half)
    requires p.handler == Ethernet && HeaderInside(p)
    requires p.data[p.cur + 12..p.cur + 14] == Net16(etherType)
    ensures var q := Handle(p);
            && q.cur == p.cur + 14 && q.len == p.len - 14
            && (q.handler == Ipv4 <==> etherType == 0x0800)
            && (q.handler == ArpProto <==> etherType == 0x0806)
            && (q.handler == Drop <==> etherType !in {0x0800, 0x0806})
            && Host16(q.data, p.cur + 12) == etherType
            && q.data[..p.cur + 12] == p.data[..p.cur + 12] && q.data[q.cur..] == p.data[q.cur..]
  {
    NetRead16(p.data, p.cur + 12, etherType);
  }

  /** What the UDP layer does with any datagram: its port decides who gets the rest. */
  lemma UdpLaw(p: Pkt, port: Half, length: Half, ls: seq<Listener>)
    requires p.handler == Udp && HeaderInside(p)
    requires p.data[p.cur + 2..p.cur + 4] == Net16(port) && p.data[p.cur + 4..p.cur + 6] == Net16(length)
    ensures var q := Handle(p);
            && q.handler == Drop && q.cur == p.cur + 8 && q.len == p.len - 8
            && Host16(q.data, p.cur + 2) == port && Host16(q.data, p.cur + 4) == length
            && q.data[q.cur..] == p.data[q.cur..]
            && Heard(p, ls) == DeliverAll(ls, port, p.data[q.cur..])
  {
    NetRead16(p.data, p.cur + 2, port);
    var once := Swapped16(p.data, p.cur + 2);
    assert once[p.cur + 4..p.cur + 6] == p.data[p.cur + 4..p.cur + 6];
    NetRead16(once, p.cur + 4, length);
    assert Host16(Swapped16(once, p.cur + 4), p.cur + 2) == Host16(once, p.cur + 2);
  }

  /** The numbers that the wire carries in its bytes, most significant first. */
  function Wire16(b: seq<Byte>, at: nat): nat
    requires at + 2 <= |b|
  {
    256 * (b[at] as int) + (b[at + 1] as int)
  }

  function Wire32(b: seq<Byte>, at: nat): nat
    requires at + 4 <= |b|
  {
    0x1_0000 * Wire16(b, at) + Wire16(b, at + 2)
  }

  lemma WireIs16(b: seq<Byte>, at: nat, v: Half)
    requires at + 2 <= |b| && b[at..at + 2] == Net16(v)
    ensures Wire16(b, at) == v
  {
    assert b[at] == b[at..at + 2][0] && b[at + 1] == b[at..at + 2][1];
  }

  lemma WireIs32(b: seq<Byte>, at: nat, v: Word)
    requires at + 4 <= |b| && b[at..at + 4] == Net32(v)
    ensures Wire32(b, at) == v
  {
    var n := b[at..at + 4];
    assert b[at] == n[0] && b[at + 1] == n[1] && b[at + 2] == n[2] && b[at + 3] == n[3];
    var q1 := v / 256;
    var q2 := q1 / 256;
    assert v / 0x1_0000 == q2 && v / 0x100_0000 == q2 / 256;
  }

  /** The fields of an Ethernet frame, in their places on the wire. */
  lemma FrameFields(dhost: seq<Byte>, shost: seq<Byte>, etherType: Half, payload: seq<Byte>)
    requires |dhost| == 6 && |shost| == 6
    ensures var f := Frame(dhost, shost, etherType, payload);
            && |f| == 14 + |payload| && f[..6] == dhost && f[6..12] == shost
            && Wire16(f, 12) == etherType && f[14..] == payload
  {
    hide Net16, Wire16;
    var f := Frame(dhost, shost, etherType, payload);
    assert f[12..14] == Net16(etherType);
    WireIs16(f, 12, etherType);
  }

  /** The fields of an IPv4 packet that this host sends (section 3.1 of RFC 791). */
  lemma PacketFields(protocol: Byte, dst: Word, payload: seq<Byte>)
    requires IP_HEADER + |payload| < HALF
    ensures var h := IpPacket(protocol, dst, payload);
            && |h| == 20 + |payload| && h[0] == 0x45 && h[1] == 0
            && Wire16(h, 2) == |h| && Wire16(h, 4) == 0 && Wire16(h, 6) == 0
            && h[8] == 10 && h[9] == protocol
            && Wire32(h, 12) == 0xC0A800ab && Wire32(h, 16) == dst && h[20..] == payload
  {
    hide FieldFor, SumLE, Net16, Net32, Wire32;
    var h := IpPacket(protocol, dst, payload);
    assert h[4] == 0 && h[5] == 0 && h[6] == 0 && h[7] == 0;
    assert h[2..4] == Net16(IP_HEADER + |payload|);
    assert h[12..16] == Net32(OUR_IP_ADDRESS) && h[16..20] == Net32(dst);
    WireIs16(h, 2, IP_HEADER + |payload|);
    WireIs32(h, 12, OUR_IP_ADDRESS);
    WireIs32(h, 16, dst);
  }

  /** The fields of a UDP datagram that this host sends: no source port and no checksum. */
  lemma DatagramFields(port: Half, payload: seq<Byte>)
    requires UDP_HEADER + |payload| < HALF
    ensures var d := UdpPacket(port, payload);
            && |d| == 8 + |payload| && Wire16(d, 0) == 0 && Wire16(d, 2) == port
            && Wire16(d, 4) == |d| && Wire16(d, 6) == 0 && d[8..] == payload
  {
    hide Net16;
    var d := UdpPacket(port, payload);
    assert d[2..4] == Net16(port) && d[4..6] == Net16(UDP_HEADER + |payload|);
    WireIs16(d, 2, port);
    WireIs16(d, 4, UDP_HEADER + |payload|);
  }

  /** The length in the header is not looked at: what follows the datagram is delivered with it. */
  lemma DatagramStep(p: Pkt, port: Half, payload: seq<Byte>, pad: seq<Byte>, ls: seq<Listener>)
    requires UDP_HEADER + |payload| < HALF && p.handler == Udp
    requires p.cur <= |p.data| && p.data[p.cur..] == UdpPacket(port, payload) + pad && p.len == |p.data| - p.cur
    ensures HeaderInside(p) && Handle(p).handler == Drop
    ensures Heard(p, ls) == DeliverAll(ls, port, payload + pad)
  {
    hide UdpPacket;
    UdpParts(port, payload);
    var c := p.cur;
    var d := UdpPacket(port, payload);
    assert p.data[c..][2..4] == d[2..4] == p.data[c + 2..c + 4];
    assert p.data[c..][UDP_HEADER..] == d[UDP_HEADER..] + pad == p.data[c + UDP_HEADER..];
    NetRead16(p.data, c + 2, port);
    var once := Swapped16(p.data, c + 2);
    assert Host16(Swapped16(once, c + 4), c + 2) == Host16(once, c + 2);
  }

  lemma UdpParts(port: Half, payload: seq<Byte>)
    requires UDP_HEADER + |payload| < HALF
    ensures var h := UdpPacket(port, payload);
            |h| == UDP_HEADER + |payload| && h[2..4] == Net16(port) && h[UDP_HEADER..] == payload
  {
  }

  /** The frame that the builders make of a payload for UDP port `port` of this host. */
  function UdpFrame(dhost: seq<Byte>, shost: seq<Byte>, port: Half, payload: seq<Byte>): seq<Byte>
    requires |dhost| == 6 && |shost| == 6 && IP_HEADER + UDP_HEADER + |payload| < HALF
  {
    Frame(dhost, shost, ETHERTYPE_IP, IpPacket(IP_PROTO_UDP, OUR_IP_ADDRESS, UdpPacket(port, payload)))
  }

  /** A payload sent to this host by UDP comes back on the same port, followed by whatever bytes
      follow its frame: the listeners end as if those had been delivered to them directly.  With no
      padding, that is the payload alone. */
  lemma RoundTrip(dhost: seq<Byte>, shost: seq<Byte>, port: Half, payload: seq<Byte>, pad: seq<Byte>,
                  ls: seq<Listener>, registered: seq<Protocol>)
    requires |dhost| == 6 && |shost| == 6
    requires IP_HEADER + UDP_HEADER + |payload| < HALF
    requires Ethernet in registered && Ipv4 in registered && Udp in registered
    ensures var p := Received(UdpFrame(dhost, shost, port, payload) + pad);
            Readable(p, registered) && Dispatch(p, ls, registered) == DeliverAll(ls, port, payload + pad)
  {
    hide EthernetStep, IpStep, UdpStep, Frame, IpPacket, UdpPacket, Heard, DeliverAll, Handle;
    var d := UdpPacket(port, payload);
    UdpParts(port, payload);
    var i := IpPacket(IP_PROTO_UDP, OUR_IP_ADDRESS, d);
    var p := Received(Frame(dhost, shost, ETHERTYPE_IP, i) + pad);
    assert p.data[0..] == p.data;
    FrameStep(p, dhost, shost, i, pad);
    var q := Handle(p);
    PacketStep(q, IP_PROTO_UDP, OUR_IP_ADDRESS, d, pad);
    var r := Handle(q);
    DatagramStep(r, port, payload, pad, ls);
    NotUdp(p, ls);
    NotUdp(q, ls);
    DispatchDropped(Handle(r), Heard(r, ls), registered);
    DispatchStep(r, ls, registered);
    DispatchStep(q, ls, registered);
    DispatchStep(p, ls, registered);
  }

  lemma DispatchDropped(p: Pkt, ls: seq<Listener>, registered: seq<Protocol>)
    requires p.handler == Drop
    ensures Readable(p, registered) && Dispatch(p, ls, registered) == ls
  {
  }

  /** One round of the dispatch loop. */
  lemma DispatchStep(p: Pkt, ls: seq<Listener>, registered: seq<Protocol>)
    requires p.handler in registered && p.handler != Drop
    requires HeaderInside(p) && Readable(Handle(p), registered)
    ensures Readable(p, registered)
    ensures Dispatch(p, ls, registered) == Dispatch(Handle(p), Heard(p, ls), registered)
  {
    hide Handle, Heard;
  }

  lemma NotUdp(p: Pkt, ls: seq<Listener>)
    requires HeaderInside(p) && p.handler != Udp
    ensures Heard(p, ls) == ls
  {
  }

  /** A listener on the port with room for it receives the payload exactly. */
  lemma ListenerWithRoom(ls: seq<Listener>, port: Half, payload: seq<Byte>, i: nat)
    requires i < |ls| && |ls[i].got| <= ls[i].size
    ensures DeliverAll(ls, port, payload)[i] == ls[i].(got := ls[i].got + payload)
            <==> payload == [] || (ls[i].port == port && |ls[i].got| + |payload| <= ls[i].size)
  {
    var l := ls[i];
    if payload != [] {
      assert |l.got + payload| > |l.got|;
    } else {
      assert l.got + payload == l.got;
    }
    if |payload| >= l.size - |l.got| {
      assert |payload[..l.size - |l.got|]| == l.size - |l.got|;
      assert |payload| == l.size - |l.got| ==> payload[..l.size - |l.got|] == payload;
      assert |l.got + payload[..l.size - |l.got|]| == l.size;
    }
  }

  /** Every listener on the port takes the start of the payload, as far as it has room; all others
      stay as they are. */
  lemma ListenerFills(ls: seq<Listener>, port: Half, payload: seq<Byte>, i: nat)
    requires i < |ls| && |ls[i].got| <= ls[i].size
    ensures var l, l' := ls[i], DeliverAll(ls, port, payload)[i];
            && (l.port != port ==> l' == l)
            && (l.port == port ==>
                  && l' == l.(got := l'.got) && l'.got <= l.got + payload && l.got <= l'.got
                  && |l'.got| == if |l.got| + |payload| < l.size then |l.got| + |payload| else l.size)
  {
    var l, n := ls[i], ls[i].size - |ls[i].got|;
    if |payload| >= n {
      assert l.got + payload == (l.got + payload[..n]) + payload[n..];
    }
  }

  /** A packet for a protocol that nobody registered is dropped unread. */
  lemma Unregistered(p: Pkt, ls: seq<Listener>, registered: seq<Protocol>)
    requires p.handler !in registered
    ensures Readable(p, registered) && Dispatch(p, ls, registered) == ls
  {
  }

  // ---------------------------------------------------------------------------------------
  // In place
  // ---------------------------------------------------------------------------------------

  method SwapAt16(buf: array<Byte>, at: nat)
    requires at + 2 <= buf.Length
    modifies buf
    ensures buf[..] == Swapped16(old(buf[..]), at)
  {
    buf[at], buf[at + 1] := buf[at + 1], buf[at];
  }

  method SwapAt32(buf: array<Byte>, at: nat)
    requires at + 4 <= buf.Length
    modifies buf
    ensures buf[..] == Swapped32(old(buf[..]), at)
  {
    buf[at], buf[at + 1], buf[at + 2], buf[at + 3] := buf[at + 3], buf[at + 2], buf[at + 1], buf[at];
  }

  /** A received packet, whose headers are byte-swapped in place on its way up. */
  class Packet {
    const data: array<Byte>
    var cur: nat
    var len: int
    var handler: Protocol
    var srcIp: Word
    var dstIp: Word

    ghost function Model(): Pkt
      reads this, data
    {
      Pkt(data[..], cur, len, handler, srcIp, dstIp)
    }

    /** packet_create with packet_inject: the whole frame, for the Ethernet layer. */
    constructor (frame: array<Byte>)
      ensures data == frame && Model() == Received(frame[..])
    {
      data := frame;
      cur, len, handler, srcIp, dstIp := 0, frame.Length, Ethernet, 0, 0;
    }

    /** ethernet_rx_pkt. */
    method EthernetRx()
      requires handler == Ethernet && HeaderInside(Model())
      modifies this`cur, this`len, this`handler, data
      ensures Model() == EthernetStep(old(Model()))
    {
      var header := cur;
      cur := cur + ETHER_HEADER;
      len := len - ETHER_HEADER;
      SwapAt16(data, header + 12);
      var etherType := Host16(data[..], header + 12);
      if etherType == ETHERTYPE_ARP {
        handler := ArpProto;
      } else if etherType == ETHERTYPE_IP {
        handler := Ipv4;
      } else {
        handler := Drop;
      }
    }

    /** ipv4_rx_packet. */
    method Ipv4Rx()
      requires handler == Ipv4 && HeaderInside(Model())
      modifies this, data
      ensures Model() == IpStep(old(Model()))
    {
      hide Swapped16, Swapped32, Host32;
      var header := cur;
      SwapAt16(data, header + 2);
      SwapAt16(data, header + 4);
      SwapAt32(data, header + 12);
      SwapAt32(data, header + 16);
      assert data[..] == IpSwapped(old(data[..]), header);
      var headerLen := (data[header] % 16) * 4;
      cur := cur + headerLen;
      len := len - headerLen;
      if data[header + 8] == 0 {
        handler := Drop;
        return;
      }
      var dst := Host32(data[..], header + 16);
      if dst != OUR_IP_ADDRESS {
        handler := Drop;
        return;
      }
      dstIp := dst;
      srcIp := Host32(data[..], header + 12);
      if data[header + 9] == IP_PROTO_TCP {
        handler := TcpProto;
      } else if data[header + 9] == IP_PROTO_UDP {
        handler := Udp;
      } else {
        handler := Drop;
      }
    }
  }

  /** The UDP listeners, and the protocols registered with protocol_register. */
  class Stack {
    var listeners: seq<Listener>
    const registered: seq<Protocol>

    constructor (listeners: seq<Listener>, registered: seq<Protocol>)
      ensures this.listeners == listeners && this.registered == registered
    {
      this.listeners, this.registered := listeners, registered;
    }

    /** resolve_pkt_protocol. */
    method Resolve(handler: Protocol) returns (found: bool)
      ensures found <==> handler in registered
    {
      found := false;
      for i := 0 to |registered|
        invariant forall j :: 0 <= j < i ==> registered[j] != handler
      {
        if registered[i] == handler {
          return true;
        }
      }
    }

    /** udp_rx_packet: every listener on the port takes what it has room for. */
    method UdpRx(pkt: Packet)
      requires pkt.handler == Udp && HeaderInside(pkt.Model())
      modifies this`listeners, pkt`cur, pkt`len, pkt`handler, pkt.data
      ensures pkt.Model() == UdpStep(old(pkt.Model()))
      ensures listeners == Heard(old(pkt.Model()), old(listeners))
    {
      hide Swapped16, Host16;
      var header := pkt.cur;
      pkt.cur := pkt.cur + UDP_HEADER;
      pkt.len := pkt.len - UDP_HEADER;
      var payload := pkt.data[pkt.cur..];
      SwapAt16(pkt.data, header + 2);
      SwapAt16(pkt.data, header + 4);
      pkt.handler := Drop;
      var port := Host16(pkt.data[..], header + 2);
      assert port == Host16(UdpSwapped(old(pkt.data[..]), header), header + 2);
      ghost var was := listeners;
      for i := 0 to |listeners|
        invariant |listeners| == |was|
        invariant forall j :: 0 <= j < i ==> listeners[j] == Deliver(was[j], port, payload)
        invariant forall j :: i <= j < |was| ==> listeners[j] == was[j]
        invariant pkt.Model() == UdpStep(old(pkt.Model()))
      {
        var l := listeners[i];
        if l.port == port && |l.got| <= l.size {
          var n := l.size - |l.got|;
          if |payload| < n {
            n := |payload|;
          }
          assert |payload| == n ==> payload[..n] == payload;
          listeners := listeners[i := l.(got := l.got + payload[..n])];
        }
      }
      assert listeners == DeliverAll(was, port, payload);
      assert payload == old(pkt.data[..])[header + UDP_HEADER..];
    }

    /** The inner loop of rx_task: hands the packet from layer to layer until it is dropped, and
        then destroys it, once. */
    method RxTask(pkt: Packet) returns (destroyed: nat)
      requires Readable(pkt.Model(), registered)
      modifies this`listeners, pkt, pkt.data
      ensures listeners == Dispatch(old(pkt.Model()), old(listeners), registered)
      ensures destroyed == 1
    {
      hide EthernetStep, IpStep, UdpStep;
      destroyed := 0;
      var held := true;
      while held
        invariant destroyed == if held then 0 else 1
        invariant held ==> Readable(pkt.Model(), registered)
        invariant held ==>
                    Dispatch(pkt.Model(), listeners, registered) ==
                    Dispatch(old(pkt.Model()), old(listeners), registered)
        invariant !held ==> listeners == Dispatch(old(pkt.Model()), old(listeners), registered)
        decreases held, 3 - Level(pkt.handler)
      {
        var found := Resolve(pkt.handler);
        if !found {
          pkt.handler := Drop;
        } else {
          match pkt.handler {
            case Ethernet => pkt.EthernetRx();
            case Ipv4 => pkt.Ipv4Rx();
            case Udp => UdpRx(pkt);
            case _ => pkt.handler := Drop;
          }
        }
        if pkt.handler == Drop {
          destroyed := destroyed + 1;
          held := false;
        }
      }
    }
  }

  /** `b` with `f` written over it from offset `at` on. */
  function Written(b: seq<Byte>, at: nat, f: seq<Byte>): (r: seq<Byte>)
    requires at + |f| <= |b|
    ensures |r| == |b|
    ensures forall k :: 0 <= k < |b| ==> r[k] == if at <= k < at + |f| then f[k - at] else b[k]
  {
    b[..at] + f + b[at + |f|..]
  }

  /** A field written in host order and then swapped in place is in network order. */
  method PutField16(buf: array<Byte>, at: nat, v: Half)
    requires at + 2 <= buf.Length
    modifies buf
    ensures buf[..] == Written(old(buf[..]), at, Net16(v))
  {
    buf[at], buf[at + 1] := v % 256, v / 256;
    SwapAt16(buf, at);
  }

  method PutField32(buf: array<Byte>, at: nat, v: Word)
    requires at + 4 <= buf.Length
    modifies buf
    ensures buf[..] == Written(old(buf[..]), at, Net32(v))
  {
    buf[at], buf[at + 1], buf[at + 2], buf[at + 3] := v % 256, v / 256 % 256, v / 0x1_0000 % 256, v / 0x100_0000;
    SwapAt32(buf, at);
  }

  /** memcpy of `src` to `dst` from offset `at` on. */
  method Copy(dst: array<Byte>, at: nat, src: seq<Byte>)
    requires at + |src| <= dst.Length
    modifies dst
    ensures dst[..] == Written(old(dst[..]), at, src)
  {
    forall i | 0 <= i < |src| {
      dst[at + i] := src[i];
    }
  }

  /** udp_xmit_packet, up to handing the packet to IPv4. */
  method BuildUdp(port: Half, payload: seq<Byte>) returns (buf: array<Byte>)
    requires UDP_HEADER + |payload| < HALF
    ensures fresh(buf) && buf[..] == UdpPacket(port, payload)
  {
    hide Net16;
    buf := new Byte[UDP_HEADER + |payload|](_ => 0);
    PutField16(buf, 2, port);
    PutField16(buf, 4, UDP_HEADER + |payload|);
    Copy(buf, UDP_HEADER, payload);
  }

  /** ip4_do_xmit_packet, once the hardware address is known. */
  method BuildIp(protocol: Byte, dst: Word, payload: seq<Byte>) returns (buf: array<Byte>)
    requires IP_HEADER + |payload| < HALF
    ensures fresh(buf) && buf[..] == IpPacket(protocol, dst, payload)
  {
    var size := IP_HEADER + |payload|;
    buf := new Byte[size](_ => 0);
    FillIpHeader(buf, protocol, dst, size);
    hide IpHeader;
    Copy(buf, IP_HEADER, payload);
    assert buf[..] == buf[..IP_HEADER] + payload;
  }

  method FillIpHeader(buf: array<Byte>, protocol: Byte, dst: Word, size: Half)
    requires buf.Length >= IP_HEADER && forall i :: 0 <= i < IP_HEADER ==> buf[i] == 0
    modifies buf
    ensures buf[..IP_HEADER] == IpHeader(protocol, dst, size)
  {
    buf[0], buf[8], buf[9] := 0x45, DEFAULT_TTL, protocol;
    FillAddresses(buf, dst, size);
    assert buf[..IP_HEADER] == IpHeaderZeroed(protocol, dst, size);
    hide IpHeaderZeroed, FieldFor;
    ghost var was := buf[..];
    IpChecksum(buf);
    assert buf[..IP_HEADER] == Store(was[..IP_HEADER], IP_CHECKSUM, FieldFor(SumLE(was[..IP_HEADER])));
  }

  method FillAddresses(buf: array<Byte>, dst: Word, size: Half)
    requires buf.Length >= IP_HEADER
    modifies buf
    ensures buf[..] ==
            Written(Written(Written(old(buf[..]), 2, Net16(size)), 12, Net32(OUR_IP_ADDRESS)), 16, Net32(dst))
  {
    PutField16(buf, 2, size);
    PutField32(buf, 12, OUR_IP_ADDRESS);
    PutField32(buf, 16, dst);
  }

  /** ether_xmit_payload, with the frame in one piece. */
  method BuildFrame(dhost: seq<Byte>, shost: seq<Byte>, etherType: Half, payload: seq<Byte>) returns (buf: array<Byte>)
    requires |dhost| == 6 && |shost| == 6
    ensures fresh(buf) && buf[..] == Frame(dhost, shost, etherType, payload)
  {
    buf := new Byte[ETHER_HEADER + |payload|](_ => 0);
    for i := 0 to 6
      invariant buf[..i] == dhost[..i] && buf[6..6 + i] == shost[..i]
    {
      buf[i] := dhost[i];
      buf[6 + i] := shost[i];
    }
    PutField16(buf, 12, etherType);
    Copy(buf, ETHER_HEADER, payload);
  }

  /** A payload sent to this host, through every builder and the receive loop. */
  method SendToSelf(stack: Stack, dhost: seq<Byte>, shost: seq<Byte>, port: Half, payload: seq<Byte>)
    requires |dhost| == 6 && |shost| == 6 && IP_HEADER + UDP_HEADER + |payload| < HALF
    requires Ethernet in stack.registered && Ipv4 in stack.registered && Udp in stack.registered
    modifies stack`listeners
    ensures stack.listeners == DeliverAll(old(stack.listeners), port, payload)
  {
    RoundTrip(dhost, shost, port, payload, [], stack.listeners, stack.registered);
    assert UdpFrame(dhost, shost, port, payload) + [] == UdpFrame(dhost, shost, port, payload);
    assert payload + [] == payload;
    var datagram := BuildUdp(port, payload);
    var ip := BuildIp(IP_PROTO_UDP, OUR_IP_ADDRESS, datagram[..]);
    var frame := BuildFrame(dhost, shost, ETHERTYPE_IP, ip[..]);
    var pkt := new Packet(frame);
    var destroyed := stack.RxTask(pkt);
  }
}
