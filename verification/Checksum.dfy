/** The Internet checksum as ipv4.c and tcp.c compute it, and byte order (byteswap.c).

The host is little-endian and sums network-order bytes as its own 16-bit words, without swapping.
Section 2(B) of RFC 1071 is why that works; it is proved here. */
module Checksum {
  import opened Words

  type Byte = b: int | 0 <= b < 256

  const HALF := 0x1_0000
  const ONES := 0xFFFF

  // ---------------------------------------------------------------------------------------
  // The ones' complement sum
  // ---------------------------------------------------------------------------------------

  /** The 16-bit value with these two bytes. */
  function Join(lo: Byte, hi: Byte): nat {
    (lo as int) + 256 * (hi as int)
  }

  lemma JoinParts(lo: Byte, hi: Byte)
    ensures Join(lo, hi) < HALF && Join(lo, hi) % 256 == lo && Join(lo, hi) / 256 == hi
  {
  }

  /** The sum of `b` read as little-endian 16-bit words. */
  function SumLE(b: seq<Byte>): nat
    requires |b| % 2 == 0
    decreases |b|
  {
    if b == [] then 0 else Join(b[0], b[1]) + SumLE(b[2..])
  }

  /** The sum of `b` read as network-order 16-bit words. */
  function SumBE(b: seq<Byte>): nat
    requires |b| % 2 == 0
    decreases |b|
  {
    if b == [] then 0 else Join(b[1], b[0]) + SumBE(b[2..])
  }

  /** End-around carry until the sum fits in 16 bits. */
  function Fold(s: nat): (f: nat)
    ensures f < HALF
    decreases s
  {
    if s < HALF then s else Fold(s % HALF + s / HALF)
  }

  /** The value stored in a checksum field. */
  function FieldFor(s: nat): nat {
    ONES - Fold(s)
  }

  /** Folding keeps the sum modulo 65535, and never turns a non-zero sum into zero. */
  lemma {:induction false} FoldQuotient(s: nat) returns (k: nat)
    ensures s == Fold(s) + ONES * k
    ensures Fold(s) == 0 <==> s == 0
    decreases s
  {
    if s < HALF {
      k := 0;
    } else {
      var r, q := s % HALF, s / HALF;
      assert s == r + HALF * q;
      k := FoldQuotient(r + q);
      k := k + q;
    }
  }

  /** ... and these two facts determine it. */
  lemma FoldUnique(s: nat, f: nat, k: int)
    requires s == f + ONES * k && f <= ONES && (f == 0 <==> s == 0)
    ensures Fold(s) == f
  {
    var j := FoldQuotient(s);
    assert ONES * (j - k) == f - Fold(s);
    assert j == k;
  }

  // ---------------------------------------------------------------------------------------
  // A stored checksum verifies
  // ---------------------------------------------------------------------------------------

  /** `b` with the 16-bit value `v` stored, little-endian, at offset `k`. */
  function Store(b: seq<Byte>, k: nat, v: nat): (r: seq<Byte>)
    requires k + 1 < |b| && v < HALF
    ensures |r| == |b| && (r[k] as int) + 256 * (r[k + 1] as int) == v
    ensures forall i :: 0 <= i < |b| && i != k && i != k + 1 ==> r[i] == b[i]
  {
    b[k := v % 256][k + 1 := v / 256]
  }

  lemma {:induction false} SumStore(b: seq<Byte>, k: nat, v: nat)
    requires |b| % 2 == 0 && k % 2 == 0 && k + 1 < |b| && v < HALF
    ensures SumLE(Store(b, k, v)) == SumLE(b) - Join(b[k], b[k + 1]) + v
    decreases k
  {
    if k == 0 {
      assert Store(b, k, v)[2..] == b[2..];
    } else {
      SumStore(b[2..], k - 2, v);
      assert Store(b, k, v)[2..] == Store(b[2..], k - 2, v);
    }
  }

  /** Storing the checksum in a zeroed field makes the whole sum fold to all ones. */
  lemma ChecksumVerifies(b: seq<Byte>, k: nat)
    requires |b| % 2 == 0 && k % 2 == 0 && k + 1 < |b|
    requires b[k] == 0 && b[k + 1] == 0
    ensures Fold(SumLE(Store(b, k, FieldFor(SumLE(b))))) == ONES
  {
    var s := SumLE(b);
    SumStore(b, k, FieldFor(s));
    var j := FoldQuotient(s);
    FoldUnique(s + FieldFor(s), ONES, j);
  }

  // ---------------------------------------------------------------------------------------
  // Byte order does not matter
  // ---------------------------------------------------------------------------------------

  function Swap(x: nat): nat
    requires x < HALF
  {
    256 * (x % 256) + x / 256
  }

  lemma SwapJoin(lo: Byte, hi: Byte)
    ensures Swap(Join(lo, hi)) == Join(hi, lo)
  {
    JoinParts(lo, hi);
  }

  lemma {:induction false} SumsRelated(b: seq<Byte>) returns (k: nat)
    requires |b| % 2 == 0
    ensures 256 * SumLE(b) == SumBE(b) + ONES * k
    ensures SumLE(b) == 0 <==> SumBE(b) == 0
    decreases |b|
  {
    if b == [] {
      k := 0;
    } else {
      k := SumsRelated(b[2..]);
      k := k + b[1];
    }
  }

  /** Summing network-order data as little-endian words swaps the bytes of the folded sum. */
  lemma FoldSwaps(b: seq<Byte>)
    requires |b| % 2 == 0
    ensures Fold(SumBE(b)) == Swap(Fold(SumLE(b)))
  {
    var le := SumLE(b);
    var k := SumsRelated(b);
    var j := FoldQuotient(le);
    var f := Fold(le);
    var lo, hi := f % 256, f / 256;
    assert f == lo + 256 * hi;
    assert 256 * f == Swap(f) + ONES * hi;
    FoldUnique(SumBE(b), Swap(f), hi + 256 * j - k);
  }

  lemma SplitHalf(f: nat) returns (lo: Byte, hi: Byte)
    requires f < HALF
    ensures f == Join(lo, hi)
  {
    lo, hi := f % 256, f / 256;
  }

  lemma ComplementBytes(f: nat, lo: Byte, hi: Byte)
    requires f == Join(lo, hi)
    ensures f <= ONES && (ONES - f) % 256 == 255 - lo && (ONES - f) / 256 == 255 - hi
  {
    JoinParts(255 - lo, 255 - hi);
    assert ONES - f == Join(255 - lo, 255 - hi);
  }

  /** The bytes stored for the little-endian checksum, in memory order, are the bytes of the
      checksum that section 3.1 of RFC 791 defines, in network order. */
  lemma SameBytesOnTheWire(b: seq<Byte>)
    requires |b| % 2 == 0
    ensures var le, be := FieldFor(SumLE(b)), FieldFor(SumBE(b));
            le % 256 == be / 256 && le / 256 == be % 256
  {
    hide Fold, SumLE, SumBE, Swap, Join;
    FoldSwaps(b);
    var lo, hi := SplitHalf(Fold(SumLE(b)));
    SwapJoin(lo, hi);
    ComplementBytes(Fold(SumLE(b)), lo, hi);
    ComplementBytes(Fold(SumBE(b)), hi, lo);
  }

  // ---------------------------------------------------------------------------------------
  // The loops
  // ---------------------------------------------------------------------------------------

  lemma {:induction false} SumPrefix(b: seq<Byte>, i: nat)
    requires |b| % 2 == 0 && 2 * i + 2 <= |b|
    ensures SumLE(b[..2 * i + 2]) == SumLE(b[..2 * i]) + Join(b[2 * i], b[2 * i + 1])
    decreases i
  {
    if i > 0 {
      SumPrefix(b[2..], i - 1);
      assert b[..2 * i + 2][2..] == b[2..][..2 * (i - 1) + 2];
      assert b[..2 * i][2..] == b[2..][..2 * (i - 1)];
    }
  }

  /** Adds up the first `words` little-endian words of a buffer in a 32-bit accumulator, and
      folds the carries: the two loops of ip4_compute_checksum and tcp_compute_checksum. */
  method SumAndFold(buf: array<Byte>, words: nat) returns (sum: Word)
    requires 2 * words <= buf.Length && words <= HALF
    ensures sum == Fold(SumLE(buf[..2 * words]))
  {
    sum := 0;
    for i := 0 to words
      invariant sum == SumLE(buf[..2 * i]) && sum <= ONES * i
    {
      assert buf[..2 * words][..2 * i + 2] == buf[..2 * i + 2] && buf[..2 * words][..2 * i] == buf[..2 * i];
      SumPrefix(buf[..2 * words], i);
      sum := sum + Join(buf[2 * i], buf[2 * i + 1]);
    }
    while sum / HALF != 0
      invariant Fold(sum) == Fold(SumLE(buf[..2 * words]))
      decreases sum
    {
      sum := sum % HALF + sum / HALF;
    }
  }

  const IP_HEADER := 20
  const IP_CHECKSUM := 10

  /** ip4_compute_checksum: fills in the checksum field of an IPv4 header. */
  method IpChecksum(header: array<Byte>)
    requires header.Length >= IP_HEADER
    modifies header
    ensures header[..] == Store(old(header[..]), IP_CHECKSUM, FieldFor(SumLE(old(header[..IP_HEADER]))))
    ensures old(header[IP_CHECKSUM] == 0 && header[IP_CHECKSUM + 1] == 0) ==> Fold(SumLE(header[..IP_HEADER])) == ONES
  {
    var sum := SumAndFold(header, IP_HEADER / 2);
    ghost var was := header[..IP_HEADER];
    var field := (WORD_LIMIT - 1 - sum) % HALF;
    assert field == FieldFor(SumLE(was));
    header[IP_CHECKSUM] := field % 256;
    header[IP_CHECKSUM + 1] := field / 256;
    assert header[..IP_HEADER] == Store(was, IP_CHECKSUM, field);
    if was[IP_CHECKSUM] == 0 && was[IP_CHECKSUM + 1] == 0 {
      ChecksumVerifies(was, IP_CHECKSUM);
    }
  }

  const PSEUDO_HEADER := 12
  const TCP_HEADER := 20
  const TCP_CHECKSUM := 16

  /** What the TCP checksum covers: pseudo-header, header and payload, padded to whole words. */
  function Covered(pseudo: seq<Byte>, header: seq<Byte>, payload: seq<Byte>): (b: seq<Byte>)
    requires |pseudo| == PSEUDO_HEADER && |header| == TCP_HEADER
    ensures |b| % 2 == 0
  {
    pseudo + header + payload + if |payload| % 2 == 0 then [] else [0]
  }

  lemma CoveredStore(pseudo: seq<Byte>, header: seq<Byte>, payload: seq<Byte>, v: nat)
    requires |pseudo| == PSEUDO_HEADER && |header| == TCP_HEADER && v < HALF
    ensures Covered(pseudo, Store(header, TCP_CHECKSUM, v), payload)
         == Store(Covered(pseudo, header, payload), PSEUDO_HEADER + TCP_CHECKSUM, v)
  {
  }

  /** `b` with a zero byte appended if its length is odd. */
  function Padded(b: seq<Byte>): (p: seq<Byte>)
    ensures |p| % 2 == 0 && |p| == |b| + |b| % 2
    ensures p[..|b|] == b && (|p| > |b| ==> p[|b|] == 0)
  {
    if |b| % 2 == 0 then b else b + [0]
  }

  lemma {:induction false} SumConcat(a: seq<Byte>, b: seq<Byte>)
    requires |a| % 2 == 0 && |b| % 2 == 0
    ensures SumLE(a + b) == SumLE(a) + SumLE(b)
    decreases |a|
  {
    if a == [] {
      assert a + b == b;
    } else {
      SumConcat(a[2..], b);
      assert (a + b)[2..] == a[2..] + b;
    }
  }

  /** The sum is over pseudo-header, header and all of the payload. */
  lemma CoveredSum(pseudo: seq<Byte>, header: seq<Byte>, payload: seq<Byte>)
    requires |pseudo| == PSEUDO_HEADER && |header| == TCP_HEADER
    ensures SumLE(Covered(pseudo, header, payload)) == SumLE(pseudo) + SumLE(header) + SumLE(Padded(payload))
  {
    hide SumLE;
    assert Covered(pseudo, header, payload) == (pseudo + header) + Padded(payload);
    SumConcat(pseudo + header, Padded(payload));
    SumConcat(pseudo, header);
  }

  lemma TcpVerifies(pseudo: seq<Byte>, header: seq<Byte>, payload: seq<Byte>)
    requires |pseudo| == PSEUDO_HEADER && |header| == TCP_HEADER
    requires header[TCP_CHECKSUM] == 0 && header[TCP_CHECKSUM + 1] == 0
    ensures var field := FieldFor(SumLE(Covered(pseudo, header, payload)));
            Fold(SumLE(Covered(pseudo, Store(header, TCP_CHECKSUM, field), payload))) == ONES
  {
    var b := Covered(pseudo, header, payload);
    CoveredStore(pseudo, header, payload, FieldFor(SumLE(b)));
    ChecksumVerifies(b, PSEUDO_HEADER + TCP_CHECKSUM);
  }

  /** The padded copy that tcp_compute_checksum adds up. */
  method CopyCovered(header: array<Byte>, pseudo: seq<Byte>, payload: seq<Byte>) returns (buf: array<Byte>)
    requires header.Length == TCP_HEADER && |pseudo| == PSEUDO_HEADER
    ensures fresh(buf) && buf[..] == Covered(pseudo, header[..], payload)
  {
    var size := PSEUDO_HEADER + TCP_HEADER + |payload|;
    if size % 2 != 0 {
      size := size + 1;
    }
    buf := new Byte[size](_ => 0);
    forall i | 0 <= i < PSEUDO_HEADER {
      buf[i] := pseudo[i];
    }
    forall i | 0 <= i < TCP_HEADER {
      buf[PSEUDO_HEADER + i] := header[i];
    }
    forall i | 0 <= i < |payload| {
      buf[PSEUDO_HEADER + TCP_HEADER + i] := payload[i];
    }
    assert |Covered(pseudo, header[..], payload)| == size;
  }

  /** tcp_compute_checksum: the sum is taken over a padded copy and stored in the header.  A receiver
      that adds up pseudo-header, header and payload gets all ones. */
  method TcpChecksum(header: array<Byte>, pseudo: seq<Byte>, payload: seq<Byte>)
    requires header.Length == TCP_HEADER && |pseudo| == PSEUDO_HEADER
    requires TCP_HEADER + |payload| < HALF
    modifies header
    ensures header[..] == Store(old(header[..]), TCP_CHECKSUM,
                                FieldFor(SumLE(pseudo) + SumLE(old(header[..])) + SumLE(Padded(payload))))
    ensures old(header[TCP_CHECKSUM] == 0 && header[TCP_CHECKSUM + 1] == 0) ==>
              Fold(SumLE(pseudo) + SumLE(header[..]) + SumLE(Padded(payload))) == ONES
  {
    hide SumLE, Covered;
    ghost var was := header[..];
    CoveredSum(pseudo, was, payload);
    CoveredSize(pseudo, was, payload);
    var buf := CopyCovered(header, pseudo, payload);
    assert buf[..2 * (buf.Length / 2)] == buf[..];
    var sum := SumAndFold(buf, buf.Length / 2);
    var field := (WORD_LIMIT - 1 - sum) % HALF;
    assert field == FieldFor(SumLE(Covered(pseudo, was, payload)));
    header[TCP_CHECKSUM] := field % 256;
    header[TCP_CHECKSUM + 1] := field / 256;
    assert header[..] == Store(was, TCP_CHECKSUM, field);
    if was[TCP_CHECKSUM] == 0 && was[TCP_CHECKSUM + 1] == 0 {
      TcpVerifies(pseudo, was, payload);
      CoveredSum(pseudo, header[..], payload);
    }
  }

  lemma CoveredSize(pseudo: seq<Byte>, header: seq<Byte>, payload: seq<Byte>)
    requires |pseudo| == PSEUDO_HEADER && |header| == TCP_HEADER && TCP_HEADER + |payload| < HALF
    ensures |Covered(pseudo, header, payload)| % 2 == 0 && |Covered(pseudo, header, payload)| / 2 <= HALF
  {
  }

  // ---------------------------------------------------------------------------------------
  // Byte swapping
  // ---------------------------------------------------------------------------------------

  function Swap16(v: bv16): bv16 {
    (v << 8) | (v >> 8)
  }

  function Swap32(v: bv32): bv32 {
    (v << 24) | ((v << 8) & 0x00ff0000) | ((v >> 8) & 0x0000ff00) | (v >> 24)
  }

  /** Byte `i` of a word, counted from the least significant. */
  function Byte16(v: bv16, i: nat): bv16
    requires i < 2
  {
    if i == 0 then v & 0xff else v >> 8
  }

  function Byte32(v: bv32, i: nat): bv32
    requires i < 4
  {
    match i
    case 0 => v & 0xff
    case 1 => (v >> 8) & 0xff
    case 2 => (v >> 16) & 0xff
    case _ => v >> 24
  }

  lemma Swap16Reverses(v: bv16, i: nat)
    requires i < 2
    ensures Byte16(Swap16(v), i) == Byte16(v, 1 - i)
    ensures Swap16(Swap16(v)) == v
  {
  }

  lemma Swap32Reverses(v: bv32, i: nat)
    requires i < 4
    ensures Byte32(Swap32(v), i) == Byte32(v, 3 - i)
    ensures Swap32(Swap32(v)) == v
  {
  }

  function Number(v: bv16): nat {
    v as nat
  }

  /** A value is made up of its bytes. */
  lemma BytesOf16(v: bv16)
    ensures Number(v) == Number(Byte16(v, 0)) + 256 * Number(Byte16(v, 1))
    ensures Number(Byte16(v, 0)) < 256 && Number(Byte16(v, 1)) < 256
  {
    assert v & 0xff < 256 && v >> 8 < 256;
  }

  /** Swapping the bits of a value is swapping the bytes of the number. */
  lemma SwapIsSwap16(v: bv16)
    ensures Number(v) < HALF && Number(Swap16(v)) == Swap(Number(v))
  {
    hide Number, Swap16, Byte16, Swap;
    Swap16Reverses(v, 0);
    Swap16Reverses(v, 1);
    BytesOf16(v);
    BytesOf16(Swap16(v));
    SwapJoin(Number(Byte16(v, 0)), Number(Byte16(v, 1)));
  }

  /** swap_endian16 and swap_endian32, on a field in place. */
  method SwapEndian16(val: array<bv16>, at: nat)
    requires at < val.Length
    modifies val
    ensures val[..] == old(val[..])[at := Swap16(old(val[at]))]
  {
    val[at] := (val[at] << 8) | (val[at] >> 8);
  }

  method SwapEndian32(val: array<bv32>, at: nat)
    requires at < val.Length
    modifies val
    ensures val[..] == old(val[..])[at := Swap32(old(val[at]))]
  {
    val[at] := (val[at] << 24) | ((val[at] << 8) & 0x00ff0000) | ((val[at] >> 8) & 0x0000ff00) | (val[at] >> 24);
  }
}
