/** The masks of macros.h and memory.c on the bits of a word, and the arithmetic that the other
modules use for them. */
module WordBits {
  import opened Words
  import opened HeapMemory

  function Bit(v: bv32): nat {
    if v & 1 == 1 then 1 else 0
  }

  function Half(v: bv32): bv32 {
    v >> 1
  }

  /** MEM_BTAG_SIZE_MASK. */
  function SizeMask(v: bv32): bv32 {
    v & !1
  }

  /** `v & -4`. */
  function AlignMask(v: bv32): bv32 {
    v & (0 - 4)
  }

  /** The number that the `n` lowest bits of `v` stand for. */
  function Value(v: bv32, n: nat): nat
    decreases n
  {
    if n == 0 then 0 else Bit(v) + 2 * Value(Half(v), n - 1)
  }

  function Power(n: nat): nat {
    if n == 0 then 1 else 2 * Power(n - 1)
  }

  lemma {:induction false} ValueBelow(v: bv32, n: nat)
    ensures Value(v, n) < Power(n)
    decreases n
  {
    hide Bit, Half;
    if n > 0 {
      BitBelow(v);
      ValueBelow(Half(v), n - 1);
    }
  }

  lemma BitBelow(v: bv32)
    ensures Bit(v) < 2
  {
  }

  lemma PowerAdds(n: nat)
    requires n >= 8
    ensures Power(n) == 256 * Power(n - 8)
  {
    assert Power(n) == 16 * Power(n - 4) by {
      assert Power(n - 1) == 2 * Power(n - 2) && Power(n - 3) == 2 * Power(n - 4);
    }
    assert Power(n - 4) == 16 * Power(n - 8) by {
      assert Power(n - 5) == 2 * Power(n - 6) && Power(n - 7) == 2 * Power(n - 8);
    }
  }

  /** 32 bits make a word. */
  lemma ValueIsWord(v: bv32, n: nat)
    requires n == 32
    ensures Value(v, n) < WORD_LIMIT
  {
    hide Value;
    ValueBelow(v, n);
    PowerAdds(n);
    PowerAdds(n - 8);
    PowerAdds(n - 16);
    PowerAdds(n - 24);
  }

  /** What the masks do to the lowest bit and to the others. */
  lemma SizeMaskBit(v: bv32)
    ensures Bit(SizeMask(v)) == 0
  {
  }

  lemma SizeMaskHalf(v: bv32)
    ensures Half(SizeMask(v)) == Half(v)
  {
  }

  lemma AlignMaskBit(v: bv32)
    ensures Bit(AlignMask(v)) == 0
  {
  }

  lemma AlignMaskHalf(v: bv32)
    ensures Half(AlignMask(v)) == SizeMask(Half(v))
  {
  }

  lemma TwoParts(a: nat, b: nat, bit: nat, h: nat)
    requires bit < 2 && a == bit + 2 * h && b == 2 * h
    ensures b == a - a % 2 && a % 2 == bit
  {
  }

  lemma FourParts(a: nat, b: nat, bit: nat, h: nat, g: nat)
    requires bit < 2 && a == bit + 2 * h && g == h - h % 2 && b == 2 * g
    ensures b == a - a % 4
  {
    var q := h / 2;
    assert h == 2 * q + h % 2;
    assert a == 4 * q + (2 * (h % 2) + bit);
  }

  /** Clearing the lowest bit. */
  lemma ClearOne(v: bv32, n: nat)
    requires n >= 1
    ensures Value(SizeMask(v), n) == Value(v, n) - Value(v, n) % 2 && Value(v, n) % 2 == Bit(v)
  {
    hide Bit, Half, SizeMask;
    SizeMaskBit(v);
    SizeMaskHalf(v);
    BitBelow(v);
    TwoParts(Value(v, n), Value(SizeMask(v), n), Bit(v), Value(Half(v), n - 1));
  }

  /** Clearing the two lowest bits. */
  lemma ClearTwo(v: bv32, n: nat)
    requires n >= 2
    ensures Value(AlignMask(v), n) == Value(v, n) - Value(v, n) % 4
  {
    hide Bit, Half, SizeMask, AlignMask;
    AlignMaskBit(v);
    AlignMaskHalf(v);
    BitBelow(v);
    ClearOne(Half(v), n - 1);
    FourParts(Value(v, n), Value(AlignMask(v), n), Bit(v), Value(Half(v), n - 1), Value(SizeMask(Half(v)), n - 1));
  }

  /** On the bits of a word, Align is the mask of P2ALIGN. */
  lemma AlignIsMask(v: bv32, n: nat)
    requires n == 32
    ensures Value(v, n) < WORD_LIMIT && Value(AlignMask(v), n) == Align(Value(v, n))
  {
    hide Value, AlignMask;
    ValueIsWord(v, n);
    ClearTwo(v, n);
  }

  /** On the bits of a tag, size and flag are what the masks of memory.c:182-183 extract. */
  lemma TagMasks(v: bv32, n: nat)
    requires n == 32
    ensures Value(v, n) < WORD_LIMIT && TagSize(Value(v, n)) == Value(SizeMask(v), n)
    ensures TagAllocated(Value(v, n)) <==> Bit(v) == 1
  {
    hide Value, Bit, SizeMask;
    ValueIsWord(v, n);
    ClearOne(v, n);
  }
}
