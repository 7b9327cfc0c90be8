/** The 32-bit words of the target machine, and the size arithmetic done in them. */
module Words {

  const WORD_LIMIT := 0x1_0000_0000

  type Word = w: int | 0 <= w < WORD_LIMIT

  /** The value a 32-bit register holds after an operation whose exact result is `x`. */
  function Wrap(x: int): (w: Word)
    ensures 0 <= x < WORD_LIMIT ==> w == x
    ensures WORD_LIMIT <= x < 2 * WORD_LIMIT ==> w == x - WORD_LIMIT
    ensures -WORD_LIMIT <= x < 0 ==> w == x + WORD_LIMIT
  {
    x % WORD_LIMIT
  }

  /** Two's-complement negation of an unsigned word. */
  function Neg(x: Word): Word {
    Wrap(-(x as int))
  }

  /** `x & -4` on unsigned words: the two lowest bits cleared. */
  function Align(x: Word): Word {
    x - x % 4
  }

  /** P2ROUND(x, 4), computed as the macro does it: `-(-x & -4)` (macros.h:55). */
  function Round(x: Word): Word {
    Neg(Align(Neg(x)))
  }

  /** The block size for a request of `n` bytes: room for two tags, never below the least block
      size (memory.c:599-615). */
  function BlockSizeFor(n: Word): Word {
    var size := Wrap(Round(n) + 8);
    if size < 16 then 16 else size
  }

  /** The largest request whose block size is representable. */
  const LARGEST_REQUEST: Word := 0xFFFF_FFF4

  lemma RoundUp(n: Word)
    ensures Round(n) == if n % 4 == 0 then n else Wrap(n as int - n % 4 + 4)
  {
    var q, r := n / 4, n % 4;
    var k := WORD_LIMIT / 4;
    assert n == 4 * q + r && WORD_LIMIT == 4 * k;
    if n == 0 {
    } else {
      assert Neg(n) == 4 * (k - q) - r;
      if r == 0 {
        assert Neg(n) % 4 == 0;
      } else {
        assert Neg(n) == 4 * (k - q - 1) + (4 - r);
        assert Neg(n) % 4 == 4 - r;
        assert Align(Neg(n)) == 4 * (k - q - 1);
      }
    }
  }

  lemma BlockSizeSmall(n: Word)
    requires 1 <= n <= LARGEST_REQUEST
    ensures BlockSizeFor(n) % 4 == 0 && BlockSizeFor(n) >= 16
    ensures n + 8 <= BlockSizeFor(n) <= n + 19
    ensures BlockSizeFor(n) > 16 ==> BlockSizeFor(n) <= n + 11
  {
    RoundUp(n);
    var q, r := n / 4, n % 4;
    if r == 0 {
      assert Round(n) + 8 == 4 * (q + 2);
    } else {
      assert Round(n) + 8 == 4 * (q + 3);
    }
  }

  lemma BlockSizeOfAligned(n: Word)
    requires n % 4 == 0 && 8 <= n <= LARGEST_REQUEST
    ensures BlockSizeFor(n) == n + 8
  {
    hide Round;
    RoundUp(n);
  }

  lemma BlockSizeLarge(n: Word)
    requires LARGEST_REQUEST < n
    ensures BlockSizeFor(n) == 16
  {
    RoundUp(n);
  }

  lemma BlockSizeAligned(n: Word)
    requires n >= 1
    ensures BlockSizeFor(n) % 4 == 0 && BlockSizeFor(n) >= 16
  {
    if n <= LARGEST_REQUEST {
      BlockSizeSmall(n);
    } else {
      BlockSizeLarge(n);
    }
  }

  /** Exactly the requests up to LARGEST_REQUEST get a block with room for them and two tags,
      and then it is the smallest aligned one; any larger request is given the least block. */
  lemma BlockSizeExact(n: Word)
    requires n >= 1
    ensures BlockSizeFor(n) >= n + 8 <==> n <= LARGEST_REQUEST
    ensures n > LARGEST_REQUEST ==> BlockSizeFor(n) == 16
    ensures n <= LARGEST_REQUEST ==>
              forall s: int :: s % 4 == 0 && s >= n + 8 && s >= 16 ==> s >= BlockSizeFor(n)
  {
    BlockSizeAligned(n);
    if n <= LARGEST_REQUEST {
      BlockSizeSmall(n);
      forall s: int | s % 4 == 0 && s >= n + 8 && s >= 16
        ensures s >= BlockSizeFor(n)
      {
        var t, u := s / 4, BlockSizeFor(n) / 4;
        assert s == 4 * t && BlockSizeFor(n) == 4 * u;
      }
    } else {
      BlockSizeLarge(n);
    }
  }

  /** The least request for which the arithmetic wraps: it asks for almost 4 GiB and would be
      given 8 bytes of payload. */
  lemma WrappingRequest()
    ensures BlockSizeFor(0xFFFF_FFF5) == 16
  {
    BlockSizeLarge(0xFFFF_FFF5);
  }
}
