/**
 * Bit tests on the location condition words.
 *
 * `tstbit(mask, bit)` is only declared in advent.h; the doc comment of CNDBIT,
 * which calls it, says that bit 0 is the units bit.  The model takes that literally: bit `n` of `mask` is
 * the units digit of `mask` written in base 2 after dropping `n` digits, i.e.
 * `(mask / 2^n) % 2 == 1`.  Dafny's `/` and `%` are Euclidean, which for the
 * positive divisor 2^n is floor division, so the definition also gives the
 * two's-complement bit of a negative mask.
 */
module Bits {

  /** 2 to the power `n`. */
  function Pow2(n: nat): (r: nat)
    ensures r >= 1
    ensures n > 0 ==> r % 2 == 0
  {
    if n == 0 then 1 else 2 * Pow2(n - 1)
  }

  /**
   * tstbit(mask, bit): is bit `bit` of `mask` set?  Bit 0 is the units bit,
   * and no bit at or above the length of a non-negative mask is set.
   */
  function TstBit(mask: int, bit: nat): (r: bool)
    ensures bit == 0 ==> (r <==> mask % 2 == 1)
    ensures 0 <= mask < Pow2(bit) ==> !r
  {
    assert Pow2(0) == 1;
    (mask / Pow2(bit)) % 2 == 1
  }

  /**
   * Reference encoding of a finite list of flags as a condition word:
   * flag `i` contributes 2^i.
   */
  function MaskOf(flags: seq<bool>): (m: nat)
    ensures m < Pow2(|flags|)
  {
    if flags == [] then 0 else (if flags[0] then 1 else 0) + 2 * MaskOf(flags[1..])
  }

  /** A positive multiple of d is at least d. */
  lemma MulAtLeast(d: nat, k: nat)
    requires k >= 1
    ensures d * k >= d
  {
  }

  /** Division by a positive divisor is determined by quotient and remainder. */
  lemma DivUnique(m: int, d: int, q: int, r: int)
    requires d > 0 && 0 <= r < d && m == d * q + r
    ensures m / d == q && m % d == r
  {
    var q', r' := m / d, m % d;
    assert m == d * q' + r';
    if q' < q {
      assert d * q - d * q' == d * (q - q');
      MulAtLeast(d, q - q');
    } else if q' > q {
      assert d * q' - d * q == d * (q' - q);
      MulAtLeast(d, q' - q);
    }
  }

  /** Dropping k + 1 binary digits is dropping one and then k more. */
  lemma DivPow2Succ(m: int, k: nat)
    ensures m / Pow2(k + 1) == (m / 2) / Pow2(k)
  {
    var h := m / 2;
    var q := h / Pow2(k);
    var b := h % Pow2(k);
    assert m == 2 * h + m % 2;
    assert h == Pow2(k) * q + b;
    assert m == Pow2(k + 1) * q + (2 * b + m % 2) by {
      assert Pow2(k + 1) == 2 * Pow2(k);
    }
    DivUnique(m, Pow2(k + 1), q, 2 * b + m % 2);
  }

  /** Bit k + 1 of a mask is bit k of the mask shifted right by one. */
  lemma TstBitShift(mask: int, k: nat)
    ensures TstBit(mask, k + 1) == TstBit(mask / 2, k)
  {
    DivPow2Succ(mask, k);
  }

  /** The bit test reads back exactly the flags a condition word was built from. */
  lemma {:induction false} TstBitOfMask(flags: seq<bool>, i: nat)
    ensures TstBit(MaskOf(flags), i) == (i < |flags| && flags[i])
  {
    var m := MaskOf(flags);
    if i == 0 {
      assert m / Pow2(0) == m;
      if flags != [] {
        assert m == (if flags[0] then 1 else 0) + 2 * MaskOf(flags[1..]);
      }
    } else {
      TstBitShift(m, i - 1);
      if flags == [] {
        assert m == 0;
        assert m / 2 == 0;
        assert 0 / Pow2(i - 1) == 0;
      } else {
        assert m / 2 == MaskOf(flags[1..]);
        TstBitOfMask(flags[1..], i - 1);
      }
    }
  }

  /** The lowest `len` bits of a word, units bit first. */
  function BitsBelow(w: int, len: nat): (bs: seq<bool>)
    ensures |bs| == len
    decreases len
  {
    if len == 0 then [] else [w % 2 == 1] + BitsBelow(w / 2, len - 1)
  }

  /** Position i of BitsBelow is the bit test of bit i. */
  lemma {:induction false} BitsBelowAt(w: int, len: nat, i: nat)
    requires i < len
    ensures BitsBelow(w, len)[i] == TstBit(w, i)
    decreases len
  {
    if i > 0 {
      BitsBelowAt(w / 2, len - 1, i - 1);
      TstBitShift(w, i - 1);
    }
  }

  /** A non-negative word below 2^len is the mask of its lowest len bits. */
  lemma {:induction false} MaskOfBitsBelow(w: int, len: nat)
    requires 0 <= w < Pow2(len)
    ensures MaskOf(BitsBelow(w, len)) == w
    decreases len
  {
    if len > 0 {
      var bs := BitsBelow(w, len);
      assert bs[1..] == BitsBelow(w / 2, len - 1);
      MaskOfBitsBelow(w / 2, len - 1);
    }
  }

  /** Every natural number lies below 2 to its own power. */
  lemma {:induction false} Pow2Exceeds(n: nat)
    ensures n < Pow2(n)
  {
    if n > 0 {
      Pow2Exceeds(n - 1);
    }
  }

  /** 2^n grows with n. */
  lemma {:induction false} Pow2Monotone(m: nat, n: nat)
    requires m <= n
    ensures Pow2(m) <= Pow2(n)
  {
    if m < n {
      Pow2Monotone(m, n - 1);
    }
  }

  /** The word 2^n has bit n set. */
  lemma TstBitPow2(n: nat)
    ensures TstBit(Pow2(n), n)
  {
  }
}
