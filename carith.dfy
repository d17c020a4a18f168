/**
 * MOD(N,M) (advent.h:55) is C's `%`, which truncates toward zero: the
 * remainder takes the sign of the dividend.  Dafny's `%` is Euclidean, so the
 * C operators are written out here.
 */
module CArith {
  import Bits

  function Abs(n: int): (r: nat)
    ensures r == n || r == -n
  {
    if n >= 0 then n else -n
  }

  /** C's `/`: the quotient rounded toward zero. */
  function TruncDiv(n: int, m: int): (q: int)
    requires m != 0
    ensures Abs(q) == Abs(n) / Abs(m)
    ensures (n >= 0) == (m > 0) ==> q >= 0
    ensures (n >= 0) != (m > 0) ==> q <= 0
  {
    var a := Abs(n) / Abs(m);
    if (n >= 0) == (m > 0) then a else -a
  }

  /** MOD(N,M): C's `%`. */
  function Mod(n: int, m: int): (r: int)
    requires m != 0
    ensures n == m * TruncDiv(n, m) + r
    ensures Abs(r) < Abs(m)
    ensures n >= 0 ==> 0 <= r
    ensures n <= 0 ==> r <= 0
    ensures n >= 0 ==> r == n % m
  {
    var rem := Abs(n) % Abs(m);
    TruncDivProduct(n, m);
    if n >= 0 then
      assert n % m == rem by { EuclidAbs(n, m); }
      rem
    else -rem
  }

  /** The product of the divisor and C's quotient: the dividend less the remainder of the magnitudes. */
  lemma TruncDivProduct(n: int, m: int)
    requires m != 0
    ensures m * TruncDiv(n, m) == if n >= 0 then Abs(n) - Abs(n) % Abs(m) else Abs(n) % Abs(m) - Abs(n)
  {
    var a, rem := Abs(n) / Abs(m), Abs(n) % Abs(m);
    var q := TruncDiv(n, m);
    assert Abs(n) == Abs(m) * a + rem;
    if m > 0 {
      assert Abs(m) == m;
      if n >= 0 {
        assert q == a;
      } else {
        assert q == -a;
        assert m * q == -(m * a);
      }
    } else {
      assert Abs(m) == -m;
      assert Abs(m) * a == -(m * a);
      if n >= 0 {
        assert q == -a;
        assert m * q == -(m * a);
      } else {
        assert q == a;
      }
    }
  }

  /** For a non-negative dividend Dafny's `%` by m is the same as by |m|. */
  lemma EuclidAbs(n: int, m: int)
    requires n >= 0 && m != 0
    ensures n % m == n % Abs(m)
  {
    if m < 0 {
      var q, rem := n / Abs(m), n % Abs(m);
      assert n == Abs(m) * q + rem;
      assert n == m * (-q) + rem;
      Bits.DivUnique(n, Abs(m), q, rem);
      assert n % m == rem;
    }
  }

  /**
   * Where C's `%` and Dafny's `%` differ: for a negative dividend whose C
   * remainder is not zero, C's remainder is negative and Dafny's is not.
   */
  lemma ModDiffersOnNegatives(n: int, m: int)
    requires m != 0 && n < 0 && Mod(n, m) != 0
    ensures Mod(n, m) < 0 <= n % m
    ensures Mod(-7, 3) == -1 && -7 % 3 == 2
  {
  }
}
