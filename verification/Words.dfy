/** Machine words: powers of two, bitwise operations on naturals, and the index
    arithmetic of buffers whose size is a power of two. */
module Words {
  import opened Util

  const U32: int := 0x1_0000_0000

  type byte = b: int | 0 <= b < 256

  function Pow2(k: nat): (r: nat)
    ensures r >= 1
  {
    if k == 0 then 1 else 2 * Pow2(k - 1)
  }

  /** Bitwise and, bit by bit from the low end. */
  function And(a: nat, b: nat): (r: nat)
    ensures r <= a && r <= b
  {
    if a == 0 || b == 0 then 0
    else And(a / 2, b / 2) * 2 + (if a % 2 == 1 && b % 2 == 1 then 1 else 0)
  }

  /** Masking with 2^k - 1 is the remainder by 2^k. */
  lemma {:induction false} AndMask(x: nat, k: nat)
    ensures And(x, Pow2(k) - 1) == x % Pow2(k)
  {
    hide And;
    if k == 0 {
      AndZero(x);
    } else if x == 0 {
      AndZero(Pow2(k) - 1);
    } else {
      var m := Pow2(k - 1);
      AndMask(x / 2, k - 1);
      AndHalves(x, 2 * m - 1);
      HalfMod(x, m);
    }
  }

  lemma AndZero(x: nat)
    ensures And(x, 0) == 0 == And(0, x) && x % 1 == 0 && 0 % (x + 1) == 0
  {
  }

  lemma AndHalves(a: nat, b: nat)
    requires a > 0 && b > 0 && b % 2 == 1
    ensures And(a, b) == And(a / 2, b / 2) * 2 + a % 2
  {
  }

  lemma HalfMod(x: nat, m: nat)
    requires m >= 1
    ensures x % (2 * m) == x / 2 % m * 2 + x % 2
  {
    var q, r := x / 2 / m, x / 2 % m;
    MulAssoc(2, m, q);
    DivUnique(x, 2 * m, q, 2 * r + x % 2);
  }

  lemma MulAssoc(a: int, b: int, c: int)
    ensures a * b * c == a * (b * c)
  {
  }

  lemma {:induction false} PowSplit(a: nat, b: nat)
    ensures Pow2(a + b) == Pow2(a) * Pow2(b)
  {
    if a > 0 {
      PowSplit(a - 1, b);
      MulAssoc(2, Pow2(a - 1), Pow2(b));
    }
  }

  lemma Pow2Is32()
    ensures Pow2(32) == U32
  {
    assert Pow2(8) == 256;
    PowSplit(8, 8);
    PowSplit(16, 16);
  }

  lemma ModMultiple(x: int, q: int, m: int)
    requires m >= 1
    ensures (x + m * q) % m == x % m
  {
    DivUnique(x + m * q, m, x / m + q, x % m) by {
      assert m * (x / m + q) == m * (x / m) + m * q;
    }
  }

  /** A 32-bit counter that wraps still counts modulo a power of two. */
  lemma WrapKeepsIndex(x: int, k: nat)
    requires k <= 32
    ensures x % U32 % Pow2(k) == x % Pow2(k)
  {
    Pow2Is32();
    PowSplit(k, 32 - k);
    ModOfMod(x, Pow2(k), Pow2(32 - k));
  }

  lemma ModOfMod(x: int, s: int, c: int)
    requires s >= 1 && c >= 1 && s * c >= 1
    ensures x % (s * c) % s == x % s
  {
    var m := s * c;
    MulAssoc(s, c, x / m);
    SameMod(x, x % m, c * (x / m), s);
  }

  lemma SameMod(x: int, r: int, t: int, s: int)
    requires s >= 1 && x == s * t + r
    ensures r % s == x % s
  {
    ModMultiple(r, t, s);
  }

  lemma ModAdd(x: int, y: int, m: int)
    requires m >= 1
    ensures (x % m + y) % m == (x + y) % m
  {
    ModMultiple(x % m + y, x / m, m);
    assert x % m + y + m * (x / m) == x + y;
  }

  lemma MulLe(a: int, b: int, e: nat)
    requires a <= b
    ensures a * e <= b * e
  {
  }

  lemma ModSmall(x: int, m: int)
    requires 0 <= x < m
    ensures x % m == x
  {
  }

  /** Two indices less than the modulus apart fall on different slots. */
  lemma ModDistinct(a: int, b: int, m: int)
    requires m >= 1 && a < b < a + m
    ensures a % m != b % m
  {
    if a % m == b % m {
      var d := b / m - a / m;
      assert m * d == b - a by {
        assert m * (b / m) - m * (a / m) == m * d;
      }
      MulBound(m, d);
    }
  }
}
