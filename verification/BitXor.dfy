/** Bitwise exclusive or on naturals. */
module BitXor {
  import opened Words

  function Xor(a: nat, b: nat): nat {
    if a == 0 && b == 0 then 0 else 2 * Xor(a / 2, b / 2) + (a + b) % 2
  }

  lemma XorHalves(a: nat, b: nat)
    ensures Xor(a, b) / 2 == Xor(a / 2, b / 2) && Xor(a, b) % 2 == (a + b) % 2
  {
    if a == 0 && b == 0 {
      assert Xor(0, 0) == 0;
    }
  }

  lemma {:induction false} XorZero(a: nat)
    ensures Xor(a, 0) == a && Xor(0, a) == a
  {
    if a > 0 {
      XorZero(a / 2);
    }
  }

  lemma {:induction false} XorComm(a: nat, b: nat)
    ensures Xor(a, b) == Xor(b, a)
  {
    if a > 0 || b > 0 {
      XorComm(a / 2, b / 2);
    }
  }

  lemma {:induction false} XorSelf(a: nat)
    ensures Xor(a, a) == 0
  {
    if a > 0 {
      XorSelf(a / 2);
    }
  }

  lemma {:induction false} XorAssoc(a: nat, b: nat, c: nat)
    ensures Xor(Xor(a, b), c) == Xor(a, Xor(b, c))
    decreases a + b + c
  {
    hide Xor;
    if a + b + c > 0 {
      XorAssoc(a / 2, b / 2, c / 2);
    }
    XorHalves(a, b);
    XorHalves(b, c);
    XorHalves(Xor(a, b), c);
    XorHalves(a, Xor(b, c));
    XorZero(0);
    SameParity(a, b, c, Xor(a, b), Xor(b, c));
    SameHalves(Xor(Xor(a, b), c), Xor(a, Xor(b, c)));
  }

  lemma SameParity(a: nat, b: nat, c: nat, x: nat, y: nat)
    requires x % 2 == (a + b) % 2 && y % 2 == (b + c) % 2
    ensures (x + c) % 2 == (a + y) % 2
  {
  }

  lemma SameHalves(l: nat, r: nat)
    ensures l / 2 == r / 2 && l % 2 == r % 2 ==> l == r
  {
  }

  /** (a ^ b) ^ (c ^ d) == (a ^ c) ^ (b ^ d). */
  lemma XorSwap(a: nat, b: nat, c: nat, d: nat)
    ensures Xor(Xor(a, b), Xor(c, d)) == Xor(Xor(a, c), Xor(b, d))
  {
    XorAssoc(a, b, Xor(c, d));
    XorAssoc(b, c, d);
    XorComm(b, c);
    XorAssoc(c, b, d);
    XorAssoc(a, c, Xor(b, d));
  }

  lemma XorCancel(a: nat, b: nat, c: nat)
    requires Xor(a, c) == Xor(b, c)
    ensures a == b
  {
    XorAssoc(a, c, c);
    XorAssoc(b, c, c);
    XorSelf(c);
    XorZero(a);
    XorZero(b);
  }

  /** The bits from k up, and the bits below k. */
  function High(a: nat, k: nat): nat {
    if k == 0 then a else High(a / 2, k - 1)
  }

  function Low(a: nat, k: nat): nat {
    if k == 0 then 0 else 2 * Low(a / 2, k - 1) + a % 2
  }

  lemma {:induction false} HighLow(a: nat, k: nat)
    ensures a == Pow2(k) * High(a, k) + Low(a, k) && Low(a, k) < Pow2(k)
  {
    if k > 0 {
      HighLow(a / 2, k - 1);
      assert 2 * (Pow2(k - 1) * High(a, k)) == Pow2(k) * High(a, k);
    }
  }

  /** The parts above and below a bit are combined separately. */
  lemma {:induction false} XorParts(a: nat, b: nat, k: nat)
    ensures High(Xor(a, b), k) == Xor(High(a, k), High(b, k))
    ensures Low(Xor(a, b), k) == Xor(Low(a, k), Low(b, k))
  {
    hide Xor;
    if k == 0 {
      XorZero(0);
    } else {
      XorHalves(a, b);
      XorParts(a / 2, b / 2, k - 1);
      LowStep(a, b, k);
    }
  }

  lemma LowStep(a: nat, b: nat, k: nat)
    requires k > 0
    requires Low(Xor(a, b) / 2, k - 1) == Xor(Low(a / 2, k - 1), Low(b / 2, k - 1))
    ensures Low(Xor(a, b), k) == Xor(Low(a, k), Low(b, k))
  {
    hide Xor, Low;
    var x, y, z := Low(a, k), Low(b, k), Low(Xor(a, b), k);
    LowHalves(a, k);
    LowHalves(b, k);
    LowHalves(Xor(a, b), k);
    XorHalves(a, b);
    XorHalves(x, y);
    SumParity(a, b, x, y);
    SameHalves(z, Xor(x, y));
  }

  lemma SumParity(a: nat, b: nat, x: nat, y: nat)
    requires x % 2 == a % 2 && y % 2 == b % 2
    ensures (x + y) % 2 == (a + b) % 2
  {
  }

  lemma LowHalves(a: nat, k: nat)
    requires k > 0
    ensures Low(a, k) / 2 == Low(a / 2, k - 1) && Low(a, k) % 2 == a % 2
  {
  }

  lemma {:induction false} LowAll(a: nat, k: nat)
    requires a < Pow2(k)
    ensures Low(a, k) == a
  {
    if k > 0 {
      LowAll(a / 2, k - 1);
    }
  }

  lemma XorBound(a: nat, b: nat, k: nat)
    requires a < Pow2(k) && b < Pow2(k)
    ensures Xor(a, b) < Pow2(k)
  {
    XorParts(a, b, k);
    LowAll(a, k);
    LowAll(b, k);
    HighLow(Xor(a, b), k);
  }

  lemma XorDouble(a: nat, b: nat)
    ensures Xor(2 * a, 2 * b) == 2 * Xor(a, b)
  {
    XorHalves(2 * a, 2 * b);
    assert 2 * a / 2 == a && 2 * b / 2 == b;
  }

  /** A power of two added to a number without that bit, and with either nothing
      above it or nothing below it, is xored to it. */
  lemma {:induction false} XorPowerLow(k: nat, j: nat)
    requires j < Pow2(k)
    ensures Pow2(k) + j == Xor(Pow2(k), j)
  {
    if k == 0 {
      XorZero(1);
    } else {
      XorPowerLow(k - 1, j / 2);
      XorHalves(Pow2(k), j);
    }
  }

  lemma {:induction false} XorPowerHigh(k: nat, q: nat)
    ensures Pow2(k) + 2 * Pow2(k) * q == Xor(Pow2(k), 2 * Pow2(k) * q)
  {
    hide Xor;
    if k == 0 {
      XorOne(q);
      assert Pow2(k) == 1;
    } else {
      var p := Pow2(k - 1);
      XorPowerHigh(k - 1, q);
      XorDouble(p, 2 * p * q);
      MulAssoc(2, 2 * p, q);
      hide Pow2;
    }
  }

  lemma XorOne(q: nat)
    ensures Xor(1, 2 * q) == 1 + 2 * q
  {
    hide Xor;
    assert 2 * q / 2 == q;
    XorHalves(1, 2 * q);
    XorZero(q);
  }
}
