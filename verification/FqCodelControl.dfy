/** The control law of CoDel: rec_inv_sqrt is a fixed-point estimate of
    1/sqrt(count) that never exceeds it and closes in on it quadratically, so
    consecutive drops lie at most interval/sqrt(count) apart. */
module FqCodelControl {
  import opened Util
  import opened Words
  import opened FqCodelModel

  // ----- clock comparisons ----------------------------------------------------------

  /** The signed difference of two wrapped clock readings is the true one as long
      as the two times lie less than half the clock's range apart. */
  lemma AheadExact(x: int, y: int)
    requires -(U32 / 2) <= x - y < U32 / 2
    ensures Ahead(x % U32, y % U32) == x - y
  {
    var d := (x % U32 - y % U32) % U32;
    assert (d - (x - y)) % U32 == 0;
  }

  // ----- one Newton iteration --------------------------------------------------------

  /** count * (estimate of 1/sqrt(count))^2, with 2^32 for one. */
  function Product(count: nat, r: nat): nat {
    count * (r * r)
  }

  lemma MulLe(a: int, b: int, c: int, d: int)
    requires 0 <= a <= b && 0 <= c <= d
    ensures 0 <= a * c <= b * d
  {
    assert b * d == a * c + a * (d - c) + (b - a) * d;
  }

  lemma SquareOfHigh(r: nat)
    ensures (r * 0x1_0000) * (r * 0x1_0000) / U32 == r * r
  {
    assert (r * 0x1_0000) * (r * 0x1_0000) == U32 * (r * r);
  }

  lemma ShiftOut(val: nat, r: nat)
    requires val < U32 && r < 0x1_0000
    ensures (val * (r * 0x1_0000)) % U64 / 0x8000_0000 / 0x1_0000 == val * r / 0x8000_0000
  {
    var y := val * r;
    assert val * (r * 0x1_0000) == y * 0x1_0000;
    MulLe(val, U32 - 1, r, 0xFFFF);
    assert y * 0x1_0000 / 0x8000_0000 / 0x1_0000 == y / 0x8000_0000;
  }

  /** As long as the product is at most three nothing wraps on the way. */
  lemma NewtonForm(v: CodelVars)
    requires v.recInvSqrt < 0x1_0000 && Product(v.count, v.recInvSqrt) <= 3 * U32
    ensures var r := v.recInvSqrt;
            NewtonStep(v).recInvSqrt == (3 * U32 - Product(v.count, r)) / 4 * r / 0x8000_0000 % 0x1_0000
  {
    var r := v.recInvSqrt;
    SquareOfHigh(r);
    var p := Product(v.count, r);
    assert (3 * U32 - v.count * (r * r)) % U64 == 3 * U32 - p;
    ShiftOut((3 * U32 - p) / 4, r);
  }

  /** The error polynomial of the iteration x' = x * (3 - c * x^2) / 2. */
  lemma ErrorPolynomial(b: int, x: int)
    ensures x * ((3 * b - x) * (3 * b - x)) == 4 * b * b * b - (b - x) * (b - x) * (4 * b - x)
  {
  }

  lemma MulMono(a: int, b: int, c: int)
    requires a <= b && 0 <= c
    ensures a * c <= b * c && c * a <= c * b
  {
    assert (b - a) * c >= 0;
  }

  lemma SquareMono(a: int, b: int)
    requires 0 <= a <= b
    ensures a * a <= b * b
  {
    MulLe(a, b, a, b);
  }

  /** Rounding down costs less than two units of the estimate. */
  lemma Bracket(a: nat, r: nat, q: nat)
    requires r < 0x1_0000 && q == a / 4 * r / 0x8000_0000
    ensures 2 * U32 * q <= a * r <= 2 * U32 * (q + 2)
  {
    var y := a / 4 * r;
    assert 0x8000_0000 * q <= y < 0x8000_0000 * (q + 1);
    assert 4 * y == 4 * (a / 4) * r;
    MulMono(4 * (a / 4), a, r);
    MulMono(a, 4 * (a / 4) + 3, r);
    assert (4 * (a / 4) + 3) * r == 4 * y + 3 * r;
  }

  lemma ScaledSquare(b: int, c: int, q: int)
    ensures c * ((2 * b * q) * (2 * b * q)) == 4 * b * b * (c * (q * q))
  {
  }

  lemma ProductOut(a: int, c: int, r: int)
    ensures c * ((a * r) * (a * r)) == c * (r * r) * (a * a)
  {
  }

  /** c * q^2 from above, where q approximates the iteration on p == c * r^2. */
  lemma Upper(b: pos, c: nat, r: nat, q: nat, p: int)
    requires p == c * (r * r) <= 3 * b && 2 * b * q <= (3 * b - p) * r
    ensures c * (q * q) <= b && (p < b ==> c * (q * q) < b)
  {
    var a, e := 3 * b - p, (b - p) * (b - p) * (4 * b - p);
    assert 4 * b * b * (c * (q * q)) <= p * (a * a) by {
      MulLe(0, 2 * b, 0, q);
      SquareMono(2 * b * q, a * r);
      MulMono((2 * b * q) * (2 * b * q), (a * r) * (a * r), c);
      ScaledSquare(b, c, q);
      ProductOut(a, c, r);
    }
    ErrorPolynomial(b, p);
    SquaredTimes(b - p, 4 * b - p);
    MulLe(1, 4 * b, 1, b);
    Cancel(4 * b * b, c * (q * q), b, e);
  }

  lemma SquaredTimes(x: int, y: int)
    requires y > 0
    ensures x * x * y >= 0 && (x != 0 ==> x * x * y > 0)
  {
    assert x * x >= 0 && (x != 0 ==> x * x > 0);
  }

  lemma Cancel(k: pos, x: int, y: int, e: int)
    requires k * x <= k * y - e && e >= 0
    ensures x <= y && (e > 0 ==> x < y)
  {
    if x > y {
      MulMono(y + 1, x, k);
    }
  }

  lemma Lower(b: pos, c: nat, r: nat, q: nat, p: int)
    requires p == c * (r * r) <= 3 * b && (3 * b - p) * r <= 2 * b * (q + 2)
    ensures 4 * b * b * (b - c * ((q + 2) * (q + 2))) <= (b - p) * (b - p) * (4 * b - p)
  {
    var a, q2 := 3 * b - p, q + 2;
    assert p * (a * a) <= 4 * b * b * (c * (q2 * q2)) by {
      MulLe(0, a, 0, r);
      SquareMono(a * r, 2 * b * q2);
      MulMono((a * r) * (a * r), (2 * b * q2) * (2 * b * q2), c);
      ScaledSquare(b, c, q2);
      ProductOut(a, c, r);
    }
    ErrorPolynomial(b, p);
  }

  /** The estimate never exceeds 1/sqrt(count), it does not fall while it is
      below, and its error is squared by every iteration, up to two units. */
  lemma NewtonLaw(v: CodelVars)
    requires v.count >= 1 && v.recInvSqrt < 0x1_0000 && Product(v.count, v.recInvSqrt) <= 3 * U32
    ensures var r := NewtonStep(v).recInvSqrt;
            && NewtonStep(v) == v.(recInvSqrt := r) && r < 0x1_0000
            && Product(v.count, r) <= U32
            && (Product(v.count, v.recInvSqrt) <= U32 ==> r >= v.recInvSqrt)
            && U32 * (U32 - Product(v.count, r + 2)) <= Square(U32 - Product(v.count, v.recInvSqrt))
            && (v.recInvSqrt <= 1 ==> r <= 1)
  {
    var c, r, p := v.count, v.recInvSqrt, Product(v.count, v.recInvSqrt);
    NewtonForm(v);
    var a := 3 * U32 - p;
    var q := NextEstimate(c, r, p);
    hide NewtonStep;
    assert NewtonStep(v).recInvSqrt == q;
    assert p <= U32 ==> q >= r by {
      if p <= U32 {
        MulMono(0x8000_0000, a / 4, r);
      }
    }
  }

  function Square(x: int): int {
    x * x
  }

  lemma NextEstimate(c: nat, r: nat, p: nat) returns (q: nat)
    requires c >= 1 && r < 0x1_0000 && p == c * (r * r) <= 3 * U32
    ensures q == (3 * U32 - p) / 4 * r / 0x8000_0000 && q < 0x1_0000
    ensures c * (q * q) <= U32
    ensures U32 * (U32 - c * ((q + 2) * (q + 2))) <= (U32 - p) * (U32 - p)
  {
    var a := 3 * U32 - p;
    MulLe(0, a / 4, 0, r);
    q := a / 4 * r / 0x8000_0000;
    Bracket(a, r, q);
    Upper(U32, c, r, q, p);
    FitsHalf(c, r, q);
    Lower(U32, c, r, q, p);
    Quadratic(U32, U32 - c * ((q + 2) * (q + 2)), U32 - p, p);
  }

  lemma FitsHalf(c: nat, r: nat, q: nat)
    requires c >= 1 && r < 0x1_0000
    requires c * (q * q) <= U32 && (c * (r * r) < U32 ==> c * (q * q) < U32)
    ensures q < 0x1_0000
  {
    if q >= 0x1_0000 {
      SquareMono(0x1_0000, q);
      if c == 1 {
        SquareMono(r, 0xFFFF);
      } else {
        MulMono(2, c, q * q);
      }
    }
  }

  lemma Quadratic(b: pos, e: int, d: int, p: nat)
    requires 4 * b * b * e <= d * d * (4 * b - p)
    ensures b * e <= d * d
  {
    assert d * d * (4 * b - p) <= 4 * b * (d * d) by {
      MulMono(4 * b - p, 4 * b, d * d);
    }
    assert 4 * b * b * e == 4 * b * (b * e);
    Cancel(4 * b, b * e, d * d, 0);
  }

  // ----- the variables in every run ----------------------------------------------------

  /** The estimate is at most 1/sqrt(count).  The second part keeps it so when the
      dropping state is entered again with a smaller count; it survives the
      wrap of count because the estimate is one unit at most by then. */
  predicate Sane(v: CodelVars) {
    && v.count < U32 && v.recInvSqrt < 0x1_0000
    && Product(v.count, v.recInvSqrt) <= U32
    && (v.recInvSqrt <= 1 || 1 <= v.lastcount <= v.count)
  }

  /** One more drop adds less than one to the product. */
  lemma OneMore(c: nat, r: nat)
    requires r < 0x1_0000 && Product(c, r) <= U32
    ensures Product(c + 1, r) <= 2 * U32
  {
    SquareMono(r, 0xFFFF);
    assert (c + 1) * (r * r) == c * (r * r) + r * r;
  }

  lemma LargeCount(r: nat)
    requires Product(U32 - 1, r) <= U32
    ensures r <= 1
  {
    if r >= 2 {
      SquareMono(2, r);
      MulMono(4, r * r, U32 - 1);
    }
  }

  lemma NewtonZero(v: CodelVars)
    requires v.count == 0 && v.recInvSqrt <= 1
    ensures NewtonStep(v) == v
  {
    NewtonForm(v);
  }

  lemma CountDropSane(v: CodelVars)
    requires Sane(v)
    ensures Sane(CountDrop(v))
    ensures CountDrop(v) == v.(count := (v.count + 1) % U32, recInvSqrt := CountDrop(v).recInvSqrt)
  {
    hide NewtonStep, Product;
    OneMore(v.count, v.recInvSqrt);
    if v.count == U32 - 1 {
      LargeCount(v.recInvSqrt);
    }
    var w := v.(count := (v.count + 1) % U32);
    if w.count > 0 {
      NewtonLaw(w);
    } else {
      NewtonZero(w);
      assert Product(0, v.recInvSqrt) == 0 by {
        ProductZero(v.recInvSqrt);
      }
    }
  }

  lemma ProductZero(r: nat)
    ensures Product(0, r) == 0
  {
  }

  lemma ProductLess(c: nat, d: nat, r: nat)
    requires c <= d
    ensures Product(c, r) <= Product(d, r)
  {
    MulMono(c, d, r * r);
  }

  /** The dropping state starts with an odd count and schedules the next drop from
      now on.  If the last spell ended less than 16 intervals ago the count is
      the number of drops of that spell, otherwise one. */
  lemma EnterSane(v: CodelVars, interval: Time, now: Time)
    requires Sane(v)
    ensures var w := EnterDropping(v, interval, now);
            && Sane(w) && w.dropping && w.lastcount == w.count && w.count % 2 == 1
            && w == v.(dropping := true, count := w.count, lastcount := w.count,
                       recInvSqrt := w.recInvSqrt, dropNext := w.dropNext)
            && w.dropNext == ControlLaw(now, interval, w.recInvSqrt)
            && var c, soon := (v.count - v.lastcount) % U32, Ahead((now - v.dropNext) % U32, 16 * interval) < 0;
            && (soon ==> c <= w.count <= c + 1)
            && (!soon ==> w.count == 1 && Close(w))
  {
    hide NewtonStep, Product, ControlLaw, Ahead;
    var c := (v.count - v.lastcount) % U32;
    var d := if c % 2 == 0 then c + 1 else c;
    assert Product(d, v.recInvSqrt) <= U32 by {
      if v.recInvSqrt <= 1 {
        SmallProduct(d, v.recInvSqrt);
      } else {
        ProductLess(d, v.count, v.recInvSqrt);
      }
    }
    NewtonLaw(v.(dropping := true, count := d));
    SmallProduct(1, 0);
    ProductOne(0xFFFF);
    ProductOne(0x1_0001);
  }

  lemma ProductOne(r: nat)
    ensures Product(1, r) == r * r
  {
  }

  lemma SmallProduct(c: nat, r: nat)
    requires c < U32 && r <= 1
    ensures Product(c, r) <= U32
  {
  }

  lemma PostponeSane(v: CodelVars, interval: Time)
    requires Sane(v)
    ensures Sane(Postpone(v, interval))
  {
  }

  lemma ShiftDown(y: nat)
    ensures y * 0x1_0000 / U32 == y / 0x1_0000
    ensures y / 0x1_0000 * 0x1_0000 <= y < (y / 0x1_0000 + 1) * 0x1_0000
  {
  }

  lemma Later(t: Time, g: nat)
    requires g < U32
    ensures ((t + g) % U32 - t) % U32 == g
  {
  }

  /** Consecutive drops lie at most interval/sqrt(count) apart. */
  lemma Spacing(v: CodelVars, t: Time, interval: Time)
    requires Sane(v)
    ensures var gap := (ControlLaw(t, interval, v.recInvSqrt) - t) % U32;
            && gap * 0x1_0000 <= interval * v.recInvSqrt < (gap + 1) * 0x1_0000
            && v.count * (gap * gap) <= interval * interval
  {
    var r := v.recInvSqrt;
    MulLe(interval, interval, r, 0xFFFF);
    var y := interval * r;
    var g := y / 0x1_0000;
    assert interval * (r * 0x1_0000) == y * 0x1_0000;
    ShiftDown(y);
    Later(t, g);
    assert ControlLaw(t, interval, r) == (t + g) % U32;
    hide ControlLaw;
    GapBound(v.count, g, interval, r);
  }

  lemma GapBound(c: nat, g: nat, i: nat, r: nat)
    requires g * 0x1_0000 <= i * r && c * (r * r) <= U32
    ensures c * (g * g) <= i * i
  {
    SquareMono(g * 0x1_0000, i * r);
    MulMono((g * 0x1_0000) * (g * 0x1_0000), (i * r) * (i * r), c);
    ProductOut(i, c, r);
    MulMono(c * (r * r), U32, i * i);
    assert c * ((g * 0x1_0000) * (g * 0x1_0000)) == U32 * (c * (g * g));
  }

  // ----- how good the estimate is --------------------------------------------------------

  /** The estimate is at most 1/sqrt(count), and with two units added at least
      1/sqrt(2 * count). */
  predicate Close(v: CodelVars) {
    && v.recInvSqrt < 0x1_0000
    && Product(v.count, v.recInvSqrt) <= U32 <= 2 * Product(v.count, v.recInvSqrt + 2)
  }

  /** One iteration for each drop keeps up with the growing count. */
  lemma CountDropClose(v: CodelVars)
    requires Close(v) && 1 <= v.count && v.count + 1 < U32
    ensures Close(CountDrop(v))
  {
    hide NewtonStep, Product;
    var w := v.(count := v.count + 1);
    var r, p := v.recInvSqrt, Product(w.count, v.recInvSqrt);
    OneMore(v.count, r);
    NewtonLaw(w);
    var q := NewtonStep(w).recInvSqrt;
    if p <= U32 {
      ProductLess(v.count, w.count, r + 2);
      ProductGrows(w.count, r + 2, q + 2);
    } else {
      FromAbove(w.count, r, p, q) by {
        NewtonForm(w);
      }
    }
  }

  lemma ProductGrows(c: nat, r: nat, q: nat)
    requires r <= q
    ensures Product(c, r) <= Product(c, q)
  {
    SquareMono(r, q);
    MulMono(r * r, q * q, c);
  }

  lemma FromAbove(c: nat, r: nat, p: nat, q: nat)
    requires c >= 1 && r < 0x1_0000 && p == Product(c, r) && U32 < p <= 2 * U32
    requires q == (3 * U32 - p) / 4 * r / 0x8000_0000 % 0x1_0000
    ensures U32 <= 2 * Product(c, q + 2)
  {
    var q' := NextEstimate(c, r, p);
    Bracket(3 * U32 - p, r, q);
    Lower(U32, c, r, q, p);
    Halved(U32, p - U32, c * ((q + 2) * (q + 2)));
  }

  lemma CubeGap(b: nat, y: nat)
    requires y <= b
    ensures y * y * (3 * b - y) <= 2 * b * b * b
  {
    assert 2 * b * b * b - y * y * (3 * b - y) == (b - y) * (2 * b * b + y * (2 * b - y));
    MulLe(0, y, 0, 2 * b - y);
    MulLe(0, b, 0, b);
    MulLe(0, b - y, 0, 2 * b * b + y * (2 * b - y));
  }

  lemma Halved(b: pos, y: nat, z: int)
    requires y <= b && 4 * b * b * (b - z) <= y * y * (3 * b - y)
    ensures b <= 2 * z
  {
    var k := 2 * b * b;
    MulLe(1, 2 * b, 1, b);
    CubeGap(b, y);
    assert 4 * b * b * (b - z) == k * (2 * (b - z));
    Cancel(k, 2 * (b - z), b, 0);
  }

  // ----- an estimate of zero --------------------------------------------------------------

  /** Entering leaves an estimate of zero exactly if it was zero and the last spell
      seems recent: then the count is taken over and one iteration cannot lift
      the estimate off zero. */
  lemma ZeroIff(v: CodelVars, interval: Time, now: Time)
    requires Sane(v)
    ensures EnterDropping(v, interval, now).recInvSqrt == 0 <==>
              v.recInvSqrt == 0 && Ahead((now - v.dropNext) % U32, 16 * interval) < 0
  {
    hide NewtonStep, Product, ControlLaw, Ahead;
    var c := (v.count - v.lastcount) % U32;
    var d := if c % 2 == 0 then c + 1 else c;
    if v.recInvSqrt <= 1 {
      SmallProduct(d, v.recInvSqrt);
    } else {
      ProductLess(d, v.count, v.recInvSqrt);
    }
    NewtonLaw(v.(dropping := true, count := d));
    if v.recInvSqrt == 0 {
      NewtonOfZero(v.(dropping := true, count := d));
    }
  }

  lemma NewtonOfZero(v: CodelVars)
    requires v.recInvSqrt == 0
    ensures NewtonStep(v).recInvSqrt == 0
  {
  }

  /** With an estimate of zero the schedule stands still: the next drop stays due. */
  lemma ZeroStands(v: CodelVars, interval: Time)
    requires v.recInvSqrt == 0
    ensures var w := Postpone(CountDrop(v), interval); w.recInvSqrt == 0 && w.dropNext == v.dropNext
  {
    NewtonOfZero(v.(count := (v.count + 1) % U32));
  }

  /** A flow whose variables were just cleared enters the dropping state that way
      in the first 16 intervals of the clock's range and, from 16 intervals after
      its middle, in all the rest of it; the next drop is then due at once. */
  lemma FreshZeroIff(interval: Time, now: Time)
    requires 16 * interval < U32 / 2
    ensures var w := EnterDropping(FRESH_VARS, interval, now);
            && (w.recInvSqrt == 0 <==> now < 16 * interval || now >= U32 / 2 + 16 * interval)
            && (w.recInvSqrt == 0 ==> w.dropNext == now)
  {
    hide EnterDropping, Ahead;
    ProductZero(0);
    ZeroIff(FRESH_VARS, interval, now);
    EnterSane(FRESH_VARS, interval, now);
    FreshSoon(interval, now);
  }

  lemma FreshSoon(interval: Time, now: Time)
    requires 16 * interval < U32 / 2
    ensures Ahead((now - 0) % U32, 16 * interval) < 0 <==>
              now < 16 * interval || now >= U32 / 2 + 16 * interval
  {
  }

  /** With the default interval of 100 ms and the clock at three quarters of its
      range, a fresh flow's second drop is due together with the first. */
  lemma StandsStill()
    ensures var w := EnterDropping(FRESH_VARS, 97656, 0xC000_0000);
            w.dropNext == 0xC000_0000 == Postpone(CountDrop(w), 97656).dropNext
  {
    FreshZeroIff(97656, 0xC000_0000);
    ZeroStands(EnterDropping(FRESH_VARS, 97656, 0xC000_0000), 97656);
  }
}
