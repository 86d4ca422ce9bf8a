/** CRC-8 with a table.  Both table generators are proved to hold the eight-step
    remainder of every index, and the table-driven loop to equal feeding the
    message to a shift register one bit at a time. */
module Crc8 {
  import opened Util
  import opened Words
  import opened BitXor

  /** Which end of a byte goes first. */
  datatype Order = MsbFirst | LsbFirst

  /** A byte moved on by one bit, and the bit that falls out. */
  function Shift(o: Order, c: byte): byte {
    if o.MsbFirst? then 2 * c % 256 else c / 2
  }

  predicate Out(o: Order, c: byte) {
    if o.MsbFirst? then c >= 128 else c % 2 == 1
  }

  function X(a: byte, b: byte): byte {
    assert Pow2(8) == 256;
    XorBound(a, b, 8);
    Xor(a, b)
  }

  function If(b: bool, p: byte): byte {
    if b then p else 0
  }

  /** One step of polynomial division. */
  function Step(o: Order, p: byte, c: byte): byte {
    X(Shift(o, c), If(Out(o, c), p))
  }

  function Steps(o: Order, p: byte, n: nat, c: byte): byte {
    if n == 0 then c else Steps(o, p, n - 1, Step(o, p, c))
  }

  /** The remainder of a byte: what a table holds at that index. */
  function Rem(o: Order, p: byte, c: byte): byte {
    Steps(o, p, 8, c)
  }

  // ----- the shift register, bit by bit --------------------------------------------------

  /** The register takes one message bit. */
  function Feed(o: Order, p: byte, c: byte, bit: bool): byte {
    X(Shift(o, c), If(Out(o, c) != bit, p))
  }

  /** The register takes the first n bits of a byte. */
  function FeedBits(o: Order, p: byte, n: nat, c: byte, b: byte): byte {
    if n == 0 then c else FeedBits(o, p, n - 1, Feed(o, p, c, Out(o, b)), Shift(o, b))
  }

  /** The register takes a message. */
  function BitSerial(o: Order, p: byte, data: seq<byte>, c: byte): byte {
    if data == [] then c
    else FeedBits(o, p, 8, BitSerial(o, p, data[..|data| - 1], c), data[|data| - 1])
  }

  // ----- linearity -----------------------------------------------------------------------

  lemma ByteParts(a: byte)
    ensures 2 * a % 256 == 2 * Low(a, 7)
    ensures High(a, 7) == (if a >= 128 then 1 else 0)
  {
    assert Pow2(7) == 128;
    HighLow(a, 7);
  }

  lemma ShiftLinear(o: Order, a: byte, b: byte)
    ensures Shift(o, X(a, b)) == X(Shift(o, a), Shift(o, b))
    ensures Out(o, X(a, b)) <==> Out(o, a) != Out(o, b)
  {
    hide Xor, High, Low;
    if o.LsbFirst? {
      XorHalves(a, b);
    } else {
      ByteParts(a);
      ByteParts(b);
      ByteParts(X(a, b));
      XorParts(a, b, 7);
      XorDouble(Low(a, 7), Low(b, 7));
      XorSelf(1);
      XorZero(0);
      XorZero(1);
    }
  }

  lemma IfLinear(p: byte, s: bool, t: bool)
    ensures X(If(s, p), If(t, p)) == If(s != t, p)
  {
    XorSelf(p);
    XorZero(p);
    XorZero(0);
  }

  /** Division of a sum is the sum of the divisions. */
  lemma StepLinear(o: Order, p: byte, a: byte, b: byte)
    ensures Step(o, p, X(a, b)) == X(Step(o, p, a), Step(o, p, b))
  {
    ShiftLinear(o, a, b);
    IfLinear(p, Out(o, a), Out(o, b));
    XorSwap(Shift(o, a), If(Out(o, a), p), Shift(o, b), If(Out(o, b), p));
    hide Shift, Out, If, Xor;
  }

  lemma {:induction false} StepsLinear(o: Order, p: byte, n: nat, a: byte, b: byte)
    ensures Steps(o, p, n, X(a, b)) == X(Steps(o, p, n, a), Steps(o, p, n, b))
    decreases n
  {
    hide Step, X;
    if n > 0 {
      StepLinear(o, p, a, b);
      StepsLinear(o, p, n - 1, Step(o, p, a), Step(o, p, b));
    }
  }

  lemma {:induction false} StepsAdd(o: Order, p: byte, m: nat, n: nat, c: byte)
    ensures Steps(o, p, m + n, c) == Steps(o, p, n, Steps(o, p, m, c))
    decreases m
  {
    hide Step;
    if m > 0 {
      StepsAdd(o, p, m - 1, n, Step(o, p, c));
    }
  }

  // ----- a byte at once equals its bits one by one ------------------------------------------

  function Shifts(o: Order, n: nat, b: byte): byte {
    if n == 0 then b else Shifts(o, n - 1, Shift(o, b))
  }

  lemma FeedIsStep(o: Order, p: byte, c: byte, b: byte)
    ensures Step(o, p, X(c, b)) == X(Feed(o, p, c, Out(o, b)), Shift(o, b))
  {
    StepLinear(o, p, c, b);
    var sc, sb, ic, ib := Shift(o, c), Shift(o, b), If(Out(o, c), p), If(Out(o, b), p);
    IfLinear(p, Out(o, c), Out(o, b));
    hide Shift, Out, If, Xor;
    XorComm(sb, ib);
    XorAssoc(X(sc, ic), ib, sb);
    XorAssoc(sc, ic, ib);
  }

  lemma {:induction false} FeedBitsAreSteps(o: Order, p: byte, n: nat, c: byte, b: byte)
    ensures Steps(o, p, n, X(c, b)) == X(FeedBits(o, p, n, c, b), Shifts(o, n, b))
    decreases n
  {
    hide Step, X, Feed, Shift, Out;
    if n > 0 {
      FeedIsStep(o, p, c, b);
      FeedBitsAreSteps(o, p, n - 1, Feed(o, p, c, Out(o, b)), Shift(o, b));
    }
  }

  lemma ShiftedOut(o: Order, b: byte)
    ensures Shifts(o, 8, b) == 0
  {
    if o.LsbFirst? {
      LsbOut(8, b);
    } else {
      MsbOut(8, b);
    }
  }

  lemma {:induction false} LsbOut(n: nat, b: byte)
    requires n <= 8 && b < Pow2(n)
    ensures Shifts(LsbFirst, n, b) == 0
  {
    if n > 0 {
      LsbOut(n - 1, b / 2);
    }
  }

  lemma {:induction false} MsbOut(n: nat, b: byte)
    requires n <= 8 && Low(b, 8 - n) == 0
    ensures Shifts(MsbFirst, n, b) == 0
  {
    if n == 0 {
      LowAll(b, 8);
    } else {
      ByteParts(b);
      LowOfDouble(b, 8 - n);
      MsbOut(n - 1, 2 * b % 256);
    }
  }

  lemma LowOfDouble(b: byte, k: nat)
    requires k <= 7 && Low(b, k) == 0
    ensures Low(2 * b % 256, k + 1) == 0
  {
    ByteParts(b);
    var d := Low(b, 7);
    LowOfLow(b, k, 7);
    assert 2 * d / 2 == d;
  }

  lemma {:induction false} LowOfLow(a: nat, k: nat, m: nat)
    requires k <= m
    ensures Low(Low(a, m), k) == Low(a, k)
  {
    if k > 0 {
      LowHalves(a, m);
      LowOfLow(a / 2, k - 1, m - 1);
    }
  }

  /** A byte xored into the register and eight steps: the same as its eight bits. */
  lemma ByteAtOnce(o: Order, p: byte, c: byte, b: byte)
    ensures Rem(o, p, X(c, b)) == FeedBits(o, p, 8, c, b)
  {
    FeedBitsAreSteps(o, p, 8, c, b);
    ShiftedOut(o, b);
    XorZero(FeedBits(o, p, 8, c, b));
    hide Steps, FeedBits, Shifts;
  }

  // ----- the table-driven loop --------------------------------------------------------------

  /** The CRC of a message, a byte at a time. */
  function Crc(o: Order, p: byte, data: seq<byte>, c: byte): byte {
    if data == [] then c
    else Rem(o, p, X(Crc(o, p, data[..|data| - 1], c), data[|data| - 1]))
  }

  /** The byte-wise CRC is the bit-serial one. */
  lemma {:induction false} CrcIsBitSerial(o: Order, p: byte, data: seq<byte>, c: byte)
    ensures Crc(o, p, data, c) == BitSerial(o, p, data, c)
  {
    hide X, Rem, FeedBits;
    if data != [] {
      var n := |data| - 1;
      CrcIsBitSerial(o, p, data[..n], c);
      ByteAtOnce(o, p, Crc(o, p, data[..n], c), data[n]);
    }
  }

  /** A message can be checked in pieces. */
  lemma {:induction false} CrcChains(o: Order, p: byte, a: seq<byte>, b: seq<byte>, c: byte)
    ensures Crc(o, p, a + b, c) == Crc(o, p, b, Crc(o, p, a, c))
    decreases |b|
  {
    hide X, Rem;
    if b == [] {
      assert a + b == a;
    } else {
      var n := |b| - 1;
      CrcChains(o, p, a, b[..n], c);
      assert (a + b)[..|a| + n] == a + b[..n];
    }
  }

  lemma {:induction false} XorComplement(k: nat, c: nat)
    requires c < Pow2(k)
    ensures Xor(c, Pow2(k) - 1 - c) == Pow2(k) - 1
  {
    hide Xor;
    if k == 0 {
      XorZero(0);
    } else {
      var n := Pow2(k - 1);
      XorComplement(k - 1, c / 2);
      XorHalves(c, 2 * n - 1 - c);
      ComplementHalves(n, c);
      SameHalves(Xor(c, 2 * n - 1 - c), 2 * n - 1);
    }
  }

  lemma ComplementHalves(n: nat, c: nat)
    requires c < 2 * n
    ensures (2 * n - 1 - c) / 2 == n - 1 - c / 2 && (c + (2 * n - 1 - c)) % 2 == 1
    ensures (2 * n - 1) / 2 == n - 1 && (2 * n - 1) % 2 == 1
  {
  }

  /** A message followed by its complemented CRC checks to CRC8_GOOD_VALUE. */
  lemma GoodValue(o: Order, p: byte, data: seq<byte>, c: byte)
    ensures Crc(o, p, data + [255 - Crc(o, p, data, c)], c) == Rem(o, p, 255)
  {
    var r := Crc(o, p, data, c);
    assert Pow2(8) == 256;
    XorComplement(8, r);
    var msg := data + [255 - r];
    assert msg[..|data|] == data;
    hide Rem;
  }

  // ----- single-byte errors ------------------------------------------------------------------

  /** The bit a polynomial must have for a step to be reversible. */
  predicate Reversible(o: Order, p: byte) {
    if o.MsbFirst? then p % 2 == 1 else p >= 128
  }

  /** For a reversible polynomial the bit that entered tells the bit that left. */
  lemma StepInjective(o: Order, p: byte, a: byte, b: byte)
    requires Reversible(o, p) && Step(o, p, a) == Step(o, p, b)
    ensures a == b
  {
    hide Xor, Shift, Out, Entry;
    StepEntry(o, p, a);
    StepEntry(o, p, b);
    XorCancel(Shift(o, a), Shift(o, b), If(Out(o, a), p));
    ShiftInjective(o, a, b);
  }

  lemma ShiftInjective(o: Order, a: byte, b: byte)
    requires Shift(o, a) == Shift(o, b) && (Out(o, a) <==> Out(o, b))
    ensures a == b
  {
    if o.MsbFirst? {
      Doubled(a);
      Doubled(b);
    } else {
      assert a == 2 * (a / 2) + a % 2 && b == 2 * (b / 2) + b % 2;
    }
  }

  lemma Doubled(a: byte)
    ensures 2 * a % 256 == if a >= 128 then 2 * a - 256 else 2 * a
  {
  }

  predicate Entry(o: Order, c: byte) {
    if o.MsbFirst? then c % 2 == 1 else c >= 128
  }

  lemma StepEntry(o: Order, p: byte, a: byte)
    requires Reversible(o, p)
    ensures Entry(o, Step(o, p, a)) <==> Out(o, a)
  {
    hide Xor;
    var s, i := Shift(o, a), If(Out(o, a), p);
    if o.MsbFirst? {
      XorHalves(s, i);
    } else {
      TopBit(s, i);
    }
  }

  lemma TopBit(s: byte, i: byte)
    requires s < 128
    ensures X(s, i) >= 128 <==> i >= 128
  {
    hide Xor, High, Low;
    ByteParts(s);
    ByteParts(i);
    ByteParts(X(s, i));
    XorParts(s, i, 7);
    XorZero(High(i, 7));
  }

  lemma {:induction false} StepsInjective(o: Order, p: byte, n: nat, a: byte, b: byte)
    requires Reversible(o, p) && Steps(o, p, n, a) == Steps(o, p, n, b)
    ensures a == b
    decreases n
  {
    hide Step;
    if n > 0 {
      StepsInjective(o, p, n - 1, Step(o, p, a), Step(o, p, b));
      StepInjective(o, p, a, b);
    }
  }

  lemma {:induction false} CrcInjective(o: Order, p: byte, data: seq<byte>, c: byte, d: byte)
    requires Reversible(o, p) && c != d
    ensures Crc(o, p, data, c) != Crc(o, p, data, d)
  {
    hide Steps, Reversible, X;
    if data != [] {
      var n := |data| - 1;
      CrcInjective(o, p, data[..n], c, d);
      var x, y := Crc(o, p, data[..n], c), Crc(o, p, data[..n], d);
      XInjective(x, y, data[n]);
      if Rem(o, p, X(x, data[n])) == Rem(o, p, X(y, data[n])) {
        StepsInjective(o, p, 8, X(x, data[n]), X(y, data[n]));
      }
    }
  }

  lemma XInjective(a: byte, b: byte, c: byte)
    ensures X(a, c) == X(b, c) ==> a == b
  {
    if X(a, c) == X(b, c) {
      XorCancel(a, b, c);
    }
  }

  /** The CRC detects the change of any one byte of any message. */
  predicate Detects(o: Order, p: byte, pre: seq<byte>, a: byte, b: byte, post: seq<byte>, c: byte) {
    Crc(o, p, pre + [a] + post, c) != Crc(o, p, pre + [b] + post, c)
  }

  lemma OneByteChanged(o: Order, p: byte, pre: seq<byte>, a: byte, b: byte, post: seq<byte>, c: byte)
    requires Reversible(o, p) && a != b
    ensures Detects(o, p, pre, a, b, post, c)
  {
    var r := Crc(o, p, pre, c);
    CrcChains(o, p, pre + [a], post, c);
    CrcChains(o, p, pre + [b], post, c);
    CrcChains(o, p, pre, [a], c);
    CrcChains(o, p, pre, [b], c);
    OneByte(o, p, a, r);
    OneByte(o, p, b, r);
    XorComm(r, a);
    XorComm(r, b);
    XInjective(a, b, r);
    hide Steps, Crc, Xor;
    if Rem(o, p, X(r, a)) == Rem(o, p, X(r, b)) {
      StepsInjective(o, p, 8, X(r, a), X(r, b));
    }
    CrcInjective(o, p, post, Rem(o, p, X(r, a)), Rem(o, p, X(r, b)));
  }

  lemma OneByte(o: Order, p: byte, a: byte, c: byte)
    ensures Crc(o, p, [a], c) == Rem(o, p, X(c, a))
  {
    hide X, Rem;
    assert [a][..0] == [];
  }

  /** Two bytes the CRC confuses when a step is not reversible. */
  function Confused(o: Order, p: byte): (byte, byte)
    requires !Reversible(o, p)
  {
    if o.MsbFirst? then (128, p / 2) else (1, 2 * p)
  }

  lemma ConfusedStep(o: Order, p: byte)
    requires !Reversible(o, p)
    ensures var (a, b) := Confused(o, p); a != b && Step(o, p, a) == p == Step(o, p, b)
  {
    hide Xor;
    XorZero(p);
    if o.MsbFirst? {
      assert Shift(o, 128) == 0 && Out(o, 128) && Shift(o, p / 2) == p && !Out(o, p / 2);
    } else {
      assert Shift(o, 1) == 0 && Out(o, 1) && Shift(o, 2 * p) == p && !Out(o, 2 * p);
    }
    hide Shift, Out;
  }

  lemma StepsFirst(o: Order, p: byte, n: nat, c: byte)
    ensures Steps(o, p, n + 1, c) == Steps(o, p, n, Step(o, p, c))
  {
  }

  lemma FromZero(a: byte)
    ensures X(0, a) == a
  {
    XorZero(a);
  }

  lemma NotDetected(o: Order, p: byte)
    requires !Reversible(o, p)
    ensures var (a, b) := Confused(o, p); a != b && !Detects(o, p, [], a, b, [], 0)
  {
    hide Step, Steps, X, Xor, Crc;
    var (a, b) := Confused(o, p);
    ConfusedStep(o, p);
    FromZero(a);
    FromZero(b);
    OneByte(o, p, a, 0);
    OneByte(o, p, b, 0);
    assert [] + [a] + [] == [a] && [] + [b] + [] == [b];
    StepsFirst(o, p, 7, a);
    StepsFirst(o, p, 7, b);
  }

  /** A change of one byte is always noticed exactly for the polynomials whose
      lowest term is present. */
  lemma DetectsIff(o: Order, p: byte)
    ensures (forall pre, a, b, post, c :: a != b ==> Detects(o, p, pre, a, b, post, c)) <==> Reversible(o, p)
  {
    if Reversible(o, p) {
      forall pre, a, b, post, c | a != b ensures Detects(o, p, pre, a, b, post, c) {
        OneByteChanged(o, p, pre, a, b, post, c);
      }
    } else {
      NotDetected(o, p);
    }
  }

  // ----- the generators and the loop ----------------------------------------------------------

  /** table[x] is the remainder of x. */
  ghost predicate IsTable(o: Order, p: byte, table: seq<byte>) {
    |table| == 256 && forall x: byte :: table[x] == Rem(o, p, x)
  }

  lemma RemLinear(o: Order, p: byte, a: byte, b: byte)
    ensures Rem(o, p, X(a, b)) == X(Rem(o, p, a), Rem(o, p, b))
  {
    StepsLinear(o, p, 8, a, b);
  }

  /** A single bit, moved towards the end where bits fall out. */
  function Bit(o: Order, k: nat): byte
    requires k < 8
  {
    PowUnder(if o.MsbFirst? then k else 7 - k);
    if o.MsbFirst? then Pow2(k) else Pow2(7 - k)
  }

  lemma {:induction false} PowUnder(k: nat)
    requires k < 8
    ensures Pow2(k) <= 128
    ensures k < 7 ==> Pow2(k) <= 64
  {
    PowSplit(k, 7 - k);
    assert Pow2(7) == 128;
    MulLe(1, Pow2(7 - k), Pow2(k));
    if k < 7 {
      MulLe(2, Pow2(7 - k), Pow2(k));
    }
  }

  lemma StepFree(o: Order, p: byte, c: byte)
    requires !Out(o, c)
    ensures Step(o, p, c) == Shift(o, c)
  {
    XorZero(Shift(o, c));
  }

  lemma BitMoves(o: Order, p: byte, k: nat)
    requires k < 7
    ensures Step(o, p, Bit(o, k)) == Bit(o, k + 1)
  {
    hide Step, X;
    PowUnder(k);
    PowUnder(6 - k);
    assert Pow2(k + 1) == 2 * Pow2(k) && Pow2(7 - k) == 2 * Pow2(6 - k);
    hide Pow2;
    StepFree(o, p, Bit(o, k));
  }

  lemma {:induction false} BitClimbs(o: Order, p: byte, k: nat)
    requires k < 8
    ensures Steps(o, p, 7 - k, Bit(o, k)) == Bit(o, 7)
    decreases 7 - k
  {
    hide Step, Bit;
    if k < 7 {
      BitMoves(o, p, k);
      BitClimbs(o, p, k + 1);
    }
  }

  /** The running value of the generators is the remainder of the bit they are at. */
  lemma GeneratorValue(o: Order, p: byte, k: nat)
    requires k < 8
    ensures Steps(o, p, k + 1, Bit(o, 7)) == Rem(o, p, Bit(o, k))
  {
    BitClimbs(o, p, k);
    StepsAdd(o, p, 7 - k, k + 1, Bit(o, k));
    assert 7 - k + (k + 1) == 8;
  }

  lemma StepsEnd(o: Order, p: byte, n: nat, c: byte)
    ensures Steps(o, p, n + 1, c) == Step(o, p, Steps(o, p, n, c))
  {
    StepsAdd(o, p, n, 1, c);
    assert Steps(o, p, 1, Steps(o, p, n, c)) == Steps(o, p, 0, Step(o, p, Steps(o, p, n, c)));
  }

  lemma {:induction false} RemZero(o: Order, p: byte, n: nat)
    ensures Steps(o, p, n, 0) == 0
    decreases n
  {
    XorZero(0);
    if n > 0 {
      RemZero(o, p, n - 1);
    }
  }

  /** crc8_populate_msb: each bit doubles the part of the table that is done. */
  method PopulateMsb(table: array<byte>, polynomial: byte)
    requires table.Length == 256
    modifies table
    ensures IsTable(MsbFirst, polynomial, table[..])
  {
    hide Step, X, Rem, Steps, Pow2;
    var t: byte := 128;
    table[0] := 0;
    MsbStart(polynomial);
    var i := 1;
    ghost var k := 0;
    while i < 256
      invariant k <= 8 && i == Pow2(k) && 1 <= i <= 256
      invariant t == Steps(MsbFirst, polynomial, k, Bit(MsbFirst, 7))
      invariant forall x: byte :: x < i ==> table[x] == Rem(MsbFirst, polynomial, x)
      decreases 256 - i
    {
      MsbTurn(k, i);
      GeneratorValue(MsbFirst, polynomial, k);
      StepsEnd(MsbFirst, polynomial, k, Bit(MsbFirst, 7));
      t := Step(MsbFirst, polynomial, t);
      for j := 0 to i
        invariant forall x: byte :: x < i + j ==> table[x] == Rem(MsbFirst, polynomial, x)
      {
        MsbEntry(polynomial, k, i, j);
        table[i + j] := X(table[j], t);
      }
      i := i * 2;
      k := k + 1;
    }
  }

  lemma MsbStart(p: byte)
    ensures Pow2(0) == 1 && Bit(MsbFirst, 7) == 128
    ensures Steps(MsbFirst, p, 0, 128) == 128
    ensures Rem(MsbFirst, p, 0) == 0
  {
    assert Pow2(7) == 128;
    RemZero(MsbFirst, p, 8);
  }

  lemma MsbTurn(k: nat, i: nat)
    requires k <= 8 && i == Pow2(k) && i < 256
    ensures k < 8 && 2 * i == Pow2(k + 1) && 2 * i <= 256 && Bit(MsbFirst, k) == i
  {
    assert Pow2(8) == 256;
    if k < 8 {
      PowUnder(k);
    }
  }

  lemma MsbEntry(p: byte, k: nat, i: nat, j: nat)
    requires k < 8 && i == Pow2(k) && j < i && i + j < 256
    ensures Rem(MsbFirst, p, i + j) == X(Rem(MsbFirst, p, j), Rem(MsbFirst, p, Bit(MsbFirst, k)))
  {
    XorPowerLow(k, j);
    XorComm(i, j);
    RemLinear(MsbFirst, p, j, i);
    hide Rem, Xor;
  }

  /** crc8_populate_lsb: each bit fills in the entries half way between those done. */
  method PopulateLsb(table: array<byte>, polynomial: byte)
    requires table.Length == 256
    modifies table
    ensures IsTable(LsbFirst, polynomial, table[..])
  {
    hide Step, X, Rem, Steps, Pow2, Done, Bit;
    var t: byte := 1;
    table[0] := 0;
    LsbStart(polynomial);
    var i := 128;
    ghost var k := 0;
    while i != 0
      invariant k <= 8 && (if k < 8 then i == Pow2(7 - k) && 1 <= i <= 128 else i == 0)
      invariant t == Steps(LsbFirst, polynomial, k, Bit(LsbFirst, 7))
      invariant forall x: byte :: Done(k, x) ==> table[x] == Rem(LsbFirst, polynomial, x)
      decreases i
    {
      LsbTurn(k, i);
      GeneratorValue(LsbFirst, polynomial, k);
      StepsEnd(LsbFirst, polynomial, k, Bit(LsbFirst, 7));
      t := Step(LsbFirst, polynomial, t);
      var j := 0;
      ghost var q := 0;
      while j < 256
        invariant j == 2 * i * q && q >= 0
        invariant forall x: byte :: Done(k, x) ==> table[x] == Rem(LsbFirst, polynomial, x)
        invariant forall x: byte :: Done(k + 1, x) && x < j ==> table[x] == Rem(LsbFirst, polynomial, x)
        decreases 256 - j
      {
        LsbEntry(polynomial, k, i, j, q);
        table[i + j] := X(table[j], t);
        forall x: byte | Done(k + 1, x) && x < j + 2 * i
          ensures table[x] == Rem(LsbFirst, polynomial, x)
        {
          if j <= x {
            LsbBetween(k, i, j, x);
          }
        }
        assert 2 * i * (q + 1) == j + 2 * i;
        j := j + 2 * i;
        q := q + 1;
      }
      i := i / 2;
      k := k + 1;
    }
    LsbAll();
  }

  /** Entry x is a multiple of 2^(8-k): filled before the k-th bit. */
  predicate Done(k: nat, x: byte) {
    k >= 8 || Low(x, 8 - k) == 0
  }

  lemma LsbAll()
    ensures forall x: byte :: Done(8, x)
  {
  }

  lemma LsbStart(p: byte)
    ensures Pow2(7) == 128 && Bit(LsbFirst, 7) == 1
    ensures Steps(LsbFirst, p, 0, 1) == 1
    ensures Rem(LsbFirst, p, 0) == 0
    ensures forall x: byte :: Done(0, x) ==> x == 0
  {
    RemZero(LsbFirst, p, 8);
    assert Pow2(8) == 256;
    forall x: byte | Done(0, x) ensures x == 0 {
      LowAll(x, 8);
    }
  }

  lemma LsbTurn(k: nat, i: nat)
    requires k <= 8 && i != 0 && (if k < 8 then i == Pow2(7 - k) else i == 0)
    ensures k < 8 && Bit(LsbFirst, k) == i
    ensures if k + 1 < 8 then i / 2 == Pow2(7 - (k + 1)) && 1 <= i / 2 <= 128 else i / 2 == 0
  {
    if k + 1 < 8 {
      PowUnder(6 - k);
    }
  }

  lemma LsbIndex(k: nat, i: nat, j: nat, q: nat)
    requires k < 8 && i == Pow2(7 - k) && j == 2 * i * q && j < 256
    ensures i + j < 256 && i + j == Xor(j, i)
    ensures Done(k, j) && Low(i + j, 8 - k) == i
  {
    hide Xor, Low;
    var m := 7 - k;
    XorPowerHigh(m, q);
    XorComm(i, j);
    LsbRoom(k, i, q);
    LowOfMultiple(j, m + 1, q);
    XorParts(j, i, m + 1);
    LowAll(i, m + 1);
    XorZero(i);
  }

  lemma LsbRoom(k: nat, i: nat, q: nat)
    requires k < 8 && i == Pow2(7 - k) && 2 * i * q < 256
    ensures i + 2 * i * q < 256
  {
    PowSplit(8 - k, k);
    assert Pow2(8) == 256;
    RoomAbove(i, q, Pow2(k));
  }

  lemma LsbEntry(p: byte, k: nat, i: nat, j: nat, q: nat)
    requires k < 8 && i == Pow2(7 - k) && j == 2 * i * q && j < 256
    ensures i + j < 256 && Done(k, j) && !Done(k, i + j)
    ensures Rem(LsbFirst, p, i + j) == X(Rem(LsbFirst, p, j), Rem(LsbFirst, p, Bit(LsbFirst, k)))
  {
    LsbIndex(k, i, j, q);
    hide Rem, Xor;
    PowUnder(7 - k);
    RemLinear(LsbFirst, p, j, i);
  }

  lemma RoomAbove(i: nat, q: nat, n: nat)
    requires 2 * i * q < 2 * i * n == 256
    ensures i + 2 * i * q < 256
  {
    assert q < n;
    MulLe(q + 1, n, 2 * i);
  }

  lemma {:induction false} LowOfMultiple(x: nat, m: nat, q: nat)
    requires x == Pow2(m) * q
    ensures Low(x, m) == 0
  {
    if m > 0 {
      assert x == 2 * (Pow2(m - 1) * q);
      LowOfMultiple(Pow2(m - 1) * q, m - 1, q);
    }
  }

  /** Between j and j + 2i the only multiples of i are j and j + i. */
  lemma LsbBetween(k: nat, i: nat, j: byte, x: byte)
    requires k < 8 && i == Pow2(7 - k) && Done(k, j)
    requires Done(k + 1, x) && j <= x < j + 2 * i
    ensures x == j || x == j + i
  {
    HighLow(x, 7 - k);
    HighLow(j, 8 - k);
    if k == 7 {
      assert Pow2(0) == 1;
    }
    hide High, Low;
    Multiples(i, High(x, 7 - k), High(j, 8 - k), x, j);
  }

  lemma Multiples(i: nat, a: nat, b: nat, x: nat, j: nat)
    requires i >= 1 && x == i * a && j == 2 * i * b && j <= x < j + 2 * i
    ensures x == j || x == j + i
  {
    var d := a - 2 * b;
    assert i * d == i * a - 2 * i * b;
    MulBound(i, d);
    MulBound(i, d - 2);
    assert i * (d - 2) == i * d - 2 * i;
    assert d == 0 || d == 1;
  }

  /** crc8: with a table of remainders, the bit-serial CRC of the data. */
  method ComputeCrc(o: Order, ghost p: byte, table: array<byte>, data: seq<byte>, init: byte) returns (crc: byte)
    requires IsTable(o, p, table[..])
    ensures crc == Crc(o, p, data, init) == BitSerial(o, p, data, init)
  {
    hide X, Rem;
    crc := init;
    for n := 0 to |data|
      invariant crc == Crc(o, p, data[..n], init)
    {
      assert data[..n + 1][..n] == data[..n];
      assert table[..][X(crc, data[n])] == Rem(o, p, X(crc, data[n]));
      crc := table[X(crc, data[n])];
    }
    assert data[..|data|] == data;
    CrcIsBitSerial(o, p, data, init);
  }
}
