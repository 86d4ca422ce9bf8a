/** The checksum of the configuration file.  It takes two four-bit steps per byte, but
    through the first sixteen entries of a table meant for eight-bit steps, so a step can
    lose information.  What it detects, and what it does not, is settled here. */
module WlconfCrc {
  import opened Words

  datatype Reg = Reg(bits: bv32)

  const ZERO: Reg := Reg(0)

  function Plus(a: Reg, b: Reg): Reg {
    Reg(a.bits ^ b.bits)
  }

  /** The sixteen entries of the table that are ever used. */
  const TABLE: seq<bv32> :=
    [0x00000000, 0x77073096, 0xee0e612c, 0x990951ba, 0x076dc419, 0x706af48f, 0xe963a535, 0x9e6495a3,
     0x0edb8832, 0x79dcb8a4, 0xe0d5e91e, 0x97d2d988, 0x09b64c2b, 0x7eb17cbd, 0xe7b82d07, 0x90bf1d91]

  function Entry(c: Reg): Reg {
    Reg(TABLE[(c.bits & 15) as int])
  }

  /** The table as a sum over the bits of its index. */
  function Mixed(c: Reg): Reg {
    var n := c.bits;
    Reg(((0 - (n & 1)) & 0x77073096) ^ ((0 - ((n >> 1) & 1)) & 0xee0e612c)
        ^ ((0 - ((n >> 2) & 1)) & 0x076dc419) ^ ((0 - ((n >> 3) & 1)) & 0x0edb8832))
  }

  lemma EntryMixed(c: Reg)
    ensures Entry(c) == Mixed(c)
  {
    MixedLow(c);
    EntryLow(c.bits & 15);
    hide Mixed;
  }

  lemma MixedLow(c: Reg)
    ensures Mixed(Reg(c.bits & 15)) == Mixed(c) && c.bits & 15 < 16
  {
  }

  lemma EntryLow(n: bv32)
    requires n < 16
    ensures Reg(TABLE[n as int]) == Mixed(Reg(n))
  {
  }

  lemma MixedLinear(a: Reg, b: Reg)
    ensures Mixed(Plus(a, b)) == Plus(Mixed(a), Mixed(b))
  {
    BitLinear(a.bits, b.bits);
  }

  lemma BitLinear(a: bv32, b: bv32)
    ensures (0 - ((a ^ b) & 1)) & 0x77073096 == ((0 - (a & 1)) & 0x77073096) ^ ((0 - (b & 1)) & 0x77073096)
    ensures (0 - (((a ^ b) >> 1) & 1)) & 0xee0e612c
         == ((0 - ((a >> 1) & 1)) & 0xee0e612c) ^ ((0 - ((b >> 1) & 1)) & 0xee0e612c)
    ensures (0 - (((a ^ b) >> 2) & 1)) & 0x076dc419
         == ((0 - ((a >> 2) & 1)) & 0x076dc419) ^ ((0 - ((b >> 2) & 1)) & 0x076dc419)
    ensures (0 - (((a ^ b) >> 3) & 1)) & 0x0edb8832
         == ((0 - ((a >> 3) & 1)) & 0x0edb8832) ^ ((0 - ((b >> 3) & 1)) & 0x0edb8832)
  {
  }

  /** A register moved down by four bits. */
  function Down(c: Reg): Reg {
    Reg(c.bits >> 4)
  }

  lemma DownLinear(a: Reg, b: Reg)
    ensures Down(Plus(a, b)) == Plus(Down(a), Down(b))
  {
  }

  lemma PlusAssoc(a: Reg, b: Reg, c: Reg)
    ensures Plus(Plus(a, b), c) == Plus(a, Plus(b, c))
  {
  }

  lemma PlusComm(a: Reg, b: Reg)
    ensures Plus(a, b) == Plus(b, a)
  {
  }

  lemma PlusZero(a: Reg, b: Reg)
    ensures Plus(a, b) == ZERO <==> a == b
  {
  }

  lemma PlusNone(a: Reg)
    ensures Plus(a, ZERO) == a == Plus(ZERO, a)
  {
  }

  lemma PlusSwap(a: Reg, b: Reg, c: Reg, d: Reg)
    ensures Plus(Plus(a, b), Plus(c, d)) == Plus(Plus(a, c), Plus(b, d))
  {
    hide Plus;
    PlusAssoc(a, b, Plus(c, d));
    PlusAssoc(b, c, d);
    PlusComm(b, c);
    PlusAssoc(c, b, d);
    PlusAssoc(a, c, Plus(b, d));
  }

  lemma PlusCancel(a: Reg, b: Reg, c: Reg)
    ensures Plus(Plus(a, c), Plus(b, c)) == Plus(a, b) == Plus(Plus(c, a), Plus(c, b))
  {
    hide Plus;
    PlusSwap(a, c, b, c);
    PlusSwap(c, a, c, b);
    PlusZero(c, c);
    PlusNone(Plus(a, b));
  }

  /** One four-bit step. */
  function Step(c: Reg): Reg {
    Plus(Down(c), Mixed(c))
  }

  lemma StepLinear(a: Reg, b: Reg)
    ensures Step(Plus(a, b)) == Plus(Step(a), Step(b))
  {
    hide Mixed, Down, Plus;
    MixedLinear(a, b);
    DownLinear(a, b);
    PlusSwap(Down(a), Mixed(a), Down(b), Mixed(b));
  }

  /** The two steps taken for a byte. */
  function Turn(c: Reg): Reg {
    Step(Step(c))
  }

  lemma TurnLinear(a: Reg, b: Reg)
    ensures Turn(Plus(a, b)) == Plus(Turn(a), Turn(b))
  {
    hide Step, Plus;
    StepLinear(a, b);
    StepLinear(Step(a), Step(b));
  }

  /** The two top nibbles a register can have after a turn. */
  predicate Settled(c: Reg) {
    var hi, lo := c.bits >> 28, (c.bits >> 24) & 15;
    && (hi == 0 || hi == 7 || hi == 9 || hi == 14)
    && (lo == 0 || lo == 7 || lo == 9 || lo == 14)
  }

  lemma StepSettles(c: Reg)
    ensures Settled(Step(Step(c)))
    ensures Settled(c) ==> Settled(Step(c))
    ensures Settled(c) && Step(c) == ZERO ==> c == ZERO
    ensures c.bits < 256 && Step(Step(c)) == ZERO ==> c == ZERO
    ensures Step(ZERO) == ZERO
  {
  }

  /** On registers that have settled a turn loses nothing, nor does it on a byte. */
  lemma TurnSettles(c: Reg)
    ensures Settled(Turn(c))
    ensures Settled(c) ==> (Turn(c) == ZERO <==> c == ZERO)
    ensures c.bits < 256 && Turn(c) == ZERO ==> c == ZERO
    ensures Turn(ZERO) == ZERO
  {
    hide Step, Settled;
    StepSettles(c);
    StepSettles(Step(c));
    StepSettles(ZERO);
  }

  const DIGITS: seq<bv32> := [0, 1, 2, 3, 4, 5, 6, 7, 8, 9, 10, 11, 12, 13, 14, 15]

  function Digit(n: nat): bv32
    requires n < 16
  {
    DIGITS[n]
  }

  lemma DigitApart(m: nat, n: nat)
    requires m < 16 && n < 16
    ensures Digit(m) < 16
    ensures Digit(m) == Digit(n) ==> m == n
  {
  }

  /** A byte in the low bits of a register, from its two hexadecimal digits. */
  function Wide(b: byte): Reg {
    Reg((Digit(b / 16) << 4) | Digit(b % 16))
  }

  lemma WideApart(a: byte, b: byte)
    ensures Plus(Wide(a), Wide(b)).bits < 256
    ensures Wide(a) == Wide(b) ==> a == b
  {
    DigitApart(a / 16, b / 16);
    DigitApart(a % 16, b % 16);
    DigitApart(b / 16, a / 16);
    DigitApart(b % 16, a % 16);
    hide Digit;
    PairBits(Digit(a / 16), Digit(a % 16), Digit(b / 16), Digit(b % 16));
  }

  lemma PairBits(x: bv32, y: bv32, z: bv32, w: bv32)
    requires x < 16 && y < 16 && z < 16 && w < 16
    ensures ((x << 4) | y) ^ ((z << 4) | w) < 256
    ensures (x << 4) | y == (z << 4) | w ==> x == z && y == w
    ensures (x << 4) | y < 256
  {
  }

  /** calc_crc32 from register c. */
  function Crc(c: Reg, bs: seq<byte>): Reg
    decreases |bs|
  {
    if bs == [] then c else Crc(Turn(Plus(c, Wide(bs[0]))), bs[1..])
  }

  /** calc_crc32. */
  method CalcCrc32(buffer: seq<byte>) returns (crc: Reg)
    ensures crc == Crc(ZERO, buffer)
  {
    hide Entry, Mixed, Down, Plus, Wide;
    crc := ZERO;
    var i := 0;
    assert buffer[0..] == buffer;
    while i < |buffer|
      invariant i <= |buffer|
      invariant Crc(crc, buffer[i..]) == Crc(ZERO, buffer)
    {
      assert buffer[i..][1..] == buffer[i + 1..];
      crc := Plus(crc, Wide(buffer[i]));
      EntryMixed(crc);
      crc := Plus(Down(crc), Entry(crc));
      EntryMixed(crc);
      crc := Plus(Down(crc), Entry(crc));
      i := i + 1;
    }
  }

  lemma {:induction false} CrcAppend(c: Reg, s: seq<byte>, t: seq<byte>)
    ensures Crc(c, s + t) == Crc(Crc(c, s), t)
    decreases |s|
  {
    hide Turn, Plus, Wide;
    if s == [] {
      assert s + t == t;
    } else {
      assert (s + t)[1..] == s[1..] + t;
      CrcAppend(Turn(Plus(c, Wide(s[0]))), s[1..], t);
    }
  }

  /** Registers whose difference has settled stay apart while the same bytes are fed. */
  lemma {:induction false} StaysApart(c: Reg, d: Reg, s: seq<byte>)
    requires Settled(Plus(c, d))
    ensures Crc(c, s) == Crc(d, s) <==> c == d
    decreases |s|
  {
    hide Turn, Settled, Wide, Plus;
    if s != [] {
      var b := Wide(s[0]);
      var c', d' := Turn(Plus(c, b)), Turn(Plus(d, b));
      TurnLinear(Plus(c, b), Plus(d, b));
      PlusCancel(c, d, b);
      TurnSettles(Plus(c, d));
      PlusZero(c, d);
      PlusZero(c', d');
      StaysApart(c', d', s[1..]);
    }
  }

  lemma OneFeed(c: Reg, x: byte)
    ensures Crc(c, [x]) == Turn(Plus(c, Wide(x)))
  {
    hide Turn, Wide, Plus;
    assert Crc(Turn(Plus(c, Wide(x))), [x][1..]) == Turn(Plus(c, Wide(x)));
  }

  lemma CrcParts(pre: seq<byte>, x: seq<byte>, post: seq<byte>)
    ensures Crc(ZERO, pre + x + post) == Crc(Crc(Crc(ZERO, pre), x), post)
  {
    hide Crc;
    CrcAppend(ZERO, pre + x, post);
    CrcAppend(ZERO, pre, x);
  }

  /** A change confined to one byte always changes the checksum. */
  lemma OneByte(pre: seq<byte>, x: byte, y: byte, post: seq<byte>)
    requires x != y
    ensures Crc(ZERO, pre + [x] + post) != Crc(ZERO, pre + [y] + post)
  {
    hide Turn, Settled, Wide, Plus, Crc;
    var c := Crc(ZERO, pre);
    CrcParts(pre, [x], post);
    CrcParts(pre, [y], post);
    OneFeed(c, x);
    OneFeed(c, y);
    var c', d' := Turn(Plus(c, Wide(x))), Turn(Plus(c, Wide(y)));
    WideApart(x, y);
    TurnLinear(Plus(c, Wide(x)), Plus(c, Wide(y)));
    PlusCancel(Wide(x), Wide(y), c);
    TurnSettles(Plus(Wide(x), Wide(y)));
    PlusZero(Wide(x), Wide(y));
    PlusZero(c', d');
    StaysApart(c', d', post);
  }

  // ----- four bytes -----------------------------------------------------------------------

  /** A register moved up by a byte. */
  function Up(d: Reg): Reg {
    Reg(d.bits << 8)
  }

  /** Four bytes as a little-endian word. */
  function Word(x: seq<byte>): Reg
    requires |x| == 4
  {
    Plus(Wide(x[0]), Up(Plus(Wide(x[1]), Up(Plus(Wide(x[2]), Up(Wide(x[3])))))))
  }

  lemma TurnUp(d: Reg)
    requires d.bits < 0x1000000
    ensures Turn(Up(d)) == d
  {
  }

  /** Feeding a byte and then a word is feeding the word with the byte below it. */
  lemma TurnShift(c: Reg, b: Reg, d: Reg)
    requires d.bits < 0x1000000
    ensures Turn(Plus(c, Plus(b, Up(d)))) == Plus(Turn(Plus(c, b)), d)
  {
    hide Turn, Plus, Up;
    PlusAssoc(c, b, Up(d));
    TurnLinear(Plus(c, b), Up(d));
    TurnUp(d);
  }

  lemma Fits(b: byte, d: Reg)
    ensures Wide(b).bits < 256
    ensures d.bits < 256 ==> Plus(Wide(b), Up(d)).bits < 0x10000
    ensures d.bits < 0x10000 ==> Plus(Wide(b), Up(d)).bits < 0x1000000
  {
    WideSmall(b);
    hide Wide;
    FitsBits(Wide(b).bits, d.bits);
  }

  lemma WideSmall(b: byte)
    ensures Wide(b).bits < 256
  {
    DigitApart(b / 16, b / 16);
    DigitApart(b % 16, b % 16);
    hide Digit;
    PairBits(Digit(b / 16), Digit(b % 16), 0, 0);
  }

  lemma FitsBits(b: bv32, d: bv32)
    requires b < 256
    ensures d < 256 ==> b ^ (d << 8) < 0x10000
    ensures d < 0x10000 ==> b ^ (d << 8) < 0x1000000
  {
  }

  lemma Smaller(d: Reg)
    ensures d.bits < 256 ==> d.bits < 0x10000
    ensures d.bits < 0x10000 ==> d.bits < 0x1000000
  {
  }

  /** Feeding four bytes is four turns of the whole word. */
  lemma FourFeed(c: Reg, x: seq<byte>)
    requires |x| == 4
    ensures Crc(c, x) == Turn(Turn(Turn(Turn(Plus(c, Word(x))))))
  {
    hide Turn, Crc, Plus, Wide, Up;
    var b0, b1, b2, b3 := Wide(x[0]), Wide(x[1]), Wide(x[2]), Wide(x[3]);
    Unroll(c, x);
    var d2 := Plus(b2, Up(b3));
    var d1 := Plus(b1, Up(d2));
    Fits(x[3], ZERO);
    Fits(x[2], b3);
    Fits(x[1], d2);
    Smaller(b3);
    Smaller(d2);
    var s1 := Turn(Plus(c, b0));
    var s2 := Turn(Plus(s1, b1));
    TurnShift(c, b0, d1);
    TurnShift(s1, b1, d2);
    TurnShift(s2, b2, b3);
  }

  lemma Unroll(c: Reg, x: seq<byte>)
    requires |x| == 4
    ensures var s1 := Turn(Plus(c, Wide(x[0])));
            var s2 := Turn(Plus(s1, Wide(x[1])));
            var s3 := Turn(Plus(s2, Wide(x[2])));
            Crc(c, x) == Turn(Plus(s3, Wide(x[3])))
  {
    hide Turn, Wide, Plus, Crc;
    var s1 := Turn(Plus(c, Wide(x[0])));
    var s2 := Turn(Plus(s1, Wide(x[1])));
    var s3 := Turn(Plus(s2, Wide(x[2])));
    assert x == [x[0]] + x[1..] && x[1..] == [x[1]] + x[2..] && x[2..] == [x[2]] + x[3..] && x[3..] == [x[3]];
    CrcAppend(c, [x[0]], x[1..]);
    OneFeed(c, x[0]);
    CrcAppend(s1, [x[1]], x[2..]);
    OneFeed(s1, x[1]);
    CrcAppend(s2, [x[2]], x[3..]);
    OneFeed(s2, x[2]);
    OneFeed(s3, x[3]);
  }

  /** Exactly which changes confined to four bytes keep the checksum. */
  lemma FourBytes(pre: seq<byte>, x: seq<byte>, y: seq<byte>, post: seq<byte>)
    requires |x| == |y| == 4
    ensures Crc(ZERO, pre + x + post) == Crc(ZERO, pre + y + post) <==> Turn(Plus(Word(x), Word(y))) == ZERO
    ensures Crc(ZERO, pre + x + post) == Crc(ZERO, pre + y + post) <==> Lost(Plus(Word(x), Word(y)))
  {
    hide Turn, Settled, Word, Plus, Crc;
    KernelIs(Plus(Word(x), Word(y)));
    var c := Crc(ZERO, pre);
    CrcParts(pre, x, post);
    CrcParts(pre, y, post);
    FourFeed(c, x);
    FourFeed(c, y);
    FourApart(Plus(c, Word(x)), Plus(c, Word(y)));
    PlusCancel(Word(x), Word(y), c);
    StaysApart(Crc(c, x), Crc(c, y), post);
  }

  lemma FourApart(a: Reg, b: Reg)
    ensures Turn(Turn(Turn(Turn(a)))) == Turn(Turn(Turn(Turn(b)))) <==> Turn(Plus(a, b)) == ZERO
    ensures Settled(Plus(Turn(Turn(Turn(Turn(a)))), Turn(Turn(Turn(Turn(b))))))
  {
    hide Turn, Settled, Plus;
    var w := Plus(a, b);
    TurnLinear(a, b);
    TurnLinear(Turn(a), Turn(b));
    TurnLinear(Turn(Turn(a)), Turn(Turn(b)));
    TurnLinear(Turn(Turn(Turn(a))), Turn(Turn(Turn(b))));
    TurnSettles(w);
    TurnSettles(Turn(w));
    TurnSettles(Turn(Turn(w)));
    TurnSettles(Turn(Turn(Turn(w))));
    PlusZero(Turn(Turn(Turn(Turn(a)))), Turn(Turn(Turn(Turn(b)))));
  }

  // ----- what a turn loses --------------------------------------------------------------------

  /** The words a turn cannot tell from zero: one for each top nibble, a sum over its bits. */
  function LostWord(n: bv32): Reg {
    Reg(((0 - (n & 1)) & 0x1db71021) ^ ((0 - ((n >> 1) & 1)) & 0x26d93063)
        ^ ((0 - ((n >> 2) & 1)) & 0x4db261d6) ^ ((0 - ((n >> 3) & 1)) & 0x86d3d29d))
  }

  predicate Lost(c: Reg) {
    c == LostWord(c.bits >> 28)
  }

  lemma KernelIs(c: Reg)
    ensures Turn(c) == ZERO <==> Lost(c)
  {
  }

  /** The sixteen of them as they are stored, lowest byte first. */
  const LOST_BYTES: seq<seq<byte>> :=
    [[0x00, 0x00, 0x00, 0x00], [0x21, 0x10, 0xb7, 0x1d], [0x63, 0x30, 0xd9, 0x26], [0x42, 0x20, 0x6e, 0x3b],
     [0xd6, 0x61, 0xb2, 0x4d], [0xf7, 0x71, 0x05, 0x50], [0xb5, 0x51, 0x6b, 0x6b], [0x94, 0x41, 0xdc, 0x76],
     [0x9d, 0xd2, 0xd3, 0x86], [0xbc, 0xc2, 0x64, 0x9b], [0xfe, 0xe2, 0x0a, 0xa0], [0xdf, 0xf2, 0xbd, 0xbd],
     [0x4b, 0xb3, 0x61, 0xcb], [0x6a, 0xa3, 0xd6, 0xd6], [0x28, 0x83, 0xb8, 0xed], [0x09, 0x93, 0x0f, 0xf0]]

  lemma Lost0()
    ensures Word(LOST_BYTES[0]) == LostWord(0)
  {
  }

  lemma Lost1()
    ensures Word(LOST_BYTES[1]) == LostWord(1)
  {
  }

  lemma Lost2()
    ensures Word(LOST_BYTES[2]) == LostWord(2)
  {
  }

  lemma Lost3()
    ensures Word(LOST_BYTES[3]) == LostWord(3)
  {
  }

  lemma Lost4()
    ensures Word(LOST_BYTES[4]) == LostWord(4)
  {
  }

  lemma Lost5()
    ensures Word(LOST_BYTES[5]) == LostWord(5)
  {
    assert LostWord(5) == Reg(0x5005_71f7);
  }

  lemma Lost6()
    ensures Word(LOST_BYTES[6]) == LostWord(6)
  {
  }

  lemma Lost7()
    ensures Word(LOST_BYTES[7]) == LostWord(7)
  {
  }

  lemma Lost8()
    ensures Word(LOST_BYTES[8]) == LostWord(8)
  {
  }

  lemma Lost9()
    ensures Word(LOST_BYTES[9]) == LostWord(9)
  {
  }

  lemma Lost10()
    ensures Word(LOST_BYTES[10]) == LostWord(10)
  {
  }

  lemma Lost11()
    ensures Word(LOST_BYTES[11]) == LostWord(11)
  {
  }

  lemma Lost12()
    ensures Word(LOST_BYTES[12]) == LostWord(12)
  {
  }

  lemma Lost13()
    ensures Word(LOST_BYTES[13]) == LostWord(13)
  {
  }

  lemma Lost14()
    ensures Word(LOST_BYTES[14]) == LostWord(14)
  {
  }

  lemma Lost15()
    ensures Word(LOST_BYTES[15]) == LostWord(15)
  {
  }

  lemma LostLow(k: nat)
    requires 0 <= k < 8
    ensures |LOST_BYTES[k]| == 4 && Word(LOST_BYTES[k]) == LostWord(Digit(k))
  {
    hide Word, LostWord;
    Lost0();
    Lost1();
    Lost2();
    Lost3();
    Lost4();
    Lost5();
    Lost6();
    Lost7();
  }

  lemma LostHigh(k: nat)
    requires 8 <= k < 16
    ensures |LOST_BYTES[k]| == 4 && Word(LOST_BYTES[k]) == LostWord(Digit(k))
  {
    hide Word, LostWord;
    Lost8();
    Lost9();
    Lost10();
    Lost11();
    Lost12();
    Lost13();
    Lost14();
    Lost15();
  }

  lemma LostAt(k: nat)
    requires k < 16
    ensures |LOST_BYTES[k]| == 4 && Word(LOST_BYTES[k]) == LostWord(Digit(k))
  {
    hide Word, LostWord, Digit;
    if k < 8 {
      LostLow(k);
    } else {
      LostHigh(k);
    }
  }

  /** Every nibble is a digit. */
  lemma IsDigit(n: bv32) returns (k: nat)
    requires n < 16
    ensures k < 16 && Digit(k) == n
  {
    k := n as int;
  }

  lemma TopNibble(n: bv32)
    ensures n < 16 ==> LostWord(n).bits >> 28 == n
    ensures n >> 28 < 16
  {
  }

  lemma JoinApart(a: Reg, c: Reg, b: Reg, d: Reg)
    requires a.bits < 256 && b.bits < 256 && c.bits < 0x1000000 && d.bits < 0x1000000
    requires Plus(a, Up(c)) == Plus(b, Up(d))
    ensures a == b && c == d
  {
  }

  /** The bytes of a word can be read off it. */
  lemma WordApart(x: seq<byte>, y: seq<byte>)
    requires |x| == |y| == 4 && Word(x) == Word(y)
    ensures x == y
  {
    hide Wide, Plus, Up;
    var x2, y2 := Plus(Wide(x[2]), Up(Wide(x[3]))), Plus(Wide(y[2]), Up(Wide(y[3])));
    var x1, y1 := Plus(Wide(x[1]), Up(x2)), Plus(Wide(y[1]), Up(y2));
    WordFits(x);
    WordFits(y);
    JoinApart(Wide(x[0]), x1, Wide(y[0]), y1);
    JoinApart(Wide(x[1]), x2, Wide(y[1]), y2);
    JoinApart(Wide(x[2]), Wide(x[3]), Wide(y[2]), Wide(y[3]));
    WideApart(x[0], y[0]);
    WideApart(x[1], y[1]);
    WideApart(x[2], y[2]);
    WideApart(x[3], y[3]);
  }

  lemma WordFits(x: seq<byte>)
    requires |x| == 4
    ensures var x2 := Plus(Wide(x[2]), Up(Wide(x[3])));
            && Wide(x[0]).bits < 256 && Wide(x[1]).bits < 256 && Wide(x[2]).bits < 256
            && Wide(x[3]).bits < 0x1000000 && x2.bits < 0x1000000 && Plus(Wide(x[1]), Up(x2)).bits < 0x1000000
  {
    hide Wide, Plus, Up;
    var x2 := Plus(Wide(x[2]), Up(Wide(x[3])));
    Fits(x[0], ZERO);
    Fits(x[3], ZERO);
    Fits(x[2], Wide(x[3]));
    Fits(x[1], x2);
    Smaller(Wide(x[3]));
    Smaller(x2);
  }

  /** Exactly which four bytes the checksum cannot tell from zeros. */
  lemma LostIff(x: seq<byte>)
    requires |x| == 4
    ensures Turn(Word(x)) == ZERO <==> x in LOST_BYTES
  {
    hide Turn, Word, LostWord, Digit;
    KernelIs(Word(x));
    if Turn(Word(x)) == ZERO {
      TopNibble(Word(x).bits);
      var k := IsDigit(Word(x).bits >> 28);
      LostAt(k);
      WordApart(x, LOST_BYTES[k]);
      assert LOST_BYTES[k] in LOST_BYTES;
    }
    if x in LOST_BYTES {
      var k :| 0 <= k < |LOST_BYTES| && LOST_BYTES[k] == x;
      LostAt(k);
      DigitApart(k, k);
      TopNibble(Digit(k));
    }
  }

  /** A change of four bytes that no file's checksum notices, wherever it falls. */
  lemma Unnoticed(pre: seq<byte>, post: seq<byte>)
    ensures Crc(ZERO, pre + [0, 0, 0, 0] + post) == Crc(ZERO, pre + [0x94, 0x41, 0xdc, 0x76] + post)
  {
    hide Crc;
    FourBytes(pre, [0, 0, 0, 0], [0x94, 0x41, 0xdc, 0x76], post);
    assert Wide(0) == ZERO && Wide(0x94) == Reg(0x94) && Wide(0x41) == Reg(0x41)
        && Wide(0xdc) == Reg(0xdc) && Wide(0x76) == Reg(0x76);
    assert Turn(Reg(0x76dc4194)) == ZERO;
  }

  /** The checksum as a number. */
  function Checksum(bs: seq<byte>): nat {
    Crc(ZERO, bs).bits as int
  }

  lemma ChecksumSame(a: seq<byte>, b: seq<byte>)
    ensures Checksum(a) < U32
    ensures Checksum(a) == Checksum(b) <==> Crc(ZERO, a) == Crc(ZERO, b)
  {
    hide Crc;
    NumberBits(Crc(ZERO, a).bits);
    NumberBits(Crc(ZERO, b).bits);
  }

  lemma NumberBits(n: bv32)
    ensures 0 <= n as int < U32
    ensures (n as int) as bv32 == n
  {
  }
}
