/** Little-endian byte strings. */
module LittleEndian {
  import opened Util
  import opened Words

  /** The number of values n bytes can hold. */
  function Range(n: nat): (r: nat)
    ensures r >= 1
  {
    if n == 0 then 1 else 256 * Range(n - 1)
  }

  function Digits(v: nat, n: nat): (r: seq<byte>)
    ensures |r| == n
  {
    if n == 0 then [] else [v % 256] + Digits(v / 256, n - 1)
  }

  function Number(bs: seq<byte>): nat {
    if bs == [] then 0 else bs[0] as int + 256 * Number(bs[1..])
  }

  /** Writing n bytes and reading them back truncates to n bytes. */
  lemma {:induction false} NumberDigits(v: nat, n: nat)
    ensures Number(Digits(v, n)) == v % Range(n) < Range(n)
  {
    if n > 0 {
      NumberDigits(v / 256, n - 1);
      var m := Range(n - 1);
      assert Digits(v, n)[1..] == Digits(v / 256, n - 1);
      Split(v, m);
    } else {
      assert v % 1 == 0;
    }
  }

  lemma Split(v: nat, m: nat)
    requires m >= 1
    ensures v % (256 * m) == v % 256 + 256 * (v / 256 % m)
  {
    var q, r := v / 256 / m, v / 256 % m;
    MulAssoc(256, m, q);
    DivUnique(v, 256 * m, q, 256 * r + v % 256);
  }

  /** Reading bytes and writing the number back restores them. */
  lemma {:induction false} DigitsNumber(bs: seq<byte>)
    ensures Digits(Number(bs), |bs|) == bs
    ensures Number(bs) < Range(|bs|)
  {
    if bs != [] {
      DigitsNumber(bs[1..]);
      var n := Number(bs[1..]);
      assert Number(bs) % 256 == bs[0] && Number(bs) / 256 == n;
    }
  }

  lemma RangeIs()
    ensures Range(1) == 256 && Range(2) == 65536 && Range(4) == U32
  {
    assert Range(2) == 256 * Range(1);
    assert Range(4) == 256 * Range(3) && Range(3) == 256 * Range(2);
  }
}
