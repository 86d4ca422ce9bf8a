/** The kernel FIFO as a value: free-running 32-bit indices over a power-of-two
    buffer of elements, and what moving the indices does to the queued bytes. */
module KfifoModel {
  import opened Util
  import opened Words
  import opened KfifoRing

  function Log2(n: nat): (k: nat)
    requires n >= 1
    ensures Pow2(k) <= n < 2 * Pow2(k)
  {
    if n < 2 then 0 else Log2(n / 2) + 1
  }

  /** rounddown_pow_of_two. */
  function RoundDown(n: nat): nat
    requires n >= 1
  {
    Pow2(Log2(n))
  }

  predicate IsPow2(n: nat) {
    n >= 1 && n == RoundDown(n)
  }

  /** struct __kfifo with its buffer. */
  datatype Fifo = Fifo(data: seq<byte>, inIdx: int, outIdx: int, mask: int, esize: int)

  /** Bytes taken by n elements. */
  function Span(esize: int, n: int): int {
    n * esize
  }

  /** Bytes the slots take up. */
  function Capacity(f: Fifo): int {
    Span(f.esize, f.mask + 1)
  }

  /** Byte position of element index x. */
  function Place(f: Fifo, x: int): int
    requires f.mask >= 0
  {
    Span(f.esize, x % (f.mask + 1))
  }

  /** Elements in the queue. */
  function Used(f: Fifo): nat {
    (f.inIdx - f.outIdx) % U32
  }

  /** kfifo_unused. */
  function Unused(f: Fifo): int {
    (f.mask + 1 - (f.inIdx - f.outIdx) % U32) % U32
  }

  /** mask + 1 slots, a power of two and at least 2; the buffer holds them and their
      byte offsets fit an unsigned int. */
  predicate Shape(f: Fifo) {
    && 0 <= f.inIdx < U32 && 0 <= f.outIdx < U32
    && 1 <= f.mask && IsPow2(f.mask + 1) && f.esize >= 1
    && Capacity(f) <= |f.data| && Capacity(f) < U32
  }

  /** ... and never more of them in use than there are. */
  predicate Ok(f: Fifo) {
    Shape(f) && Used(f) <= f.mask + 1
  }

  lemma Bounds(f: Fifo, x: int, n: nat)
    requires Shape(f) && n <= f.mask + 1
    ensures 0 <= Place(f, x) < Capacity(f)
    ensures n <= Span(f.esize, n) <= Capacity(f)
    ensures f.mask + 1 <= Capacity(f)
  {
    hide IsPow2, Used;
    ScaledBounds(x % (f.mask + 1), n, f.mask + 1, f.esize);
  }

  lemma ScaledBounds(r: nat, n: nat, size: nat, e: nat)
    requires r < size && n <= size && e >= 1
    ensures 0 <= r * e < size * e
    ensures n <= n * e <= size * e
    ensures size <= size * e
  {
    MulLe(r + 1, size, e);
    MulLe(n, size, e);
    MulLe(1, e, n);
    MulLe(1, e, size);
  }

  lemma SpanAdds(e: int, a: int, b: int)
    ensures Span(e, a + b) == Span(e, a) + Span(e, b)
  {
  }

  /** The bytes of n elements from element index x on, round the end. */
  function Cells(f: Fifo, x: int, n: nat): (c: seq<byte>)
    requires Shape(f) && n <= f.mask + 1
    ensures |c| == Span(f.esize, n)
  {
    Bounds(f, x, n);
    Window(f.data[..Capacity(f)], Place(f, x), Span(f.esize, n))
  }

  /** The queued bytes, oldest first. */
  function Contents(f: Fifo): (c: seq<byte>)
    requires Ok(f)
    ensures |c| == Span(f.esize, Used(f))
  {
    Cells(f, f.outIdx, Used(f))
  }

  /** The exponent of the buffer size is below 32. */
  lemma SizeBits(f: Fifo) returns (k: nat)
    requires Shape(f)
    ensures k <= 31 && f.mask + 1 == Pow2(k)
  {
    k := Log2(f.mask + 1);
    Bounds(f, 0, 0);
    PowerBelow(k);
  }

  /** A power of two below 2^32 has an exponent below 32. */
  lemma PowerBelow(k: nat)
    requires Pow2(k) < U32
    ensures k <= 31
  {
    if k >= 32 {
      PowerBig(k);
    }
  }

  lemma PowerBig(k: nat)
    requires k >= 32
    ensures Pow2(k) >= U32
  {
    Pow2Is32();
    PowSplit(32, k - 32);
    MulLe(1, Pow2(k - 32), U32);
  }

  /** Masking an index selects its slot. */
  lemma MaskSlot(f: Fifo, x: nat)
    requires Shape(f)
    ensures And(x, f.mask) == x % (f.mask + 1)
  {
    var k := SizeBits(f);
    AndMask(x, k);
  }

  /** Counter wrap-around does not disturb the slot of an index. */
  lemma WrapSlot(f: Fifo, x: int)
    requires Shape(f)
    ensures x % U32 % (f.mask + 1) == x % (f.mask + 1)
  {
    var k := SizeBits(f);
    WrapKeepsIndex(x, k);
  }

  lemma EndArithmetic(r: nat, u: nat, size: nat, e: nat)
    requires r < size && u <= size && e >= 1
    ensures 0 <= r * e + u * e < 2 * (size * e)
    ensures Slot(r * e + u * e, size * e) == (r + u) % size * e
  {
    var a := r + u;
    assert r * e + u * e == a * e;
    MulLe(r + 1, size, e);
    MulLe(u, size, e);
    if a < size {
      MulLe(a + 1, size, e);
      ModSmall(a, size);
    } else {
      MulLe(size, a, e);
      DivUnique(a, size, 1, a - size);
      assert (a - size) * e == a * e - size * e;
    }
  }

  /** Going n elements on from index x goes n elements round the buffer. */
  lemma PlaceOn(f: Fifo, x: int, n: nat)
    requires Shape(f) && n <= f.mask + 1
    ensures 0 <= Place(f, x) && 0 <= Place(f, x) + Span(f.esize, n) < 2 * Capacity(f)
    ensures Slot(Place(f, x) + Span(f.esize, n), Capacity(f)) == Place(f, (x + n) % U32)
  {
    var size := f.mask + 1;
    WrapSlot(f, x + n);
    ModAdd(x, n, size);
    EndArithmetic(x % size, n, size, f.esize);
  }

  lemma UsedIs(f: Fifo)
    requires Ok(f)
    ensures (f.outIdx + Used(f)) % U32 == f.inIdx
    ensures Unused(f) == f.mask + 1 - Used(f)
  {
    ModAdd(f.inIdx - f.outIdx, f.outIdx, U32);
    ModSmall(f.inIdx, U32);
    Bounds(f, 0, 0);
    ModSmall(f.mask + 1 - Used(f), U32);
  }

  lemma UsedGrows(f: Fifo, n: nat, g: Fifo)
    requires Ok(f) && Used(f) + n <= f.mask + 1
    requires g.inIdx == (f.inIdx + n) % U32 && g.outIdx == f.outIdx
    ensures Used(g) == Used(f) + n
  {
    ModAdd(f.inIdx + n, -f.outIdx, U32);
    ModAdd(f.inIdx - f.outIdx, n, U32);
    Bounds(f, 0, 0);
    ModSmall(Used(f) + n, U32);
  }

  lemma UsedShrinks(f: Fifo, n: nat, g: Fifo)
    requires Ok(f) && n <= Used(f)
    requires g.outIdx == (f.outIdx + n) % U32 && g.inIdx == f.inIdx
    ensures Used(g) == Used(f) - n
  {
    var o := f.outIdx + n;
    assert f.inIdx - o % U32 == f.inIdx - o + U32 * (o / U32);
    ModMultiple(f.inIdx - o, o / U32, U32);
    ModAdd(f.inIdx - f.outIdx, 0 - n, U32);
    ModSmall(Used(f) - n, U32);
  }

  // ----- writing behind the queue, moving the indices --------------------------------

  /** The buffer with s written from element index x on, round the end. */
  function Write(f: Fifo, x: int, s: seq<byte>): (g: Fifo)
    requires Ok(f) && |s| <= Capacity(f)
    ensures |g.data| == |f.data|
  {
    Bounds(f, x, 0);
    f.(data := Paste(f.data[..Capacity(f)], Place(f, x), s) + f.data[Capacity(f)..])
  }

  function Publish(f: Fifo, n: nat): Fifo {
    f.(inIdx := (f.inIdx + n) % U32)
  }

  function Release(f: Fifo, n: nat): Fifo {
    f.(outIdx := (f.outIdx + n) % U32)
  }

  lemma WriteCells(f: Fifo, x: int, s: seq<byte>)
    requires Ok(f) && |s| <= Capacity(f)
    ensures var g := Write(f, x, s);
            && 0 <= Place(f, x) < Capacity(f) <= |f.data|
            && g == f.(data := g.data) && |g.data| == |f.data|
            && g.data[..Capacity(f)] == Paste(f.data[..Capacity(f)], Place(f, x), s)
            && g.data[Capacity(f)..] == f.data[Capacity(f)..]
  {
    hide Span, Used, IsPow2, Paste;
    Bounds(f, x, 0);
  }

  /** Writing n elements behind the queue and publishing them appends them. */
  lemma AppendElements(f: Fifo, n: nat, s: seq<byte>)
    requires Ok(f) && Used(f) + n <= f.mask + 1 && |s| == Span(f.esize, n)
    ensures |s| <= Capacity(f)
    ensures var g := Publish(Write(f, f.inIdx, s), n); Ok(g) && Contents(g) == Contents(f) + s
  {
    hide Span, Pow2, IsPow2, Paste, Slot, Write, Used, Window;
    Bounds(f, f.outIdx, Used(f));
    Bounds(f, f.inIdx, n);
    Bounds(f, 0, Used(f) + n);
    WriteCells(f, f.inIdx, s);
    UsedGrows(f, n, Publish(Write(f, f.inIdx, s), n));
    UsedIs(f);
    PlaceOn(f, f.outIdx, Used(f));
    SpanAdds(f.esize, Used(f), n);
    PasteExtends(f.data[..Capacity(f)], Place(f, f.outIdx), Span(f.esize, Used(f)), s);
  }

  /** Releasing n elements removes them from the front. */
  lemma DropElements(f: Fifo, n: nat)
    requires Ok(f) && n <= Used(f)
    ensures Span(f.esize, n) <= |Contents(f)|
    ensures Ok(Release(f, n)) && Contents(Release(f, n)) == Contents(f)[Span(f.esize, n)..]
  {
    Bounds(f, f.outIdx, Used(f));
    Bounds(f, 0, n);
    Bounds(f, 0, Used(f) - n);
    UsedShrinks(f, n, Release(f, n));
    PlaceOn(f, f.outIdx, n);
    SpanAdds(f.esize, n, Used(f) - n);
    hide Span, Pow2, IsPow2, Slot, Used;
    WindowSplit(f.data[..Capacity(f)], Place(f, f.outIdx), Span(f.esize, Used(f)), Span(f.esize, n));
  }

  /** Reading n elements from the out-index reads the front of the queue. */
  lemma FrontElements(f: Fifo, n: nat)
    requires Ok(f) && n <= Used(f)
    ensures 0 <= Span(f.esize, n) <= |Contents(f)| <= Capacity(f)
    ensures Cells(f, f.outIdx, n) == Contents(f)[..Span(f.esize, n)]
  {
    Bounds(f, f.outIdx, Used(f));
    Bounds(f, 0, n);
    Bounds(f, 0, Used(f) - n);
    SpanAdds(f.esize, n, Used(f) - n);
    hide Span, Pow2, IsPow2, Slot;
    WindowSplit(f.data[..Capacity(f)], Place(f, f.outIdx), Span(f.esize, Used(f)), Span(f.esize, n));
  }
}
