/** The kernel FIFO in place.  Every operation is proved to act on the queued
    bytes as on a sequence, through buffer and counter wrap-around alike. */
module Kfifo {
  import opened Util
  import opened Words
  import opened KfifoRing
  import opened KfifoModel
  import opened KfifoFraming
  import Rec = KfifoRecords

  /** Copies a block into an array. */
  method Memcpy(dst: array<byte>, at: nat, src: seq<byte>)
    requires at + |src| <= dst.Length
    modifies dst
    ensures dst[..] == old(dst[..at]) + src + old(dst[at + |src|..])
  {
    for k := 0 to |src|
      invariant dst[..at + k] == old(dst[..at]) + src[..k]
      invariant dst[at + k..] == old(dst[at + k..])
    {
      dst[at + k] := src[k];
      assert dst[..at + k + 1] == dst[..at + k] + [src[k]];
    }
    assert dst[..] == dst[..at + |src|] + dst[at + |src|..];
  }

  /** The two block copies of kfifo_copy_in, into the first `size` bytes. */
  method CopyAround(data: array<byte>, size: nat, o: nat, src: seq<byte>)
    requires o < size <= data.Length && |src| <= size
    modifies data
    ensures data[..] == Paste(old(data[..size]), o, src) + old(data[size..])
  {
    hide Paste;
    var l := Min(|src|, size - o);
    ghost var d := data[..];
    assert d[..size] == data[..size] && d[size..] == data[size..];
    Memcpy(data, o, src[..l]);
    ghost var first := data[..];
    Memcpy(data, 0, src[l..]);
    TwoWrites(d, size, o, src, first, data[..]);
  }

  lemma TwoWrites(d: seq<byte>, size: nat, o: nat, src: seq<byte>, first: seq<byte>, second: seq<byte>)
    requires o < size <= |d| && |src| <= size
    requires var l := Min(|src|, size - o);
             && first == d[..o] + src[..l] + d[o + l..]
             && second == src[l..] + first[|src| - l..]
    ensures second == Paste(d[..size], o, src) + d[size..]
  {
    var l := Min(|src|, size - o);
    var inner := d[..size][..o] + src[..l] + d[..size][o + l..];
    assert first == inner + d[size..];
    assert first[|src| - l..] == inner[|src| - l..] + d[size..];
  }

  lemma TwoReads(d: seq<byte>, size: nat, o: nat, n: nat)
    requires o < size <= |d| && n <= size
    ensures var l := Min(n, size - o); d[o..o + l] + d[..n - l] == Window(d[..size], o, n)
  {
    TwoCopies(d[..size], o, n);
    var l := Min(n, size - o);
    assert d[..size][o..o + l] == d[o..o + l] && d[..size][..n - l] == d[..n - l];
  }

  /** Multiplication of unsigned ints. */
  function Mul32(a: nat, b: nat): nat {
    a * b % U32
  }

  lemma Mul32Exact(a: nat, b: nat)
    requires a * b < U32
    ensures Mul32(a, b) == a * b
  {
  }

  class Kfifo {
    var data: array<byte>
    var inIdx: int
    var outIdx: int
    var mask: int
    var esize: int

    ghost function Model(): Fifo
      reads this, data
    {
      Fifo(data[..], inIdx, outIdx, mask, esize)
    }

    constructor ()
    {
      data := new byte[0];
      inIdx, outIdx, mask, esize := 0, 0, 0, 1;
    }

    /** __kfifo_alloc; `granted` says whether the memory request succeeds.  The result can be
        used exactly when the element size is not zero and byte offsets fit an unsigned int. */
    method Alloc(size: nat, elem: nat, granted: bool) returns (err: int)
      requires 1 <= size < U32
      modifies this
      ensures err == if size < 2 then -EINVAL else if granted then 0 else -ENOMEM
      ensures err == 0 ==> fresh(data) && esize == elem && mask >= 1 && IsPow2(mask + 1)
                           && mask + 1 <= size < 2 * (mask + 1) && data.Length == (mask + 1) * elem
      ensures err == 0 ==> (Ok(Model()) <==> elem >= 1 && (mask + 1) * elem < U32)
      ensures err == 0 && Ok(Model()) ==> Contents(Model()) == []
      ensures err != 0 ==> mask == 0
    {
      var n := size;
      if !IsPow2(n) {
        n := RoundDown(n);
      }
      inIdx, outIdx, esize := 0, 0, elem;
      mask := 0;
      if n < 2 {
        return -EINVAL;
      }
      if !granted {
        return -ENOMEM;
      }
      data := new byte[n * elem];
      mask := n - 1;
      Rounded(size);
      NothingUsed(Model());
      err := 0;
    }

    /** __kfifo_init over a caller's buffer. */
    method Init(buffer: array<byte>, elem: nat) returns (err: int)
      requires elem >= 1 && 1 <= buffer.Length / elem && buffer.Length < U32
      modifies this
      ensures err == if buffer.Length / elem < 2 then -EINVAL else 0
      ensures data == buffer && esize == elem
      ensures err == 0 ==> Ok(Model()) && Contents(Model()) == []
                           && mask + 1 <= buffer.Length / elem < 2 * (mask + 1)
      ensures err != 0 ==> mask == 0
    {
      var n := buffer.Length / elem;
      Rounded(n);
      InitFits(buffer.Length, elem, RoundDown(n));
      if !IsPow2(n) {
        n := RoundDown(n);
      }
      inIdx, outIdx, esize, data := 0, 0, elem, buffer;
      if n < 2 {
        mask := 0;
        return -EINVAL;
      }
      mask := n - 1;
      NothingUsed(Model());
      err := 0;
    }

    /** The offset arithmetic shared by the copy routines, in unsigned int. */
    method Scale(len: nat, off: nat) returns (o: nat, size: nat, n: nat)
      requires Shape(Model()) && len <= mask + 1
      ensures o == Place(Model(), off) && size == Capacity(Model()) && n == Span(esize, len)
      ensures o < size <= data.Length && n <= size
    {
      hide Pow2, And, IsPow2, Used;
      o, size, n := And(off, mask), mask + 1, len;
      MaskSlot(Model(), off);
      Bounds(Model(), off, len);
      if esize != 1 {
        Mul32Exact(o, esize);
        Mul32Exact(size, esize);
        Mul32Exact(n, esize);
        o, size, n := Mul32(o, esize), Mul32(size, esize), Mul32(n, esize);
      }
    }

    /** kfifo_copy_in. */
    method CopyIn(src: seq<byte>, len: nat, off: nat)
      requires Ok(Model()) && len <= mask + 1 && Span(esize, len) == |src|
      modifies data
      ensures |src| <= old(Capacity(Model())) && Model() == Write(old(Model()), off, src)
    {
      hide Pow2, And, IsPow2, Used, Span, Paste;
      var o, size, n := Scale(len, off);
      CopyAround(data, size, o, src);
    }

    /** kfifo_copy_out. */
    method CopyOut(len: nat, off: nat) returns (dst: seq<byte>)
      requires Shape(Model()) && len <= mask + 1
      ensures dst == Cells(Model(), off, len)
    {
      hide Pow2, And, IsPow2, Used, Span;
      var o, size, n := Scale(len, off);
      var l := Min(n, size - o);
      hide Window;
      dst := data[o..o + l] + data[..n - l];
      TwoReads(data[..], size, o, n);
    }

    /** __kfifo_in: appends as many of the offered elements as there is room for. */
    method In(buf: seq<byte>, want: nat) returns (n: nat)
      requires Ok(Model()) && want < U32 && Span(esize, want) <= |buf|
      modifies this`inIdx, data
      ensures Ok(Model()) && n == Min(want, mask + 1 - old(Used(Model())))
      ensures 0 <= Span(esize, n) <= |buf|
      ensures Contents(Model()) == old(Contents(Model())) + buf[..Span(esize, n)]
    {
      hide Pow2, IsPow2, Used, Paste, Window;
      UsedIs(Model());
      var l := (mask + 1 - (inIdx - outIdx) % U32) % U32;
      n := want;
      if n > l {
        n := l;
      }
      MulLe(n, want, esize);
      Bounds(Model(), 0, n);
      hide Span;
      AppendElements(Model(), n, buf[..Span(esize, n)]);
      CopyIn(buf[..n * esize], n, inIdx);
      inIdx := (inIdx + n) % U32;
    }

    /** __kfifo_out_peek: the oldest elements, without removing them. */
    method OutPeek(want: nat) returns (n: nat, buf: seq<byte>)
      requires Ok(Model())
      ensures n == Min(want, Used(Model()))
      ensures 0 <= Span(esize, n) <= |Contents(Model())| && buf == Contents(Model())[..Span(esize, n)]
    {
      hide Pow2, IsPow2, Span, Window;
      var l := (inIdx - outIdx) % U32;
      n := want;
      if n > l {
        n := l;
      }
      FrontElements(Model(), n);
      buf := CopyOut(n, outIdx);
    }

    /** __kfifo_out: removes the oldest elements. */
    method Out(want: nat) returns (n: nat, buf: seq<byte>)
      requires Ok(Model())
      modifies this`outIdx
      ensures Ok(Model()) && n == Min(want, old(Used(Model())))
      ensures |buf| == Span(esize, n) && old(Contents(Model())) == buf + Contents(Model())
    {
      hide Pow2, IsPow2, Span, Window, Used;
      n, buf := OutPeek(want);
      DropElements(Model(), n);
      outIdx := (outIdx + n) % U32;
    }

    // ----- record mode: elements are bytes -------------------------------------------

    /** __kfifo_peek_n. */
    method PeekN(recsize: nat) returns (l: nat)
      requires ByteFifo(Model()) && Rec.RecSize(recsize)
      ensures l == Peeked(Model(), recsize)
    {
      hide Pow2, And, IsPow2, Used;
      ghost var f := Model();
      HeaderCells(f, recsize);
      MaskSlot(f, outIdx);
      MaskSlot(f, (outIdx + 1) % U32);
      var p, q := And(outIdx, mask), And((outIdx + 1) % U32, mask);
      l := data[p];
      if recsize - 1 != 0 {
        l := l + 256 * (data[q] as int);
      }
    }

    /** __kfifo_poke_n. */
    method PokeN(n: nat, recsize: nat)
      requires Ok(Model()) && esize == 1 && Rec.RecSize(recsize)
      modifies data
      ensures recsize <= old(Capacity(Model()))
      ensures Model() == Write(old(Model()), inIdx, Rec.Header(n, recsize))
    {
      hide Pow2, And, IsPow2, Used;
      ghost var f := Model();
      MaskSlot(f, inIdx);
      MaskSlot(f, (inIdx + 1) % U32);
      PlaceOn(f, inIdx, 1);
      var p, q := And(inIdx, mask), And((inIdx + 1) % U32, mask);
      data[p] := n % 256;
      if recsize > 1 {
        data[q] := n / 256 % 256;
      }
      PokedCells(f, n, recsize, data[..]);
    }

    /** kfifo_avail in record mode. */
    method Avail(recsize: nat) returns (n: nat)
      requires Ok(Model()) && esize == 1 && Rec.RecSize(recsize)
      ensures |Contents(Model())| <= mask + 1
      ensures n == Rec.Avail(mask + 1 - |Contents(Model())|, recsize)
    {
      hide Pow2, IsPow2, Window;
      UsedIs(Model());
      var avail := (mask + 1 - (inIdx - outIdx) % U32) % U32;
      if avail <= recsize {
        n := 0;
      } else {
        n := MaxR(avail - recsize, recsize);
      }
    }

    /** __kfifo_in_r: stores the whole record behind its length, or nothing. */
    method InR(buf: seq<byte>, recsize: nat) returns (n: nat)
      requires Ok(Model()) && esize == 1 && Rec.RecSize(recsize) && |buf| < U32
      modifies this`inIdx, data
      ensures Ok(Model()) && Model() == PutRecord(old(Model()), recsize, buf)
      ensures Contents(Model()) == Rec.Put(old(Contents(Model())), mask + 1, recsize, buf)
      ensures n == if |buf| + recsize > mask + 1 - old(|Contents(Model())|) then 0 else |buf|
    {
      hide Pow2, And, IsPow2, Used, Write, Window, Rec.Header, Cells;
      SpanOfBytes();
      UsedIs(Model());
      if |buf| + recsize > (mask + 1 - (inIdx - outIdx) % U32) % U32 {
        return 0;
      }
      ghost var f := Model();
      AppendRecord(f, buf, recsize);
      PokeN(|buf|, recsize);
      CopyIn(buf, |buf|, (inIdx + recsize) % U32);
      inIdx := (inIdx + |buf| + recsize) % U32;
      n := |buf|;
    }

    /** kfifo_out_copy_r. */
    method OutCopyR(want: nat, recsize: nat) returns (buf: seq<byte>, n: nat)
      requires ByteFifo(Model()) && Rec.RecSize(recsize) && Min(want, Peeked(Model(), recsize)) <= mask + 1
      ensures n == Peeked(Model(), recsize)
      ensures buf == Cells(Model(), (outIdx + recsize) % U32, Min(want, n))
    {
      hide Pow2, And, IsPow2, Window, Peeked, Cells, Span, Place, Capacity;
      n := PeekN(recsize);
      var len := want;
      if len > n {
        len := n;
      }
      buf := CopyOut(len, (outIdx + recsize) % U32);
    }

    /** __kfifo_out_peek_r: as __kfifo_out_r, but leaves the record queued. */
    method OutPeekR(want: nat, recsize: nat) returns (buf: seq<byte>)
      requires ByteFifo(Model()) && Rec.RecSize(recsize) && Copyable(Model(), recsize, want)
      ensures buf == TakeRecord(Model(), recsize, want).1
    {
      hide Pow2, And, IsPow2, Window, Peeked, Cells;
      if inIdx == outIdx {
        return [];
      }
      var n;
      buf, n := OutCopyR(want, recsize);
    }

    /** __kfifo_out_r: delivers what fits the caller's buffer and removes the
        whole record either way. */
    method OutR(want: nat, recsize: nat) returns (buf: seq<byte>)
      requires ByteFifo(Model()) && Rec.RecSize(recsize) && Copyable(Model(), recsize, want)
      modifies this`outIdx
      ensures (Model(), buf) == TakeRecord(old(Model()), recsize, want)
    {
      hide Pow2, And, IsPow2, Window, Peeked, Cells;
      if inIdx == outIdx {
        return [];
      }
      var n;
      buf, n := OutCopyR(want, recsize);
      outIdx := (outIdx + n + recsize) % U32;
    }

    /** __kfifo_skip_r: moves on by whatever length it finds, record or not. */
    method SkipR(recsize: nat)
      requires ByteFifo(Model()) && Rec.RecSize(recsize)
      modifies this`outIdx
      ensures Model() == SkipRecord(old(Model()), recsize)
    {
      hide Pow2, And, IsPow2, Window, Peeked;
      var n := PeekN(recsize);
      outIdx := (outIdx + n + recsize) % U32;
    }
  }

  /** __kfifo_max_r. */
  method MaxR(len: nat, recsize: nat) returns (r: nat)
    requires Rec.RecSize(recsize)
    ensures r == Rec.MaxR(len, recsize)
  {
    var max := (if recsize == 1 then 256 else 65536) - 1;
    if len > max {
      return max;
    }
    return len;
  }

  lemma NothingUsed(f: Fifo)
    requires f.inIdx == f.outIdx
    ensures Used(f) == 0
    ensures Ok(f) ==> Contents(f) == []
  {
    if Ok(f) {
      assert Span(f.esize, 0) == 0;
    }
  }

  lemma Rounded(n: nat)
    requires 1 <= n < U32
    ensures IsPow2(RoundDown(n)) && RoundDown(n) <= n < 2 * RoundDown(n)
    ensures n >= 2 ==> RoundDown(n) >= 2
  {
    var k := Log2(n);
    LogOfPower(k);
    if n >= 2 {
      assert Pow2(k) >= 2;
    }
  }

  lemma {:induction false} LogOfPower(k: nat)
    ensures Log2(Pow2(k)) == k
  {
    if k > 0 {
      LogOfPower(k - 1);
      assert Pow2(k) / 2 == Pow2(k - 1);
    }
  }

  lemma InitFits(length: nat, elem: nat, n: nat)
    requires elem >= 1 && n <= length / elem
    ensures n <= n * elem <= length
  {
    MulLe(n, length / elem, elem);
    MulLe(1, elem, n);
  }

  /** The bytes of a header, by slot. */
  lemma HeaderCells(f: Fifo, rs: nat)
    requires ByteFifo(f) && Rec.RecSize(rs)
    ensures Capacity(f) == f.mask + 1 <= |f.data|
    ensures Cells(f, f.outIdx, rs)[0] == f.data[f.outIdx % (f.mask + 1)]
    ensures rs == 2 ==> Cells(f, f.outIdx, rs)[1] == f.data[(f.outIdx + 1) % U32 % (f.mask + 1)]
  {
    hide Used, IsPow2, Pow2;
    Bounds(f, f.outIdx, rs);
    PlaceOn(f, f.outIdx, 1);
    hide Place;
    var d, p := f.data[..Capacity(f)], Place(f, f.outIdx);
    assert Cells(f, f.outIdx, rs)[0] == d[Slot(p + 0, |d|)];
    assert rs == 2 ==> Cells(f, f.outIdx, rs)[1] == d[Slot(p + 1, |d|)];
    PlaceOfByte(f, f.outIdx);
    PlaceOfByte(f, (f.outIdx + 1) % U32);
  }

  lemma PlaceOfByte(f: Fifo, x: int)
    requires f.mask >= 0 && f.esize == 1
    ensures Place(f, x) == x % (f.mask + 1)
  {
  }

  lemma PokedCells(f: Fifo, n: nat, rs: nat, d: seq<byte>)
    requires Ok(f) && f.esize == 1 && Rec.RecSize(rs)
    requires rs == 1 ==> d == f.data[f.inIdx % (f.mask + 1) := n % 256]
    requires rs == 2 ==> d == f.data[f.inIdx % (f.mask + 1) := n % 256]
                                    [(f.inIdx + 1) % U32 % (f.mask + 1) := n / 256 % 256]
    ensures rs <= Capacity(f) && f.(data := d) == Write(f, f.inIdx, Rec.Header(n, rs))
  {
    PlaceOn(f, f.inIdx, 1);
    var g := Write(f, f.inIdx, Rec.Header(n, rs));
    forall c: nat | c < |f.data| ensures d[c] == g.data[c] {
      if c < Capacity(f) {
        PasteCell(f.data[..Capacity(f)], Place(f, f.inIdx), Rec.Header(n, rs), c);
      }
    }
  }
}
