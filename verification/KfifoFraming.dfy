/** Record mode on the FIFO itself: what the record operations do to indices and
    buffer, and exactly when the FIFO is a queue of records. */
module KfifoFraming {
  import opened Util
  import opened Words
  import opened KfifoRing
  import opened KfifoModel
  import opened KfifoRecords

  /** A FIFO of bytes, as record mode needs it; the indices may be anything. */
  predicate ByteFifo(f: Fifo) {
    Shape(f) && f.esize == 1
  }

  /** The length __kfifo_peek_n reads at the out-index, whether or not a record is there. */
  function Peeked(f: Fifo, rs: nat): nat
    requires ByteFifo(f) && RecSize(rs)
  {
    Value(Cells(f, f.outIdx, rs))
  }

  /** __kfifo_skip_r: there is no test whether the FIFO is empty. */
  function SkipRecord(f: Fifo, rs: nat): Fifo
    requires ByteFifo(f) && RecSize(rs)
  {
    Release(f, Peeked(f, rs) + rs)
  }

  /** __kfifo_out_r copies no more than the buffer holds. */
  predicate Copyable(f: Fifo, rs: nat, want: nat)
    requires ByteFifo(f) && RecSize(rs)
  {
    f.inIdx != f.outIdx ==> Min(want, Peeked(f, rs)) <= f.mask + 1
  }

  /** __kfifo_out_r into a buffer of `want` bytes. */
  function TakeRecord(f: Fifo, rs: nat, want: nat): (Fifo, seq<byte>)
    requires ByteFifo(f) && RecSize(rs) && Copyable(f, rs, want)
  {
    if f.inIdx == f.outIdx then (f, [])
    else (SkipRecord(f, rs), Cells(f, (f.outIdx + rs) % U32, Min(want, Peeked(f, rs))))
  }

  /** __kfifo_in_r. */
  function PutRecord(f: Fifo, rs: nat, r: seq<byte>): Fifo
    requires Ok(f) && f.esize == 1 && RecSize(rs)
  {
    if |r| + rs > Unused(f) then f else
    UsedIs(f);
    AppendRecord(f, r, rs);
    Publish(Write(Write(f, f.inIdx, Header(|r|, rs)), (f.inIdx + rs) % U32, r), |r| + rs)
  }

  // ----- the queued bytes ------------------------------------------------------------------

  lemma {:induction false} SpanOfBytes()
    ensures forall n {:trigger Span(1, n)} :: Span(1, n) == n
  {
  }

  lemma {:induction false} SameUsed(f: Fifo, g: Fifo)
    requires f.inIdx == g.inIdx && f.outIdx == g.outIdx
    ensures Used(g) == Used(f)
  {
  }

  /** Header and payload written one behind the other append one frame. */
  lemma {:induction false} AppendRecord(f: Fifo, r: seq<byte>, rs: nat)
    requires Ok(f) && f.esize == 1 && RecSize(rs) && Used(f) + |r| + rs <= f.mask + 1
    ensures rs + |r| <= Capacity(f)
    ensures var g := Write(f, f.inIdx, Header(|r|, rs));
            && Ok(g)
            && var h := Publish(Write(g, (f.inIdx + rs) % U32, r), |r| + rs);
            Ok(h) && h.esize == 1 && h.mask == f.mask && Contents(h) == Contents(f) + Frame(r, rs)
  {
    hide Used, IsPow2, Pow2, Window, Paste, Contents, Span, Header;
    var hd := Header(|r|, rs);
    SpanOfBytes();
    Bounds(f, f.inIdx, rs + |r|);
    AppendElements(f, rs, hd);
    var g := Write(f, f.inIdx, hd);
    var g1 := Publish(g, rs);
    UsedGrows(f, rs, g1);
    AppendElements(g1, |r|, r);
    ModAdd(f.inIdx + rs, |r|, U32);
    SameUsed(f, g);
    assert Contents(f) + hd + r == Contents(f) + (hd + r);
  }

  /** The bytes of a record behind its header. */
  lemma {:induction false} RecordWindow(f: Fifo, rs: nat, len: nat)
    requires Ok(f) && f.esize == 1 && rs + len <= |Contents(f)|
    ensures len <= f.mask + 1
    ensures Cells(f, (f.outIdx + rs) % U32, len) == Contents(f)[rs..rs + len]
  {
    hide Pow2, And, IsPow2, Window, Used, Contents, Span;
    SpanOfBytes();
    var g := Release(f, rs);
    DropElements(f, rs);
    UsedShrinks(f, rs, g);
    Bounds(f, 0, Used(f));
    FrontElements(g, len);
    assert Contents(f)[rs..][..len] == Contents(f)[rs..rs + len];
  }

  /** With a header queued, its value is what is read. */
  lemma {:induction false} PeekedIs(f: Fifo, rs: nat)
    requires Ok(f) && f.esize == 1 && RecSize(rs)
    ensures |Contents(f)| == Used(f)
    ensures rs <= Used(f) ==> Peeked(f, rs) == Value(Contents(f)[..rs])
  {
    hide Pow2, IsPow2, Window, Used, Value, Contents, Cells, Span;
    SpanOfBytes();
    if rs <= Used(f) {
      FrontElements(f, rs);
    }
  }

  lemma {:induction false} PeekedSmall(f: Fifo, rs: nat)
    requires ByteFifo(f) && RecSize(rs)
    ensures Peeked(f, rs) < 65536
  {
    ValueHeader(Cells(f, f.outIdx, rs));
  }

  /** Half of the 32-bit range is enough for the slots. */
  lemma {:induction false} SlotsHalf(f: Fifo)
    requires Shape(f)
    ensures 2 * (f.mask + 1) <= U32
  {
    hide Pow2;
    var k := SizeBits(f);
    Pow2Is32();
    PowSplit(k + 1, 31 - k);
    MulLe(1, Pow2(31 - k), Pow2(k + 1));
    Twice(k);
  }

  lemma {:induction false} Twice(k: nat)
    ensures Pow2(k + 1) == 2 * Pow2(k)
  {
  }

  /** Moving the out-index past the in-index makes the FIFO look overfull. */
  lemma {:induction false} OverReleased(f: Fifo, n: nat)
    requires Ok(f) && Used(f) < n < 0x1_0000_0000 / 2
    ensures Used(Release(f, n)) > f.mask + 1
  {
    hide Pow2, IsPow2;
    SlotsHalf(f);
    var o := f.outIdx + n;
    assert f.inIdx - o % U32 == f.inIdx - o + U32 * (o / U32);
    ModMultiple(f.inIdx - o, o / U32, U32);
    ModAdd(f.inIdx - f.outIdx, 0 - n, U32);
    DivUnique(Used(f) - n, U32, -1, Used(f) - n + U32);
  }

  /** A skip keeps the FIFO intact if and only if a whole record is queued; then it
      removes that record. */
  lemma {:induction false} SkipIff(f: Fifo, rs: nat)
    requires Ok(f) && f.esize == 1 && RecSize(rs)
    ensures Ok(SkipRecord(f, rs)) <==> StartsWhole(Contents(f), rs)
    ensures StartsWhole(Contents(f), rs) ==> Contents(SkipRecord(f, rs)) == Take(Contents(f), rs, 0).1
  {
    hide Pow2, IsPow2, Window, Used, Value, Contents, Cells, Span, Peeked;
    PeekedIs(f, rs);
    PeekedSmall(f, rs);
    SpanOfBytes();
    var m := Peeked(f, rs) + rs;
    if m <= Used(f) {
      DropElements(f, m);
    } else {
      OverReleased(f, m);
    }
  }

  /** A skip on an empty FIFO is accepted and leaves more in use than there are slots. */
  lemma {:induction false} EmptySkip()
    ensures var f := Fifo([0, 0], 0, 0, 1, 1);
            Ok(f) && Contents(f) == [] && !Ok(SkipRecord(f, 1)) && Used(SkipRecord(f, 1)) == U32 - 1
  {
    var f := Fifo([0, 0], 0, 0, 1, 1);
    assert Log2(2) == 1;
    assert Ok(f);
    assert Cells(f, 0, 1)[0] == f.data[..2][Slot(0, 2)] == 0;
    assert Peeked(f, 1) == 0;
  }

  // ----- the queue of records ------------------------------------------------------------------

  /** The FIFO holds exactly these records. */
  ghost predicate Holds(f: Fifo, rs: nat, q: seq<seq<byte>>)
    requires RecSize(rs)
  {
    Ok(f) && f.esize == 1 && DecodeAll(Contents(f), rs) == Some(q)
  }

  /** The lengths __kfifo_in_r takes in fit their header, and nothing is skipped that is
      not there. */
  predicate Allowed(q: seq<seq<byte>>, cap: nat, rs: nat, op: Op)
    requires RecSize(rs)
  {
    match op
    case PutOp(r) => |r| + rs > cap - |EncodeAll(q, rs)| || |r| < Lengths(rs)
    case TakeOp(_) => true
    case SkipOp => q != []
  }

  predicate AllAllowed(q: seq<seq<byte>>, cap: nat, rs: nat, ops: seq<Op>)
    requires RecSize(rs)
    decreases |ops|
  {
    ops == [] ||
    (Allowed(q, cap, rs, ops[0]) && AllAllowed(StepRecords(q, cap, rs, ops[0]).0, cap, rs, ops[1..]))
  }

  lemma {:induction false} HoldsWhole(f: Fifo, rs: nat, q: seq<seq<byte>>)
    requires RecSize(rs) && Holds(f, rs, q)
    ensures Fit(q, rs) && EncodeAll(q, rs) == Contents(f) && |Contents(f)| == Used(f) <= f.mask + 1
    ensures Contents(f) == [] <==> q == []
    ensures q != [] ==> StartsWhole(Contents(f), rs)
    ensures f.inIdx == f.outIdx <==> q == []
  {
    hide Pow2, IsPow2, Window, Value, Contents, Cells, Span, Used, EncodeAll, StartsWhole;
    EncodeDecode(Contents(f), rs);
    EncodeStarts(q, rs);
    SpanOfBytes();
    EmptyIndices(f);
  }

  lemma {:induction false} EmptyIndices(f: Fifo)
    requires Ok(f)
    ensures f.inIdx == f.outIdx <==> Used(f) == 0
  {
    hide Pow2, IsPow2;
    UsedIs(f);
    ModSmall(f.outIdx, U32);
  }

  lemma {:induction false} HoldsCopyable(f: Fifo, rs: nat, q: seq<seq<byte>>, want: nat)
    requires RecSize(rs) && Holds(f, rs, q)
    ensures Copyable(f, rs, want)
  {
    hide Pow2, IsPow2, Window, Value, Contents, Cells, Span, Used, Peeked;
    HoldsWhole(f, rs, q);
    PeekedIs(f, rs);
  }

  /** One operation of the FIFO, and what the consumer is given. */
  function StepFifo(f: Fifo, rs: nat, op: Op): (Fifo, seq<seq<byte>>)
    requires Ok(f) && f.esize == 1 && RecSize(rs) && (op.TakeOp? ==> Copyable(f, rs, op.want))
  {
    match op
    case PutOp(r) => (PutRecord(f, rs, r), [])
    case TakeOp(want) =>
      var (g, buf) := TakeRecord(f, rs, want);
      (g, if f.inIdx == f.outIdx then [] else [buf])
    case SkipOp => (SkipRecord(f, rs), [])
  }

  /** The operation does to the FIFO what it does to the queue of records. */
  ghost predicate Follows(f: Fifo, rs: nat, q: seq<seq<byte>>, op: Op)
    requires RecSize(rs) && Holds(f, rs, q)
  {
    HoldsCopyable(f, rs, q, if op.TakeOp? then op.want else 0);
    var (g, got) := StepFifo(f, rs, op);
    var (q', got') := StepRecords(q, f.mask + 1, rs, op);
    Holds(g, rs, q') && got == got' && g.mask == f.mask
  }

  lemma {:induction false} PutFollows(f: Fifo, rs: nat, q: seq<seq<byte>>, r: seq<byte>)
    requires RecSize(rs) && Holds(f, rs, q)
    ensures Follows(f, rs, q, PutOp(r)) <==> Allowed(q, f.mask + 1, rs, PutOp(r))
  {
    hide Pow2, IsPow2, Window, Value, Contents, Cells, Span, Used, Write, Header, DecodeAll, EncodeAll;
    HoldsWhole(f, rs, q);
    UsedIs(f);
    if |r| + rs <= f.mask + 1 - Used(f) {
      AppendRecord(f, r, rs);
      PutDecodes(q, f.mask + 1, rs, r);
      assert Contents(PutRecord(f, rs, r)) == Put(EncodeAll(q, rs), f.mask + 1, rs, r);
    } else {
      assert PutRecord(f, rs, r) == f;
    }
  }

  lemma {:induction false} SkipFollows(f: Fifo, rs: nat, q: seq<seq<byte>>)
    requires RecSize(rs) && Holds(f, rs, q)
    ensures Follows(f, rs, q, SkipOp) <==> q != []
    ensures q != [] ==> Ok(SkipRecord(f, rs)) && Holds(SkipRecord(f, rs), rs, q[1..])
  {
    hide Pow2, IsPow2, Window, Value, Contents, Cells, Span, Used, Peeked, EncodeAll, DecodeAll, Take;
    HoldsWhole(f, rs, q);
    SkipIff(f, rs);
    if q != [] {
      TakeFront(q, rs, 0);
      DecodeEncode(q[1..], rs);
    } else {
      NotWhole(rs);
    }
  }

  lemma {:induction false} NotWhole(rs: nat)
    requires RecSize(rs)
    ensures !StartsWhole([], rs)
  {
  }

  lemma {:induction false} TakeFollows(f: Fifo, rs: nat, q: seq<seq<byte>>, want: nat)
    requires RecSize(rs) && Holds(f, rs, q)
    ensures Follows(f, rs, q, TakeOp(want))
  {
    hide Pow2, IsPow2, Window, Value, Contents, Cells, Span, Used, Peeked, EncodeAll, DecodeAll, Take;
    HoldsWhole(f, rs, q);
    HoldsCopyable(f, rs, q, want);
    if q != [] {
      SkipFollows(f, rs, q);
      TakeFront(q, rs, want);
      Delivered(f, rs, q, want);
    }
  }

  lemma {:induction false} Delivered(f: Fifo, rs: nat, q: seq<seq<byte>>, want: nat)
    requires RecSize(rs) && Holds(f, rs, q) && q != [] && Copyable(f, rs, want)
    ensures TakeRecord(f, rs, want).1 == q[0][..Min(want, |q[0]|)]
  {
    hide Pow2, IsPow2, Window, Value, Contents, Cells, Span, Used, Peeked, EncodeAll, DecodeAll;
    HoldsWhole(f, rs, q);
    PeekedIs(f, rs);
    TakeFront(q, rs, want);
    RecordWindow(f, rs, Min(want, Peeked(f, rs)));
  }

  /** A record operation follows the queue of records if and only if it is allowed. */
  lemma {:induction false} StepExact(f: Fifo, rs: nat, q: seq<seq<byte>>, op: Op)
    requires RecSize(rs) && Holds(f, rs, q)
    ensures Follows(f, rs, q, op) <==> Allowed(q, f.mask + 1, rs, op)
  {
    hide Follows, Holds;
    match op
    case PutOp(r) => PutFollows(f, rs, q, r);
    case TakeOp(want) => TakeFollows(f, rs, q, want);
    case SkipOp => SkipFollows(f, rs, q);
  }

  // ----- runs --------------------------------------------------------------------------------

  /** Every operation of the run follows the queue of records. */
  ghost predicate AllFollow(f: Fifo, rs: nat, q: seq<seq<byte>>, ops: seq<Op>)
    requires RecSize(rs) && Holds(f, rs, q)
    decreases |ops|
  {
    ops == [] ||
    (Follows(f, rs, q, ops[0]) &&
     AllFollow(StepFifo(f, rs, ops[0]).0, rs, StepRecords(q, f.mask + 1, rs, ops[0]).0, ops[1..]))
  }

  /** The FIFO at the end of a run that follows, and all the consumer was given. */
  ghost function RunFifo(f: Fifo, rs: nat, q: seq<seq<byte>>, ops: seq<Op>): (Fifo, seq<seq<byte>>)
    requires RecSize(rs) && Holds(f, rs, q) && AllFollow(f, rs, q, ops)
    decreases |ops|
  {
    if ops == [] then (f, []) else
    var (g, got) := StepFifo(f, rs, ops[0]);
    var (h, more) := RunFifo(g, rs, StepRecords(q, f.mask + 1, rs, ops[0]).0, ops[1..]);
    (h, got + more)
  }

  /** Record mode is a FIFO of whole records, in every run, exactly as long as every length
      taken in fits its header and nothing is skipped from an empty FIFO: then the records
      are delivered in order, each cut only to the consumer's own buffer. */
  lemma {:induction false} RecordFifo(f: Fifo, rs: nat, q: seq<seq<byte>>, ops: seq<Op>)
    requires RecSize(rs) && Holds(f, rs, q)
    ensures AllFollow(f, rs, q, ops) <==> AllAllowed(q, f.mask + 1, rs, ops)
    ensures AllFollow(f, rs, q, ops) ==>
              && var (h, got) := RunFifo(f, rs, q, ops);
              var (q', got') := RunRecords(q, f.mask + 1, rs, ops);
              Holds(h, rs, q') && got == got'
    decreases |ops|
  {
    hide Holds, Allowed, StepRecords, StepFifo, Ok, Copyable;
    if ops != [] {
      StepExact(f, rs, q, ops[0]);
      HoldsShape(f, rs, q);
      HoldsCopyable(f, rs, q, if ops[0].TakeOp? then ops[0].want else 0);
      if Follows(f, rs, q, ops[0]) {
        RecordFifo(StepFifo(f, rs, ops[0]).0, rs, StepRecords(q, f.mask + 1, rs, ops[0]).0, ops[1..]);
      }
    }
  }

  lemma {:induction false} HoldsShape(f: Fifo, rs: nat, q: seq<seq<byte>>)
    requires RecSize(rs) && Holds(f, rs, q)
    ensures Ok(f) && f.esize == 1 && f.mask >= 0
  {
  }
}
