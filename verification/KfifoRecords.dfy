/** Record mode: each record is stored behind a little-endian length of one or
    two bytes.  The queued bytes always decode to the accepted records. */
module KfifoRecords {
  import opened Util
  import opened Words

  predicate RecSize(rs: nat) {
    rs == 1 || rs == 2
  }

  /** Number of lengths a header can express: 2^(8 * rs). */
  function Lengths(rs: nat): nat {
    if rs == 1 then 256 else 65536
  }

  /** __kfifo_max_r. */
  function MaxR(len: nat, rs: nat): (r: nat)
    ensures r < Lengths(rs) && r <= len && (r == len || r == Lengths(rs) - 1)
  {
    Min(len, Lengths(rs) - 1)
  }

  /** The bytes __kfifo_poke_n stores: the length cut to the header's width. */
  function Header(n: nat, rs: nat): (h: seq<byte>)
    requires RecSize(rs)
    ensures |h| == rs
  {
    if rs == 1 then [n % 256] else [n % 256, n / 256 % 256]
  }

  /** The length __kfifo_peek_n reads. */
  function Value(h: seq<byte>): nat
    requires RecSize(|h|)
  {
    if |h| == 1 then h[0] else h[0] as int + 256 * (h[1] as int)
  }

  function Frame(r: seq<byte>, rs: nat): seq<byte>
    requires RecSize(rs)
  {
    Header(|r|, rs) + r
  }

  function EncodeAll(recs: seq<seq<byte>>, rs: nat): seq<byte>
    requires RecSize(rs)
  {
    if recs == [] then [] else Frame(recs[0], rs) + EncodeAll(recs[1..], rs)
  }

  /** Reads records off the front for as long as whole ones are there. */
  function DecodeAll(c: seq<byte>, rs: nat): Option<seq<seq<byte>>>
    requires RecSize(rs)
    decreases |c|
  {
    if c == [] then Some([])
    else if !StartsWhole(c, rs) then None
    else
      var n := Value(c[..rs]);
      match DecodeAll(c[rs + n..], rs)
      case None => None
      case Some(rest) => Some([c[rs..rs + n]] + rest)
  }

  predicate StartsWhole(c: seq<byte>, rs: nat)
    requires RecSize(rs)
  {
    |c| >= rs && |c| >= rs + Value(c[..rs])
  }

  predicate Fit(recs: seq<seq<byte>>, rs: nat) {
    forall k :: 0 <= k < |recs| ==> |recs[k]| < Lengths(rs)
  }

  lemma HeaderValue(n: nat, rs: nat)
    requires RecSize(rs)
    ensures Value(Header(n, rs)) == n % Lengths(rs)
  {
  }

  lemma ValueHeader(h: seq<byte>)
    requires RecSize(|h|)
    ensures Value(h) < Lengths(|h|) && Header(Value(h), |h|) == h
  {
    if |h| == 2 {
      var v := Value(h);
      assert v % 256 == h[0] && v / 256 == h[1];
    }
  }

  lemma FrameFront(r: seq<byte>, rest: seq<byte>, rs: nat)
    requires RecSize(rs) && |r| < Lengths(rs)
    ensures var c := Frame(r, rs) + rest;
            StartsWhole(c, rs) && Value(c[..rs]) == |r| && c[rs..rs + |r|] == r && c[rs + |r|..] == rest
  {
    var c := Frame(r, rs) + rest;
    assert c[..rs] == Header(|r|, rs);
    HeaderValue(|r|, rs);
  }

  lemma {:induction false} DecodeEncode(recs: seq<seq<byte>>, rs: nat)
    requires RecSize(rs) && Fit(recs, rs)
    ensures DecodeAll(EncodeAll(recs, rs), rs) == Some(recs)
    decreases |recs|
  {
    if recs != [] {
      FrameFront(recs[0], EncodeAll(recs[1..], rs), rs);
      DecodeEncode(recs[1..], rs);
      assert recs == [recs[0]] + recs[1..];
    }
  }

  lemma {:induction false} EncodeDecode(c: seq<byte>, rs: nat)
    requires RecSize(rs) && DecodeAll(c, rs).Some?
    ensures var recs := DecodeAll(c, rs).value; Fit(recs, rs) && EncodeAll(recs, rs) == c
    decreases |c|
  {
    hide Header, Value;
    if c != [] {
      var n := Value(c[..rs]);
      var r := c[rs..rs + n];
      var rest := c[rs + n..];
      EncodeDecode(rest, rs);
      WholeFront(c, rs);
      EncodeCons(r, DecodeAll(rest, rs).value, rs);
    }
  }

  /** A whole record at the front is the frame of its payload. */
  lemma WholeFront(c: seq<byte>, rs: nat)
    requires RecSize(rs) && StartsWhole(c, rs)
    ensures var n := Value(c[..rs]);
            n < Lengths(rs) && c == Frame(c[rs..rs + n], rs) + c[rs + n..]
  {
    hide Header, Value;
    ValueHeader(c[..rs]);
  }

  lemma EncodeCons(r: seq<byte>, tail: seq<seq<byte>>, rs: nat)
    requires RecSize(rs)
    ensures EncodeAll([r] + tail, rs) == Frame(r, rs) + EncodeAll(tail, rs)
  {
    hide Frame;
    assert ([r] + tail)[0] == r && ([r] + tail)[1..] == tail;
  }

  lemma {:induction false} EncodeAppend(recs: seq<seq<byte>>, r: seq<byte>, rs: nat)
    requires RecSize(rs)
    ensures EncodeAll(recs + [r], rs) == EncodeAll(recs, rs) + Frame(r, rs)
  {
    hide Frame;
    if recs == [] {
      assert EncodeAll([r], rs) == Frame(r, rs) + EncodeAll([], rs);
      assert [] + [r] == [r];
    } else {
      EncodeAppend(recs[1..], r, rs);
      EncodeCons(recs[0], recs[1..] + [r], rs);
      assert recs + [r] == [recs[0]] + (recs[1..] + [r]);
    }
  }

  // ----- the operations on the queued bytes ---------------------------------------

  /** __kfifo_in_r on a buffer of `cap` bytes: all of the record or nothing. */
  function Put(c: seq<byte>, cap: nat, rs: nat, r: seq<byte>): seq<byte>
    requires RecSize(rs)
  {
    if |r| + rs > cap - |c| then c else c + Frame(r, rs)
  }

  /** The first record into a buffer of `want` bytes: what is delivered, what stays. */
  function Take(c: seq<byte>, rs: nat, want: nat): (seq<byte>, seq<byte>)
    requires RecSize(rs) && StartsWhole(c, rs)
  {
    var n := Value(c[..rs]);
    (c[rs..rs + Min(want, n)], c[rs + n..])
  }

  /** Storing a record keeps the buffer decodable to the accepted records exactly
      when the length fits the header; __kfifo_in_r itself does not check it. */
  lemma PutDecodes(recs: seq<seq<byte>>, cap: nat, rs: nat, r: seq<byte>)
    requires RecSize(rs) && Fit(recs, rs)
    requires |r| + rs <= cap - |EncodeAll(recs, rs)|
    ensures DecodeAll(Put(EncodeAll(recs, rs), cap, rs, r), rs) == Some(recs + [r])
            <==> |r| < Lengths(rs)
  {
    var c := Put(EncodeAll(recs, rs), cap, rs, r);
    EncodeAppend(recs, r, rs);
    if |r| < Lengths(rs) {
      DecodeEncode(recs + [r], rs);
    }
    if DecodeAll(c, rs) == Some(recs + [r]) {
      EncodeDecode(c, rs);
      assert (recs + [r])[|recs|] == r;
    }
  }

  /** An over-long record is accepted and breaks the framing. */
  lemma OverlongRecord()
    ensures var r: seq<byte> := seq(256, _ => 0);
            Put([], 1024, 1, r) == Frame(r, 1) && DecodeAll(Put([], 1024, 1, r), 1) != Some([r])
  {
    var r: seq<byte> := seq(256, _ => 0);
    PutDecodes([], 1024, 1, r);
    assert [] + [r] == [r];
    assert [] + Frame(r, 1) == Frame(r, 1);
  }

  /** kfifo_avail in record mode, with `room` bytes unused. */
  function Avail(room: nat, rs: nat): nat
    requires RecSize(rs)
  {
    if room <= rs then 0 else MaxR(room - rs, rs)
  }

  /** kfifo_avail is exactly how long a record may be: a record that is not empty is both
      accepted and read back if and only if it is no longer than that. */
  lemma AvailExact(recs: seq<seq<byte>>, cap: nat, rs: nat, r: seq<byte>)
    requires RecSize(rs) && Fit(recs, rs) && |EncodeAll(recs, rs)| <= cap && r != []
    ensures DecodeAll(Put(EncodeAll(recs, rs), cap, rs, r), rs) == Some(recs + [r])
            <==> |r| <= Avail(cap - |EncodeAll(recs, rs)|, rs)
  {
    var c := EncodeAll(recs, rs);
    if |r| + rs <= cap - |c| {
      PutDecodes(recs, cap, rs, r);
    } else {
      DecodeEncode(recs, rs);
      assert |recs + [r]| != |recs|;
    }
  }

  // ----- the queue of records ------------------------------------------------------------

  datatype Op = PutOp(rec: seq<byte>) | TakeOp(want: nat) | SkipOp

  /** What is left in the queue, and what the consumer is given. */
  function StepRecords(q: seq<seq<byte>>, cap: nat, rs: nat, op: Op): (seq<seq<byte>>, seq<seq<byte>>)
    requires RecSize(rs)
  {
    match op
    case PutOp(r) => (if |r| + rs > cap - |EncodeAll(q, rs)| then q else q + [r], [])
    case TakeOp(want) => if q == [] then (q, []) else (q[1..], [q[0][..Min(want, |q[0]|)]])
    case SkipOp => (if q == [] then q else q[1..], [])
  }

  function RunRecords(q: seq<seq<byte>>, cap: nat, rs: nat, ops: seq<Op>): (seq<seq<byte>>, seq<seq<byte>>)
    requires RecSize(rs)
    decreases |ops|
  {
    if ops == [] then (q, []) else
    var (q1, got) := StepRecords(q, cap, rs, ops[0]);
    var (q2, more) := RunRecords(q1, cap, rs, ops[1..]);
    (q2, got + more)
  }

  lemma EncodeStarts(q: seq<seq<byte>>, rs: nat)
    requires RecSize(rs) && Fit(q, rs)
    ensures EncodeAll(q, rs) == [] <==> q == []
    ensures q != [] ==> StartsWhole(EncodeAll(q, rs), rs)
  {
    if q != [] {
      FrameFront(q[0], EncodeAll(q[1..], rs), rs);
    }
  }

  /** Taking from the bytes removes the first record, whole. */
  lemma TakeFront(q: seq<seq<byte>>, rs: nat, want: nat)
    requires RecSize(rs) && Fit(q, rs) && q != []
    ensures StartsWhole(EncodeAll(q, rs), rs)
    ensures Take(EncodeAll(q, rs), rs, want) == (q[0][..Min(want, |q[0]|)], EncodeAll(q[1..], rs))
  {
    var c, n := EncodeAll(q, rs), |q[0]|;
    FrameFront(q[0], EncodeAll(q[1..], rs), rs);
    hide Header, Value, Frame;
    assert c[rs..rs + Min(want, n)] == c[rs..rs + n][..Min(want, n)];
  }
}
