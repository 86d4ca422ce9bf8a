/** The calibration file: a header, a list of type-length-value blocks and the
    radio parameters.  Recalibration parses the old file and writes a new one
    with new transmit data and the old receive data. */
module Nvs {
  import opened Util
  import opened Words
  import opened LittleEndian

  const TX: byte := 1
  const RX: byte := 2
  const VERSION: byte := 0xaa
  const LAST: byte := 0xff
  const TOTAL_LENGTH: nat := 500
  const MAX_TLV_LENGTH: nat := 500
  const PRE_PARAMETERS: nat := 24
  const RADIO_START: nat := 0x1D4
  const FILE_SIZE_127X: nat := 0x390
  const FILE_SIZE_128X: nat := 0x459

  /** A parsed block: the announced length, and its buffer up to the last byte ever copied
      there; the rest of the buffer is zero. */
  datatype Block = Block(len: nat, data: seq<byte>)

  /** Blocks are empty and the version unset until seen. */
  datatype Parsed = Parsed(tx: Block, rx: Block, ver: Option<nat>)

  const NOTHING := Parsed(Block(0, []), Block(0, []), None)

  // ----- parsing ---------------------------------------------------------------------

  function Word(buf: seq<byte>, at: nat): nat
    requires at + 1 < |buf|
  {
    buf[at + 1] as int * 256 + buf[at] as int
  }

  function Version(buf: seq<byte>, at: nat): nat
    requires at + 2 < |buf|
  {
    buf[at] as int * 65536 + buf[at + 1] as int * 256 + buf[at + 2] as int
  }

  /** The payload copied from a block at idx: at most up to the end of the area. */
  function Payload(buf: seq<byte>, idx: nat): (d: seq<byte>)
    requires idx < TOTAL_LENGTH && TOTAL_LENGTH + 6 <= |buf|
  {
    var start := Min(idx + 3, TOTAL_LENGTH);
    buf[start..start + Min(Word(buf, idx + 1), TOTAL_LENGTH - start)]
  }

  /** Bytes copied to the start of a buffer. */
  function Over(data: seq<byte>, before: seq<byte>): seq<byte> {
    if |before| <= |data| then data else data + before[|data|..]
  }

  predicate Known(t: byte) {
    t == TX || t == RX || t == VERSION
  }

  /** What one block adds. */
  function Take(buf: seq<byte>, idx: nat, acc: Parsed): Parsed
    requires idx < TOTAL_LENGTH && TOTAL_LENGTH + 6 <= |buf|
  {
    var t, len := buf[idx], Word(buf, idx + 1);
    if t == TX then acc.(tx := Block(len, Over(Payload(buf, idx), acc.tx.data)))
    else if t == RX then acc.(rx := Block(len, Over(Payload(buf, idx), acc.rx.data)))
    else if t == VERSION then acc.(ver := Some(Version(buf, idx + 3)))
    else acc
  }

  /** The 16-bit index never wraps on the blocks that are visited. */
  predicate NoWrap(buf: seq<byte>, idx: nat)
    requires TOTAL_LENGTH + 6 <= |buf|
    decreases TOTAL_LENGTH - idx
  {
    idx >= TOTAL_LENGTH || !Known(buf[idx]) ||
    (var next := idx + 3 + Word(buf, idx + 1); next < 65536 && NoWrap(buf, next))
  }

  /** nvs_parse_data from index idx on. */
  function Parse(buf: seq<byte>, idx: nat, acc: Parsed): Parsed
    requires TOTAL_LENGTH + 6 <= |buf|
    decreases TOTAL_LENGTH - idx
  {
    if idx >= TOTAL_LENGTH || !Known(buf[idx]) then acc
    else Parse(buf, idx + 3 + Word(buf, idx + 1), Take(buf, idx, acc))
  }

  /** The loops of nvs_parse_data. */
  method ParseData(buf: seq<byte>) returns (p: Parsed)
    requires TOTAL_LENGTH + 6 <= |buf| && NoWrap(buf, 0)
    ensures p == Parse(buf, 0, NOTHING)
  {
    hide Payload, Version;
    p := NOTHING;
    var idx := 0;
    while idx < TOTAL_LENGTH
      invariant NoWrap(buf, idx) && Parse(buf, idx, p) == Parse(buf, 0, NOTHING)
      decreases TOTAL_LENGTH - idx
    {
      var t := buf[idx];
      if t == VERSION {
        var ver := ReadVersion(buf, idx + 3);
        p := p.(ver := Some(ver));
      } else if t != TX && t != RX {
        return;
      }
      var len := buf[idx + 2] as int * 256 + buf[idx + 1] as int;
      if t == TX || t == RX {
        var data := CopyPayload(buf, idx, len);
        if t == TX {
          p := p.(tx := Block(len, Over(data, p.tx.data)));
        } else {
          p := p.(rx := Block(len, Over(data, p.rx.data)));
        }
      }
      idx := (idx + 3 + len) % 65536;
    }
  }

  method ReadVersion(buf: seq<byte>, at: nat) returns (ver: nat)
    requires at + 2 < |buf|
    ensures ver == Version(buf, at)
  {
    ver := 0;
    for oct := 0 to 3
      invariant ver == (if oct >= 1 then buf[at] as int * 65536 else 0)
                     + (if oct >= 2 then buf[at + 1] as int * 256 else 0)
                     + (if oct >= 3 then buf[at + 2] as int else 0)
    {
      var shift := if oct == 0 then 65536 else if oct == 1 then 256 else 1;
      ver := ver + buf[at + oct] as int * shift;
    }
  }

  method CopyPayload(buf: seq<byte>, idx: nat, len: nat) returns (data: seq<byte>)
    requires idx < TOTAL_LENGTH && TOTAL_LENGTH + 6 <= |buf| && len == Word(buf, idx + 1)
    ensures data == Payload(buf, idx)
  {
    data := [];
    var info := 0;
    while info < len && idx + 3 + info < TOTAL_LENGTH
      invariant info <= len && (info > 0 ==> idx + 3 + info <= TOTAL_LENGTH)
      invariant data == buf[Min(idx + 3, TOTAL_LENGTH)..Min(idx + 3, TOTAL_LENGTH) + info]
    {
      data := data + [buf[idx + 3 + info]];
      info := info + 1;
    }
  }

  // ----- writing ------------------------------------------------------------------------

  /** A block with a little-endian length. */
  function Tlv(t: byte, data: seq<byte>): (r: seq<byte>)
    requires |data| < 65536
    ensures |r| == 3 + |data|
  {
    [t, |data| % 256, |data| / 256] + data
  }

  function VersionBytes(ver: nat): (r: seq<byte>)
    ensures |r| == 3
  {
    [ver / 65536 % 256, ver / 256 % 256, ver % 256]
  }

  function Header(mac: seq<byte>): (h: seq<byte>)
    requires |mac| == 6
    ensures |h| == PRE_PARAMETERS
  {
    [1, 0x6d, 0x54, mac[5], mac[4], mac[3], mac[2], 1, 0x71, 0x54, mac[1], mac[0], 0, 0]
    + [0, 0, 0, 0, 0, 0, 0] + [0, 0, 0]
  }

  function Blocks(tx: seq<byte>, rx: seq<byte>, ver: nat): (r: seq<byte>)
    requires |tx| < 65536 && |rx| < 65536
    ensures |r| == |tx| + |rx| + 16
  {
    Tlv(TX, tx) + Tlv(RX, rx) + Tlv(VERSION, VersionBytes(ver)) + [LAST, LAST, 0, 0]
  }

  function Image(mac: seq<byte>, tx: seq<byte>, rx: seq<byte>, ver: nat, radio: seq<byte>): seq<byte>
    requires |mac| == 6 && |tx| < 65536 && |rx| < 65536
  {
    Header(mac) + Blocks(tx, rx, ver) + radio
  }

  /** The file under construction: writes go to its end. */
  class Writer {
    var out: seq<byte>

    constructor ()
      ensures out == []
    {
      out := [];
    }

    method Write(bytes: seq<byte>)
      modifies this
      ensures out == old(out) + bytes
    {
      out := out + bytes;
    }

    /** Writes bytes one at a time, as the loops over a payload do. */
    method WriteEach(bytes: seq<byte>)
      modifies this
      ensures out == old(out) + bytes
    {
      for i := 0 to |bytes|
        invariant out == old(out) + bytes[..i]
      {
        Write([bytes[i]]);
        assert bytes[..i + 1] == bytes[..i] + [bytes[i]];
      }
      assert bytes[..|bytes|] == bytes;
    }

    /** The command that sets the upper part of the address. */
    method FillUpper(mac: seq<byte>)
      requires |mac| == 6
      modifies this
      ensures out == old(out) + [1, 0x6d, 0x54, mac[5], mac[4], mac[3], mac[2]]
    {
      Write([1]);
      Write([0x6d]);
      Write([0x54]);
      assert out == old(out) + [1, 0x6d, 0x54];
      Write([mac[5]]);
      Write([mac[4]]);
      Write([mac[3]]);
      Write([mac[2]]);
    }

    /** The command that sets the lower part of the address. */
    method FillLower(mac: seq<byte>)
      requires |mac| == 6
      modifies this
      ensures out == old(out) + [1, 0x71, 0x54, mac[1], mac[0], 0, 0]
    {
      Write([1]);
      Write([0x71]);
      Write([0x54]);
      assert out == old(out) + [1, 0x71, 0x54];
      Write([mac[1]]);
      Write([mac[0]]);
      Write([0]);
      Write([0]);
    }

    method FillHeader(mac: seq<byte>)
      requires |mac| == 6 && out == []
      modifies this
      ensures out == Header(mac)
    {
      FillUpper(mac);
      FillLower(mac);
      WriteEach([0, 0, 0, 0, 0, 0, 0]);
      WriteEach([0, 0, 0]);
    }

    method FillTx(tx: seq<byte>)
      requires |tx| < 65536
      modifies this
      ensures out == old(out) + Tlv(TX, tx)
    {
      Write([TX]);
      Write([|tx| % 256, |tx| / 256]);
      WriteEach(tx);
      assert Tlv(TX, tx) == [TX] + [|tx| % 256, |tx| / 256] + tx;
    }

    method FillEnd()
      modifies this
      ensures out == old(out) + [LAST, LAST, 0, 0]
    {
      Write([LAST]);
      Write([LAST]);
      Write([0]);
      Write([0]);
    }

    /** nvs_fill_version. */
    method FillVersion(ver: nat)
      modifies this
      ensures out == old(out) + Tlv(VERSION, VersionBytes(ver))
    {
      Write([VERSION]);
      Write([3, 0]);
      Write([ver / 65536 % 256]);
      Write([ver / 256 % 256]);
      Write([ver % 256]);
      assert Tlv(VERSION, VersionBytes(ver)) == [VERSION, 3, 0] + VersionBytes(ver);
    }

    /** nvs_fill_old_rx_data. */
    method FillOldRx(rx: seq<byte>)
      requires |rx| < 65536
      modifies this
      ensures out == old(out) + Tlv(RX, rx)
    {
      Write([RX]);
      Write([|rx| % 256, |rx| / 256]);
      WriteEach(rx);
      assert Tlv(RX, rx) == [RX] + [|rx| % 256, |rx| / 256] + rx;
    }
  }

  // ----- recalibration --------------------------------------------------------------------

  predicate FileSize(n: nat) {
    n == FILE_SIZE_127X || n == FILE_SIZE_128X
  }

  /** The first bytes of a block's buffer, as many as it announces. */
  function Announced(b: Block): (r: seq<byte>)
    requires b.len <= MAX_TLV_LENGTH
    ensures |r| == b.len
    ensures forall k :: 0 <= k < b.len ==> r[k] == if k < |b.data| then b.data[k] else 0
    ensures |b.data| == b.len ==> r == b.data
  {
    if |b.data| >= b.len then b.data[..b.len] else b.data + seq(b.len - |b.data|, _ => 0)
  }

  /** The file has one of the two sizes, the block indices do not wrap and the receive data
      fits its buffer; it need not lie in the parsed area. */
  predicate Sound(img: seq<byte>) {
    && FileSize(|img|)
    && NoWrap(img[PRE_PARAMETERS..], 0)
    && Parse(img[PRE_PARAMETERS..], 0, NOTHING).rx.len <= MAX_TLV_LENGTH
  }

  /** The receive data a recalibration carries over. */
  function RxOf(img: seq<byte>): (rx: seq<byte>)
    requires Sound(img)
    ensures |rx| <= MAX_TLV_LENGTH
  {
    Announced(Parse(img[PRE_PARAMETERS..], 0, NOTHING).rx)
  }

  function Radio(img: seq<byte>): seq<byte>
    requires FileSize(|img|)
  {
    img[RADIO_START..]
  }

  /** The file prepare_nvs_file leaves behind. */
  function Recalibrated(img: seq<byte>, mac: seq<byte>, tx: seq<byte>, ver: nat): seq<byte>
    requires Sound(img) && |mac| == 6 && |tx| <= TOTAL_LENGTH
  {
    Image(mac, tx, RxOf(img), ver, Radio(img))
  }

  lemma {:induction false} ParseBounded(buf: seq<byte>, idx: nat, acc: Parsed)
    requires TOTAL_LENGTH + 6 <= |buf| && |acc.rx.data| <= TOTAL_LENGTH && |acc.tx.data| <= TOTAL_LENGTH
    ensures var p := Parse(buf, idx, acc); |p.rx.data| <= TOTAL_LENGTH && |p.tx.data| <= TOTAL_LENGTH
    decreases TOTAL_LENGTH - idx
  {
    if idx < TOTAL_LENGTH && Known(buf[idx]) {
      ParseBounded(buf, idx + 3 + Word(buf, idx + 1), Take(buf, idx, acc));
    }
  }

  /** prepare_nvs_file; refuses a file of unknown size. */
  method Prepare(img: seq<byte>, mac: seq<byte>, tx: seq<byte>, ver: nat) returns (r: Option<seq<byte>>)
    requires FileSize(|img|) ==> Sound(img)
    requires |mac| == 6 && |tx| <= TOTAL_LENGTH
    ensures r.Some? <==> FileSize(|img|)
    ensures r.Some? ==> r.value == Recalibrated(img, mac, tx, ver)
  {
    hide Parse, NoWrap, Header, Tlv, VersionBytes, Announced;
    var size := |img|;
    if size != FILE_SIZE_127X && size != FILE_SIZE_128X {
      return None;
    }
    var w := new Writer();
    w.FillHeader(mac);
    w.FillTx(tx);
    var oldData := ParseData(img[PRE_PARAMETERS..]);
    var rx := Announced(oldData.rx);
    w.FillOldRx(rx);
    w.FillVersion(ver);
    w.FillEnd();
    w.Write(img[RADIO_START..]);
    r := Some(w.out);
    Assembled(Header(mac), Tlv(TX, tx), Tlv(RX, rx), Tlv(VERSION, VersionBytes(ver)), img[RADIO_START..]);
  }

  lemma Assembled(h: seq<byte>, t: seq<byte>, x: seq<byte>, v: seq<byte>, radio: seq<byte>)
    ensures h + t + x + v + [LAST, LAST, 0, 0] + radio == h + (t + x + v + [LAST, LAST, 0, 0]) + radio
  {
  }

  // ----- what is written parses back -----------------------------------------------------

  lemma WordOf(t: byte, data: seq<byte>, pre: seq<byte>, post: seq<byte>)
    requires |data| < 65536
    ensures var buf := pre + Tlv(t, data) + post;
            buf[|pre|] == t && Word(buf, |pre| + 1) == |data|
            && buf[|pre| + 3..|pre| + 3 + |data|] == data
  {
    var buf := pre + Tlv(t, data) + post;
    assert buf[|pre|] == Tlv(t, data)[0];
    assert buf[|pre| + 1] == Tlv(t, data)[1] && buf[|pre| + 2] == Tlv(t, data)[2];
    assert Tlv(t, data)[3..] == data;
  }

  lemma VersionOf(ver: nat, pre: seq<byte>, post: seq<byte>)
    ensures Version(pre + Tlv(VERSION, VersionBytes(ver)) + post, |pre| + 3) == ver % 0x1000000
  {
    Octets(ver);
    var bytes := VersionBytes(ver);
    hide VersionBytes;
    var buf := pre + Tlv(VERSION, bytes) + post;
    assert buf[|pre| + 3] == bytes[0];
    assert buf[|pre| + 4] == bytes[1];
    assert buf[|pre| + 5] == bytes[2];
  }

  lemma Octets(ver: nat)
    ensures var b := VersionBytes(ver);
            |b| == 3 && b[0] as int * 65536 + b[1] as int * 256 + b[2] as int == ver % 0x1000000
  {
    Split(ver, 65536);
    Split(ver / 256, 256);
    Upper(ver);
  }

  lemma Upper(v: nat)
    ensures v / 256 / 256 == v / 65536
  {
  }

  /** The block at the end of pre is taken and parsing goes on behind it. */
  lemma ParseOne(t: byte, data: seq<byte>, pre: seq<byte>, post: seq<byte>, acc: Parsed)
    requires t == TX || t == RX
    requires |data| < 65536 && |pre| < TOTAL_LENGTH && |pre| + 3 + |data| + |post| >= TOTAL_LENGTH + 6
    ensures var buf := pre + Tlv(t, data) + post;
            var next := |pre| + 3 + |data|;
            var acc' := Take(buf, |pre|, acc);
            && Parse(buf, |pre|, acc) == Parse(buf, next, acc')
            && (next < 65536 && NoWrap(buf, next) ==> NoWrap(buf, |pre|))
            && acc'.ver == acc.ver
            && (next <= TOTAL_LENGTH ==>
                  acc' == if t == TX then acc.(tx := Block(|data|, Over(data, acc.tx.data)))
                          else acc.(rx := Block(|data|, Over(data, acc.rx.data))))
  {
    WordOf(t, data, pre, post);
  }

  function Exact(tx: seq<byte>, rx: seq<byte>, ver: nat): Parsed {
    Parsed(Block(|tx|, tx), Block(|rx|, rx), Some(ver % 0x1000000))
  }

  /** The version block, and the end behind it. */
  lemma ParseVersion(ver: nat, pre: seq<byte>, rest: seq<byte>, acc: Parsed)
    requires |pre| < TOTAL_LENGTH && |pre| + 10 + |rest| >= TOTAL_LENGTH + 6
    ensures var buf := pre + Tlv(VERSION, VersionBytes(ver)) + ([LAST, LAST, 0, 0] + rest);
            Parse(buf, |pre|, acc) == acc.(ver := Some(ver % 0x1000000)) && NoWrap(buf, |pre|)
  {
    var post := [LAST, LAST, 0, 0] + rest;
    var buf := pre + Tlv(VERSION, VersionBytes(ver)) + post;
    WordOf(VERSION, VersionBytes(ver), pre, post);
    VersionOf(ver, pre, post);
    assert buf[|pre| + 6] == LAST;
    var next := |pre| + 6;
    assert Parse(buf, |pre|, acc) == Parse(buf, next, acc.(ver := Some(ver % 0x1000000)));
    assert NoWrap(buf, next);
  }

  /** Where the blocks lie: a type, a length low byte first and the data of each, the version
      high byte first, and the end mark. */
  lemma BlocksLayout(tx: seq<byte>, rx: seq<byte>, ver: nat)
    requires |tx| < 65536 && |rx| < 65536
    ensures var b, r, v := Blocks(tx, rx, ver), 3 + |tx|, 6 + |tx| + |rx|;
            && b[0] == 1 && Number(b[1..3]) == |tx| && b[3..r] == tx
            && b[r] == 2 && Number(b[r + 1..r + 3]) == |rx| && b[r + 3..v] == rx
            && b[v] == 0xaa && Number(b[v + 1..v + 3]) == 3
            && Number([b[v + 5], b[v + 4], b[v + 3]]) == ver % 0x1000000
            && b[v + 6..] == [0xff, 0xff, 0, 0]
  {
    hide Number, VersionBytes, Tlv;
    var b, r, v := Blocks(tx, rx, ver), 3 + |tx|, 6 + |tx| + |rx|;
    var t, x, w, e := Tlv(TX, tx), Tlv(RX, rx), Tlv(VERSION, VersionBytes(ver)), [LAST, LAST, 0, 0];
    TlvLayout(TX, tx, [], x + w + e);
    assert b == [] + t + (x + w + e);
    TlvLayout(RX, rx, t, w + e);
    assert b == t + x + (w + e);
    TlvLayout(VERSION, VersionBytes(ver), t + x, e);
    assert b == (t + x) + w + e;
    Octets(ver);
    assert b[v + 3..v + 6] == VersionBytes(ver);
    ThreeOctets(b[v + 3], b[v + 4], b[v + 5]);
  }

  lemma TlvLayout(t: byte, data: seq<byte>, pre: seq<byte>, post: seq<byte>)
    requires |data| < 65536
    ensures var bs, at := pre + Tlv(t, data) + post, |pre|;
            bs[at] == t && Number(bs[at + 1..at + 3]) == |data| && bs[at + 3..at + 3 + |data|] == data
  {
    var bs, at := pre + Tlv(t, data) + post, |pre|;
    WordOf(t, data, pre, post);
    assert bs[at + 1..at + 3] == [bs[at + 1], bs[at + 2]];
    TwoOctets(bs[at + 1], bs[at + 2]);
  }

  lemma TwoOctets(a: byte, b: byte)
    ensures Number([a, b]) == a as int + 256 * b as int
  {
    assert [a, b][1..] == [b] && [b][1..] == [];
    assert Number([b]) == b as int;
  }

  lemma ThreeOctets(a: byte, b: byte, c: byte)
    ensures Number([c, b, a]) == a as int * 65536 + b as int * 256 + c as int
  {
    TwoOctets(b, a);
    assert [c, b, a][1..] == [b, a];
  }

  /** Parsing what recalibration writes, whatever follows it in the buffer, gives
      back the transmit data, the receive data and the version modulo 2^24 exactly
      when the version block starts inside the parsed area. */
  lemma BlocksParseBack(tx: seq<byte>, rx: seq<byte>, ver: nat, rest: seq<byte>)
    requires |tx| <= TOTAL_LENGTH && |rx| <= TOTAL_LENGTH
    requires |Blocks(tx, rx, ver)| + |rest| >= TOTAL_LENGTH + 6
    ensures var buf := Blocks(tx, rx, ver) + rest;
            && NoWrap(buf, 0)
            && (Parse(buf, 0, NOTHING) == Exact(tx, rx, ver) <==> |tx| + |rx| + 6 < TOTAL_LENGTH)
            && (|tx| + |rx| + 6 >= TOTAL_LENGTH ==> Parse(buf, 0, NOTHING).ver.None?)
  {
    hide Take, Parse, NoWrap, Tlv, VersionBytes;
    var buf := Blocks(tx, rx, ver) + rest;
    var end := [LAST, LAST, 0, 0] + rest;
    var v := Tlv(VERSION, VersionBytes(ver));
    var post := Tlv(RX, rx) + v + end;
    assert buf == [] + Tlv(TX, tx) + post;
    ParseOne(TX, tx, [], post, NOTHING);
    var acc1 := Take(buf, 0, NOTHING);
    var pre := Tlv(TX, tx);
    if |pre| >= TOTAL_LENGTH {
      ParseEnds(buf, |pre|, acc1);
    } else {
      assert buf == pre + Tlv(RX, rx) + (v + end);
      ParseOne(RX, rx, pre, v + end, acc1);
      var acc2 := Take(buf, |pre|, acc1);
      var pre2 := pre + Tlv(RX, rx);
      assert buf == pre2 + v + end;
      if |pre2| >= TOTAL_LENGTH {
        ParseEnds(buf, |pre2|, acc2);
      } else {
        ParseVersion(ver, pre2, rest, acc2);
      }
    }
  }

  /** Transmit and receive data that fill the parsed area: the version is written, and lost. */
  lemma VersionLost(rest: seq<byte>)
    requires |rest| >= 6
    ensures var tx: seq<byte>, rx: seq<byte> := seq(300, _ => 0), seq(194, _ => 0);
            Parse(Blocks(tx, rx, 7) + rest, 0, NOTHING).ver == None != Exact(tx, rx, 7).ver
  {
    hide Parse, NoWrap;
    BlocksParseBack(seq(300, _ => 0), seq(194, _ => 0), 7, rest);
  }

  lemma ParseEnds(buf: seq<byte>, idx: nat, acc: Parsed)
    requires idx >= TOTAL_LENGTH && TOTAL_LENGTH + 6 <= |buf|
    ensures Parse(buf, idx, acc) == acc && NoWrap(buf, idx)
  {
  }

  /** The station's address as the driver finds it in the header. */
  function AddressOf(img: seq<byte>): (a: seq<byte>)
    requires |img| >= 12
    ensures |a| == 6
  {
    [img[11], img[10], img[6], img[5], img[4], img[3]]
  }

  lemma HeaderAddress(mac: seq<byte>, rest: seq<byte>)
    requires |mac| == 6
    ensures AddressOf(Header(mac) + rest) == mac
    ensures forall k :: 12 <= k < PRE_PARAMETERS ==> (Header(mac) + rest)[k] == 0
  {
    var h := Header(mac);
    assert forall k :: 0 <= k < |h| ==> (h + rest)[k] == h[k];
  }

  // ----- any number of recalibrations ---------------------------------------------------

  datatype Calibration = Calibration(mac: seq<byte>, tx: seq<byte>, ver: nat)

  /** The transmit data fills the space the receive data leaves. */
  predicate Fills(c: Calibration, rx: seq<byte>) {
    |c.mac| == 6 && |c.tx| + |rx| == RADIO_START - PRE_PARAMETERS - 16
  }

  lemma RecalibrationKeeps(img: seq<byte>, c: Calibration)
    requires Sound(img) && Fills(c, RxOf(img))
    ensures var new' := Recalibrated(img, c.mac, c.tx, c.ver);
            && |new'| == |img| && Sound(new')
            && RxOf(new') == RxOf(img) && Radio(new') == Radio(img)
            && Parse(new'[PRE_PARAMETERS..], 0, NOTHING) == Exact(c.tx, RxOf(img), c.ver)
            && AddressOf(new') == c.mac
  {
    hide Parse, NoWrap, Header;
    var rx := RxOf(img);
    var new' := Recalibrated(img, c.mac, c.tx, c.ver);
    BlocksParseBack(c.tx, rx, c.ver, Radio(img));
    assert new'[PRE_PARAMETERS..] == Blocks(c.tx, rx, c.ver) + Radio(img);
    assert new'[RADIO_START..] == Radio(img);
    HeaderAddress(c.mac, Blocks(c.tx, rx, c.ver) + Radio(img));
    assert new' == Header(c.mac) + (Blocks(c.tx, rx, c.ver) + Radio(img));
  }

  /** Recalibration keeps the file size exactly when the transmit data fills the space the
      receive data leaves; otherwise the next one refuses the file, unless it has grown or
      shrunk by the difference of the two sizes. */
  lemma SizeKeptIff(img: seq<byte>, c: Calibration)
    requires Sound(img) && |c.mac| == 6 && |c.tx| <= TOTAL_LENGTH
    ensures var new' := Recalibrated(img, c.mac, c.tx, c.ver);
            var d := FILE_SIZE_128X - FILE_SIZE_127X;
            && (|new'| == |img| <==> Fills(c, RxOf(img)))
            && (FileSize(|new'|) <==>
                || Fills(c, RxOf(img))
                || |c.tx| + |RxOf(img)| ==
                   RADIO_START - PRE_PARAMETERS - 16 + (if |img| == FILE_SIZE_127X then d else 0 - d))
  {
    hide Parse, NoWrap, Header, Blocks, RxOf, Sound;
    SoundSize(img);
  }

  lemma SoundSize(img: seq<byte>)
    requires Sound(img)
    ensures FileSize(|img|)
  {
  }

  function RecalibratedAll(img: seq<byte>, cs: seq<Calibration>): seq<byte>
    requires Sound(img) && forall k :: 0 <= k < |cs| ==> Fills(cs[k], RxOf(img))
    decreases |cs|
  {
    if cs == [] then img else
    RecalibrationKeeps(img, cs[0]);
    RecalibratedAll(Recalibrated(img, cs[0].mac, cs[0].tx, cs[0].ver), cs[1..])
  }

  /** However often a file is recalibrated, its receive data and radio parameters
      stay what they were, and the last transmit data, version and address are in it. */
  lemma {:induction false} RecalibrationsKeep(img: seq<byte>, cs: seq<Calibration>)
    requires Sound(img) && forall k :: 0 <= k < |cs| ==> Fills(cs[k], RxOf(img))
    ensures var last := RecalibratedAll(img, cs);
            && |last| == |img| && Sound(last)
            && RxOf(last) == RxOf(img) && Radio(last) == Radio(img)
            && (cs != [] ==>
                  && Parse(last[PRE_PARAMETERS..], 0, NOTHING)
                     == Exact(cs[|cs| - 1].tx, RxOf(img), cs[|cs| - 1].ver)
                  && AddressOf(last) == cs[|cs| - 1].mac)
    decreases |cs|
  {
    hide Parse, NoWrap, Recalibrated;
    if cs != [] {
      RecalibrationKeeps(img, cs[0]);
      RecalibrationsKeep(Recalibrated(img, cs[0].mac, cs[0].tx, cs[0].ver), cs[1..]);
      if |cs| == 1 {
        assert cs[1..] == [];
      }
    }
  }
}
