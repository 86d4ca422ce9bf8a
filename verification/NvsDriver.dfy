/** The driver's side of the calibration file: probing takes the station's address
    from its header, booting writes the header's bursts to registers and uploads
    the tables behind them.  A file the tool has recalibrated gives back the
    address and the blocks that were written into it. */
module NvsDriver {
  import opened Util
  import opened Words
  import opened LittleEndian
  import opened Nvs

  /** The part of the file that is uploaded; the radio parameters follow it. */
  const SECTION_SIZE: nat := 468

  // ----- probing ------------------------------------------------------------------------

  function Oui(img: seq<byte>): nat
    requires |img| >= 12
  {
    img[11] as int * 65536 + img[10] as int * 256 + img[6] as int
  }

  function Nic(img: seq<byte>): nat
    requires |img| >= 12
  {
    img[5] as int * 65536 + img[4] as int * 256 + img[3] as int
  }

  /** The first of the addresses wl12xx_derive_mac_addresses makes. */
  function Derived(oui: nat, nic: nat): (a: seq<byte>)
    ensures |a| == 6
  {
    [oui / 65536 % 256, oui / 256 % 256, oui % 256, nic / 65536 % 256, nic / 256 % 256, nic % 256]
  }

  /** The address in use: the file's, or the one after the fuse's if that is zero. */
  function Probed(img: seq<byte>, fuseOui: nat, fuseNic: nat): (a: seq<byte>)
    requires |img| >= 12
    ensures |a| == 6
  {
    if Oui(img) == 0 && Nic(img) == 0 then Derived(fuseOui, fuseNic + 1) else Derived(Oui(img), Nic(img))
  }

  lemma ThreeBytes(a: byte, b: byte, c: byte)
    ensures var v := a as int * 65536 + b as int * 256 + c as int;
            v / 65536 % 256 == a && v / 256 % 256 == b && v % 256 == c && (v == 0 ==> a == b == c == 0)
  {
    var v, w := a as int * 65536 + b as int * 256 + c as int, a as int * 256 + b as int;
    DivUnique(v, 65536, a as int, b as int * 256 + c as int);
    DivUnique(v, 256, w, c as int);
    DivUnique(w, 256, a as int, b as int);
  }

  /** A file with an address gives that address. */
  lemma ProbedFile(img: seq<byte>, fuseOui: nat, fuseNic: nat)
    requires |img| >= 12 && AddressOf(img) != [0, 0, 0, 0, 0, 0]
    ensures Probed(img, fuseOui, fuseNic) == AddressOf(img)
  {
    ThreeBytes(img[11], img[10], img[6]);
    ThreeBytes(img[5], img[4], img[3]);
  }

  /** Without one it is the fuse's address plus one. */
  lemma ProbedFuse(img: seq<byte>, fuseOui: nat, fuseNic: nat)
    requires |img| >= 12 && AddressOf(img) == [0, 0, 0, 0, 0, 0]
    ensures var a := Probed(img, fuseOui, fuseNic);
            && a[0] as int * 65536 + a[1] as int * 256 + a[2] as int == fuseOui % 0x1000000
            && a[3] as int * 65536 + a[4] as int * 256 + a[5] as int == (fuseNic + 1) % 0x1000000
  {
    assert img[11] == AddressOf(img)[0] && img[10] == AddressOf(img)[1] && img[6] == AddressOf(img)[2];
    assert img[5] == AddressOf(img)[3] && img[4] == AddressOf(img)[4] && img[3] == AddressOf(img)[5];
    Octets(fuseOui);
    Octets(fuseNic + 1);
  }

  // ----- booting -------------------------------------------------------------------------

  /** One word written to a register. */
  datatype Poke = Poke(addr: nat, value: nat)

  /** The registers written, and the tables uploaded unless the file is malformed. */
  datatype Upload = Upload(pokes: seq<Poke>, tables: Option<seq<byte>>)

  /** The address in use goes back into the file. */
  function WithAddress(img: seq<byte>, a: seq<byte>): (r: seq<byte>)
    requires |img| >= 12 && |a| == 6
    ensures |r| == |img|
  {
    img[11 := a[0]][10 := a[1]][6 := a[2]][5 := a[3]][4 := a[4]][3 := a[5]]
  }

  /** The destination of the burst at `at`: its lowest bit does not count. */
  function Destination(img: seq<byte>, at: nat): nat
    requires at + 2 < |img|
  {
    img[at + 1] as int / 2 * 2 + img[at + 2] as int * 256
  }

  /** The next multiple of four. */
  function Aligned(n: nat): (r: nat)
    ensures r % 4 == 0 && n <= r < n + 4
  {
    (n + 3) / 4 * 4
  }

  /** n words to consecutive registers, up to the first one that reaches the end of the section. */
  function Burst(img: seq<byte>, at: nat, n: nat, addr: nat): seq<Poke>
    requires SECTION_SIZE + 2 <= |img|
    decreases n
  {
    if n == 0 || at + 3 >= SECTION_SIZE then []
    else [Poke(addr, Number(img[at..at + 4]))] + Burst(img, at + 4, n - 1, addr + 4)
  }

  /** The k-th word of a burst: read and written four bytes further each time. */
  predicate IsWord(img: seq<byte>, at: nat, addr: nat, k: nat, p: Poke) {
    var from := at + 4 * k;
    from + 4 <= SECTION_SIZE && from + 4 <= |img| && p == Poke(addr + 4 * k, Number(img[from..from + 4]))
  }

  /** A burst goes word by word until one of them would reach the end of the section. */
  lemma {:induction false} BurstWords(img: seq<byte>, at: nat, n: nat, addr: nat)
    requires SECTION_SIZE + 2 <= |img|
    ensures var b := Burst(img, at, n, addr);
            && |b| <= n && (|b| < n <==> n > 0 && at + 4 * n > SECTION_SIZE)
            && (forall k: nat :: k < |b| ==> IsWord(img, at, addr, k, b[k]))
    decreases n
  {
    hide Number;
    if n > 0 && at + 3 < SECTION_SIZE {
      BurstWords(img, at + 4, n - 1, addr + 4);
      var b, c := Burst(img, at, n, addr), Burst(img, at + 4, n - 1, addr + 4);
      forall k: nat | k < |b| ensures IsWord(img, at, addr, k, b[k]) {
        if k > 0 {
          assert b[k] == c[k - 1] && IsWord(img, at + 4, addr + 4, k - 1, c[k - 1]);
        }
      }
    }
  }

  /** wlcore_boot_upload_nvs from the burst at `at` on. */
  function UploadFrom(img: seq<byte>, at: nat): Upload
    requires SECTION_SIZE + 2 <= |img| && at < SECTION_SIZE
    decreases SECTION_SIZE - at
  {
    if img[at] == 0 then
      var start := Aligned(at + 7);
      Upload([], if start >= SECTION_SIZE then None else Some(img[start..SECTION_SIZE]))
    else
      var n: nat := img[at];
      var pokes, next := Burst(img, at + 3, n, Destination(img, at)), at + 3 + 4 * n;
      if next >= SECTION_SIZE then Upload(pokes, None)
      else var rest := UploadFrom(img, next); Upload(pokes + rest.pokes, rest.tables)
  }

  /** The loop over the words of one burst; stops at one that reaches the end. */
  method WriteBurst(img: seq<byte>, start: nat, n: nat, dest: nat) returns (pokes: seq<Poke>, whole: bool)
    requires SECTION_SIZE + 2 <= |img|
    ensures pokes == Burst(img, start, n, dest)
    ensures whole <==> n == 0 || start + 4 * n <= SECTION_SIZE
  {
    hide Number;
    pokes := [];
    for i := 0 to n
      invariant i > 0 ==> start + 4 * i <= SECTION_SIZE
      invariant Burst(img, start, n, dest) == pokes + Burst(img, start + 4 * i, n - i, dest + 4 * i)
    {
      var at := start + 4 * i;
      if at + 3 >= SECTION_SIZE {
        return pokes, false;
      }
      pokes := pokes + [Poke(dest + 4 * i, Number(img[at..at + 4]))];
    }
    whole := true;
  }

  function After(pokes: seq<Poke>, u: Upload): Upload {
    Upload(pokes + u.pokes, u.tables)
  }

  lemma UploadStep(img: seq<byte>, at: nat, pokes: seq<Poke>)
    requires SECTION_SIZE + 2 <= |img| && at < SECTION_SIZE && img[at] != 0
    ensures var n: nat := img[at];
            var words, next := pokes + Burst(img, at + 3, n, Destination(img, at)), at + 3 + 4 * n;
            After(pokes, UploadFrom(img, at)) ==
            if next >= SECTION_SIZE then Upload(words, None) else After(words, UploadFrom(img, next))
  {
    hide Burst, Destination;
  }

  lemma UploadEnd(img: seq<byte>, at: nat, pokes: seq<Poke>)
    requires SECTION_SIZE + 2 <= |img| && at < SECTION_SIZE && img[at] == 0
    ensures var start := Aligned(at + 7);
            After(pokes, UploadFrom(img, at)) ==
            Upload(pokes, if start >= SECTION_SIZE then None else Some(img[start..SECTION_SIZE]))
  {
  }

  /** wlcore_boot_upload_nvs. */
  method UploadNvs(file: seq<byte>, address: seq<byte>) returns (r: Upload)
    requires SECTION_SIZE + 2 <= |file| && |address| == 6
    ensures r == UploadFrom(WithAddress(file, address), 0)
  {
    hide WithAddress, Destination, Burst, UploadFrom, Aligned;
    var img := WithAddress(file, address);
    var at, pokes := 0, [];
    assert After([], UploadFrom(img, 0)) == UploadFrom(img, 0);
    while img[at] != 0
      invariant at < SECTION_SIZE
      invariant UploadFrom(img, 0) == After(pokes, UploadFrom(img, at))
      decreases SECTION_SIZE - at
    {
      UploadStep(img, at, pokes);
      var n: nat := img[at];
      var words, whole := WriteBurst(img, at + 3, n, Destination(img, at));
      pokes := pokes + words;
      at := at + 3 + 4 * n;
      if !whole || at >= SECTION_SIZE {
        return Upload(pokes, None);
      }
    }
    UploadEnd(img, at, pokes);
    var start := Aligned(at + 7);
    if start >= SECTION_SIZE {
      return Upload(pokes, None);
    }
    r := Upload(pokes, Some(img[start..SECTION_SIZE]));
  }

  /** What is uploaded is never empty, starts at a multiple of four and ends with the section. */
  lemma {:induction false} UploadTables(img: seq<byte>, at: nat)
    requires SECTION_SIZE + 2 <= |img| && at < SECTION_SIZE
    ensures var t := UploadFrom(img, at).tables;
            t.Some? ==> && 0 < |t.value| <= SECTION_SIZE && (SECTION_SIZE - |t.value|) % 4 == 0
                        && t.value == img[SECTION_SIZE - |t.value|..SECTION_SIZE]
    decreases SECTION_SIZE - at
  {
    hide Burst;
    var next := at + 3 + 4 * img[at] as int;
    if img[at] != 0 && next < SECTION_SIZE {
      UploadTables(img, next);
    }
  }

  // ----- the tool's files --------------------------------------------------------------------

  /** A burst of one word. */
  lemma OneWord(img: seq<byte>, at: nat)
    requires SECTION_SIZE + 2 <= |img| && at + 7 < SECTION_SIZE && img[at] == 1
    ensures var rest := UploadFrom(img, at + 7);
            UploadFrom(img, at)
            == Upload([Poke(Destination(img, at), Number(img[at + 3..at + 7]))] + rest.pokes, rest.tables)
  {
    hide Number, Destination;
    assert Burst(img, at + 7, 0, Destination(img, at) + 4) == [];
    assert Burst(img, at + 3, 1, Destination(img, at)) == [Poke(Destination(img, at), Number(img[at + 3..at + 7]))];
  }

  lemma HeaderBytes(mac: seq<byte>, rest: seq<byte>)
    requires |mac| == 6
    ensures var img := Header(mac) + rest;
            && img[0] == 1 == img[7] && img[14] == 0
            && Destination(img, 0) == 0x546c && Destination(img, 7) == 0x5470
            && img[3..7] == [mac[5], mac[4], mac[3], mac[2]] && img[10..14] == [mac[1], mac[0], 0, 0]
  {
    var h, img := Header(mac), Header(mac) + rest;
    assert forall k :: 0 <= k < |h| ==> img[k] == h[k];
    assert img[0] == h[0] && img[1] == h[1] && img[2] == h[2] && img[7] == h[7] && img[8] == h[8] && img[9] == h[9];
    assert img[14] == h[14];
    assert img[3..7] == h[3..7] && img[10..14] == h[10..14];
  }

  /** The tool's header makes the driver write the address, reversed, to two registers, and
      start the upload where the tool's blocks start. */
  lemma HeaderUploads(mac: seq<byte>, rest: seq<byte>)
    requires |mac| == 6 && PRE_PARAMETERS + |rest| >= SECTION_SIZE + 2
    ensures UploadFrom(Header(mac) + rest, 0)
         == Upload([Poke(0x546c, Number([mac[5], mac[4], mac[3], mac[2]])),
                    Poke(0x5470, Number([mac[1], mac[0], 0, 0]))],
                   Some((Header(mac) + rest)[PRE_PARAMETERS..SECTION_SIZE]))
  {
    hide Number, Header, Destination, Burst;
    var img := Header(mac) + rest;
    HeaderBytes(mac, rest);
    OneWord(img, 0);
    OneWord(img, 7);
    assert UploadFrom(img, 14) == Upload([], Some(img[PRE_PARAMETERS..SECTION_SIZE]));
  }

  lemma SameAddress(img: seq<byte>)
    requires |img| >= 12
    ensures WithAddress(img, AddressOf(img)) == img
  {
    var a, r := AddressOf(img), WithAddress(img, AddressOf(img));
    forall k | 0 <= k < |img| ensures r[k] == img[k] {
      if k == 3 || k == 4 || k == 5 || k == 6 || k == 10 || k == 11 {
        assert a[0] == img[11] && a[1] == img[10] && a[2] == img[6] && a[3] == img[5] && a[4] == img[4] && a[5] == img[3];
      }
    }
  }

  /** From recalibration to boot: the driver takes the address the tool was given, writes it
      to the address registers, and uploads the new transmit data, the old receive data and
      the version, exactly as written. */
  lemma RecalibratedBoots(img: seq<byte>, c: Calibration, fuseOui: nat, fuseNic: nat)
    requires Sound(img) && Fills(c, RxOf(img)) && c.mac != [0, 0, 0, 0, 0, 0]
    ensures var f := Recalibrated(img, c.mac, c.tx, c.ver);
            && |f| == |img| && Probed(f, fuseOui, fuseNic) == c.mac
            && UploadFrom(WithAddress(f, c.mac), 0)
               == Upload([Poke(0x546c, Number([c.mac[5], c.mac[4], c.mac[3], c.mac[2]])),
                          Poke(0x5470, Number([c.mac[1], c.mac[0], 0, 0]))],
                         Some(Blocks(c.tx, RxOf(img), c.ver)))
  {
    hide Parse, NoWrap, Number, UploadFrom, Header, Blocks, Probed, WithAddress;
    RecalibrationKeeps(img, c);
    var f, rest := Recalibrated(img, c.mac, c.tx, c.ver), Blocks(c.tx, RxOf(img), c.ver) + Radio(img);
    assert f == Header(c.mac) + rest;
    ProbedFile(f, fuseOui, fuseNic);
    SameAddress(f);
    HeaderUploads(c.mac, rest);
    assert f[PRE_PARAMETERS..SECTION_SIZE] == Blocks(c.tx, RxOf(img), c.ver);
  }
}
