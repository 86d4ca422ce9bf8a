/** Reading and setting values in a configuration file, and saving it again. */
module WlconfSave {
  import opened Util
  import opened Words
  import opened LittleEndian
  import opened WlconfLayout
  import opened WlconfOwners
  import opened WlconfCrc

  /** A refused access, an access past the end of the buffer, or the outcome. */
  datatype Access<T> = Rejected | Overrun | Done(value: T) {
    predicate IsFailure() {
      !Done?
    }

    function PropagateFailure<U>(): Access<U>
      requires IsFailure()
    {
      if Rejected? then Rejected else Overrun
    }

    function Extract(): T
      requires !IsFailure()
    {
      value
    }
  }

  // ----- bytes -----------------------------------------------------------------------------

  function Read(buf: seq<byte>, pos: nat, n: nat): nat
    requires pos + n <= |buf|
  {
    Number(buf[pos..pos + n])
  }

  function Write(buf: seq<byte>, pos: nat, n: nat, v: nat): (r: seq<byte>)
    requires pos + n <= |buf|
    ensures |r| == |buf|
    ensures forall i :: 0 <= i < |buf| && !(pos <= i < pos + n) ==> r[i] == buf[i]
  {
    buf[..pos] + Digits(v, n) + buf[pos + n..]
  }

  lemma {:induction false} ReadWrite(buf: seq<byte>, pos: nat, n: nat, v: nat)
    requires pos + n <= |buf|
    ensures Read(Write(buf, pos, n, v), pos, n) == v % Range(n)
    ensures Write(buf, pos, n, v)[pos..pos + n] == Digits(v, n)
  {
    assert Write(buf, pos, n, v)[pos..pos + n] == Digits(v, n);
    NumberDigits(v, n);
  }

  lemma {:induction false} WriteApart(buf: seq<byte>, pos: nat, n: nat, v: nat, p: nat, m: nat)
    requires pos + n <= |buf| && p + m <= |buf| && Apart(pos, n, p, m)
    ensures Write(buf, pos, n, v)[p..p + m] == buf[p..p + m]
  {
  }

  lemma {:induction false} WriteTwice(buf: seq<byte>, pos: nat, n: nat, v: nat, w: nat)
    requires pos + n <= |buf|
    ensures Write(Write(buf, pos, n, v), pos, n, w) == Write(buf, pos, n, w)
  {
  }

  lemma {:induction false} WriteCommutes(buf: seq<byte>, pos: nat, n: nat, v: nat, p: nat, m: nat, w: nat)
    requires pos + n <= |buf| && p + m <= |buf| && Apart(pos, n, p, m)
    ensures Write(Write(buf, pos, n, v), p, m, w) == Write(Write(buf, p, m, w), pos, n, v)
  {
    var a, b := Write(buf, pos, n, v), Write(buf, p, m, w);
    var l, r := Write(a, p, m, w), Write(b, pos, n, v);
    forall i | 0 <= i < |buf| ensures l[i] == r[i] {
      if pos <= i < pos + n {
        assert l[i] == a[i] == Digits(v, n)[i - pos] == r[i];
      } else if p <= i < p + m {
        assert r[i] == b[i] == Digits(w, m)[i - p] == l[i];
      }
    }
  }

  /** Writing back what was read changes nothing. */
  lemma {:induction false} WriteRead(buf: seq<byte>, pos: nat, n: nat)
    requires pos + n <= |buf|
    ensures Write(buf, pos, n, Read(buf, pos, n)) == buf
  {
    DigitsNumber(buf[pos..pos + n]);
  }

  // ----- set_value, get_value_int, set_value_int --------------------------------------------

  function SetValue(db: Table, root: nat, buf: seq<byte>, path: seq<Name>, v: nat): (r: Access<seq<byte>>)
    requires WellFormed(db) && root < |db| && path != []
    ensures r.Done? ==> |r.value| == |buf|
  {
    match Resolve(db, root, path)
    case None => Rejected
    case Some(f) =>
      if f.e.arraySize > 1 || f.e.typ >= STRUCT_BASE then Rejected else
      ResolveSound(db, root, path);
      var n := TYPE_SIZES[f.e.typ];
      if f.pos + n > |buf| then Overrun else Done(Write(buf, f.pos, n, v))
  }

  /** The type of a number: u32 or __le32. */
  predicate Integer(typ: int) {
    typ == 0 || typ == 6
  }

  function GetInt(db: Table, root: nat, buf: seq<byte>, path: seq<Name>): Access<nat>
    requires WellFormed(db) && root < |db| && path != []
  {
    match Resolve(db, root, path)
    case None => Rejected
    case Some(f) =>
      if !Integer(f.e.typ) then Rejected else
      ResolveSound(db, root, path);
      if f.pos + 4 > |buf| then Overrun else Done(Read(buf, f.pos, 4))
  }

  function SetInt(db: Table, root: nat, buf: seq<byte>, path: seq<Name>, v: nat): (r: Access<seq<byte>>)
    requires WellFormed(db) && root < |db| && path != []
    ensures r.Done? ==> |r.value| == |buf|
  {
    match Resolve(db, root, path)
    case None => Rejected
    case Some(f) =>
      if !Integer(f.e.typ) then Rejected else
      ResolveSound(db, root, path);
      if f.pos + 4 > |buf| then Overrun else Done(Write(buf, f.pos, 4, v))
  }

  /** The names of the types that hold a number. */
  lemma {:induction false} IntegerNames(typ: int)
    ensures Integer(typ) <==> 0 <= typ < |TYPE_NAMES| && (TYPE_NAMES[typ] == "u32" || TYPE_NAMES[typ] == "__le32")
  {
    if 0 <= typ < |TYPE_NAMES| {
      var s := TYPE_NAMES[typ];
      assert s == "u32" <==> |s| == 3 && s[0] == 'u' && s[1] == '3' && s[2] == '2';
      assert s == "__le32" <==> |s| == 6 && s[4] == '3' && s == "__le32";
    }
  }

  /** What a number's path must be: an element there is, of type u32 or __le32, with all
      four bytes in the buffer.  Then the number is read and written low byte first. */
  lemma {:induction false} IntAccess(db: Table, root: nat, buf: seq<byte>, path: seq<Name>, v: nat)
    requires WellFormed(db) && root < |db| && path != []
    ensures var got, set' := GetInt(db, root, buf, path), SetInt(db, root, buf, path, v);
            match Resolve(db, root, path)
            case None => got.Rejected? && set'.Rejected?
            case Some(Found(pos, e)) =>
              var number := 0 <= e.typ < |TYPE_NAMES| && (TYPE_NAMES[e.typ] == "u32" || TYPE_NAMES[e.typ] == "__le32");
              && pos >= 0
              && (got.Rejected? <==> !number) && (set'.Rejected? <==> !number)
              && (got.Done? <==> number && pos + 4 <= |buf|) && (set'.Done? <==> number && pos + 4 <= |buf|)
              && (got.Done? ==> got.value == Number(buf[pos..pos + 4])
                                && set'.value == buf[..pos] + Digits(v, 4) + buf[pos + 4..])
  {
    hide WellFormed, Resolve, Integer;
    ResolveSound(db, root, path);
    if Resolve(db, root, path).Some? {
      IntegerNames(Resolve(db, root, path).value.e.typ);
    }
  }

  // ----- read_input and saving ---------------------------------------------------------------

  const HEADER: Name := [104, 101, 97, 100, 101, 114]
  const MAGIC: seq<Name> := [HEADER, [109, 97, 103, 105, 99]]
  const VERSION: seq<Name> := [HEADER, [118, 101, 114, 115, 105, 111, 110]]
  const CHECKSUM: seq<Name> := [HEADER, [99, 104, 101, 99, 107, 115, 117, 109]]

  /** What the tool expects of a file. */
  datatype Expected = Expected(magic: nat, version: nat, ignoreChecksum: bool)

  /** read_input: the buffer, its checksum field cleared. */
  function Load(db: Table, root: nat, x: Expected, file: seq<byte>): (r: Access<seq<byte>>)
    requires WellFormed(db) && root < |db|
    ensures r.Done? ==> |r.value| >= db[root].size
  {
    Laid(db, root);
    var size := db[root].size;
    if |file| < size then Rejected else
    var buf := if size == 0 then file else file[..size];
    var magic :- GetInt(db, root, buf, MAGIC);
    var version :- GetInt(db, root, buf, VERSION);
    var sum :- GetInt(db, root, buf, CHECKSUM);
    var cleared :- SetInt(db, root, buf, CHECKSUM, 0);
    if magic != x.magic || version != x.version then Rejected
    else if !x.ignoreChecksum && Checksum(cleared[..size]) != sum then Rejected
    else Done(cleared)
  }

  /** Setting a value in a loaded buffer and renewing the checksum for writing. */
  function Save(db: Table, root: nat, buf: seq<byte>, path: seq<Name>, v: nat): (r: Access<seq<byte>>)
    requires WellFormed(db) && root < |db| && path != [] && |buf| >= db[root].size
    ensures r.Done? ==> |r.value| == |buf|
  {
    Laid(db, root);
    var changed :- SetValue(db, root, buf, path, v);
    SetInt(db, root, changed, CHECKSUM, Checksum(changed[..db[root].size]))
  }

  /** Setting one value of a file: what is written back. */
  function Updated(db: Table, root: nat, x: Expected, file: seq<byte>, path: seq<Name>, v: nat): Access<seq<byte>>
    requires WellFormed(db) && root < |db| && path != []
  {
    Laid(db, root);
    var buf :- Load(db, root, x, file);
    var saved :- Save(db, root, buf, path, v);
    Done(saved[..db[root].size])
  }

  // ----- set_value ---------------------------------------------------------------------------

  lemma {:induction false} SetIs(db: Table, root: nat, buf: seq<byte>, path: seq<Name>, v: nat)
    requires WellFormed(db) && root < |db| && Leaf(db, root, path)
    ensures SetValue(db, root, buf, path, v) ==
            if ElementOf(db, root, path).arraySize > 1 then Rejected
            else if Start(db, root, path) + Width(db, root, path) > |buf| then Overrun
            else Done(Write(buf, Start(db, root, path), Width(db, root, path), v))
  {
    hide WellFormed, Leaf, Resolve, Write;
    LeafInside(db, root, path);
  }

  /** Setting a scalar: it reads back cut to its width, every other leaf keeps its bytes,
      and setting what is there already changes nothing. */
  lemma {:induction false} SetScalar(db: Table, root: nat, buf: seq<byte>, path: seq<Name>, v: nat, q: seq<Name>)
    requires WellFormed(db) && root < |db| && Scalar(db, root, path) && |buf| == db[root].size
    requires Leaf(db, root, q) && q != path
    ensures var r := SetValue(db, root, buf, path, v);
            var pos, n := Start(db, root, path), Width(db, root, path);
            && r.Done? && |r.value| == |buf| && pos + n <= |buf|
            && Read(r.value, pos, n) == v % Range(n)
            && (v == Read(buf, pos, n) ==> r.value == buf)
            && Start(db, root, q) + Len(db, root, q) <= |buf|
            && r.value[Start(db, root, q)..Start(db, root, q) + Len(db, root, q)]
               == buf[Start(db, root, q)..Start(db, root, q) + Len(db, root, q)]
  {
    hide WellFormed, Leaf, Resolve, SetValue, Read, Write, Start, Width, ElementOf;
    SetIs(db, root, buf, path, v);
    Placed(db, root, path, q);
    Placed(db, root, q, path);
    var pos, n := Start(db, root, path), Width(db, root, path);
    assert Len(db, root, path) == n;
    ReadWrite(buf, pos, n, v);
    WriteRead(buf, pos, n);
    WriteApart(buf, pos, n, v, Start(db, root, q), Len(db, root, q));
  }

  /** The set succeeds and every byte it changes belongs to the element the path names. */
  ghost predicate WritesOwn(db: Table, root: nat, buf: seq<byte>, r: Access<seq<byte>>, path: seq<Name>)
    requires WellFormed(db) && root < |db| && |buf| == db[root].size
  {
    && r.Done? && |r.value| == |buf|
    && forall i :: 0 <= i < |buf| && r.value[i] != buf[i] ==> Owner(db, root, i) == Instance(path)
  }

  /** Whatever path set_value accepts: it changes no byte of another element and stays in the
      buffer, for all buffers and values, if and only if no array on the path is empty. */
  lemma {:induction false} SetStaysInside(db: Table, root: nat, path: seq<Name>)
    requires WellFormed(db) && root < |db| && path != [] && Settable(db, root, path)
    ensures Scalar(db, root, path) <==>
            forall buf: seq<byte>, v: nat :: |buf| == db[root].size ==>
              WritesOwn(db, root, buf, SetValue(db, root, buf, path, v), path)
  {
    hide WellFormed, Leaf, Resolve, SetValue, Write, Owner, Instance, Scalar;
    if Scalar(db, root, path) {
      forall buf: seq<byte>, v: nat | |buf| == db[root].size
        ensures WritesOwn(db, root, buf, SetValue(db, root, buf, path, v), path)
      {
        ScalarWritesOwn(db, root, buf, path, v);
      }
    } else {
      Laid(db, root);
      var buf: seq<byte> := seq(db[root].size, i => 0);
      EmptyWritesOther(db, root, buf, path);
    }
  }

  lemma {:induction false} SettableIs(db: Table, root: nat, buf: seq<byte>, path: seq<Name>, v: nat)
    requires WellFormed(db) && root < |db| && path != [] && Settable(db, root, path)
    ensures var f := Resolve(db, root, path).value;
            && 0 <= f.e.typ < |TYPE_SIZES| && f.pos >= 0
            && SetValue(db, root, buf, path, v) ==
               if f.pos + TYPE_SIZES[f.e.typ] > |buf| then Overrun
               else Done(Write(buf, f.pos, TYPE_SIZES[f.e.typ], v))
  {
    hide WellFormed, Resolve, Write;
    ResolveSound(db, root, path);
  }

  lemma {:induction false} ScalarWritesOwn(db: Table, root: nat, buf: seq<byte>, path: seq<Name>, v: nat)
    requires WellFormed(db) && root < |db| && path != [] && Settable(db, root, path)
    requires Scalar(db, root, path) && |buf| == db[root].size
    ensures WritesOwn(db, root, buf, SetValue(db, root, buf, path, v), path)
  {
    hide WellFormed, Leaf, Resolve, SetValue, Write, Owner, Instance;
    SettableIs(db, root, buf, path, v);
    LeafInside(db, root, path);
    var r := SetValue(db, root, buf, path, v);
    forall i | 0 <= i < |buf| && r.value[i] != buf[i] ensures Owner(db, root, i) == Instance(path) {
      OwnedIff(db, root, path, i);
    }
  }

  lemma {:induction false} EmptyWritesOther(db: Table, root: nat, buf: seq<byte>, path: seq<Name>)
    requires WellFormed(db) && root < |db| && path != [] && Settable(db, root, path)
    requires !Scalar(db, root, path) && |buf| == db[root].size
    requires forall i :: 0 <= i < |buf| ==> buf[i] == 0
    ensures !WritesOwn(db, root, buf, SetValue(db, root, buf, path, 1), path)
  {
    hide WellFormed, Leaf, Resolve, SetValue, Write, Owner, Instance;
    SettableIs(db, root, buf, path, 1);
    var f := Resolve(db, root, path).value;
    var n := TYPE_SIZES[f.e.typ];
    if f.pos + n <= |buf| {
      ReadWrite(buf, f.pos, n, 1);
      var w := Write(buf, f.pos, n, 1);
      assert w[f.pos] == w[f.pos..f.pos + n][0] == Digits(1, n)[0] == 1;
      OwnedIff(db, root, path, f.pos);
    }
  }

  /** Such an array can be set, and the value lands in the element after it. */
  lemma {:induction false} ZeroLengthArray()
    ensures var db := [Structure([114], [Element([97], 2, 0, 0), Element([98], 2, 1, 0)], 1)];
            WellFormed(db) && SetValue(db, 0, [0], [[97]], 5) == Done([5])
  {
    var es := [Element([97], 2, 0, 0), Element([98], 2, 1, 0)];
    var db := [Structure([114], es, 1)];
    assert Offset(db, es, 1) == 0 && Offset(db, es, 2) == 1;
    assert LaidOut(db, 0);
    assert FindElement(es, [97]) == 0;
    DigitsAt(5, 1);
    assert Write([0], 0, 1, 5) == [5];
  }

  /** An element of an array of structures of length zero can be set as well. */
  lemma {:induction false} ZeroLengthStructs()
    ensures var db := [Structure([115], [Element([120], 2, 1, 0)], 1),
                       Structure([114], [Element([97], 1000, 0, 0), Element([98], 2, 1, 0)], 1)];
            && WellFormed(db) && Resolve(db, 1, [[98]]) == Some(Found(0, Element([98], 2, 1, 0)))
            && SetValue(db, 1, [0], [[97], [120]], 5) == Done([5])
  {
    var es := [Element([120], 2, 1, 0)];
    var fs := [Element([97], 1000, 0, 0), Element([98], 2, 1, 0)];
    var db := [Structure([115], es, 1), Structure([114], fs, 1)];
    assert Offset(db, es, 1) == 1;
    assert LaidOut(db, 0);
    assert Offset(db, fs, 1) == 0 && Offset(db, fs, 2) == 1;
    assert LaidOut(db, 1);
    assert FindElement(fs, [97]) == 0 && FindElement(fs, [98]) == 1 && FindElement(es, [120]) == 0;
    assert [[97], [120]][1..] == [[120]];
    assert Resolve(db, 0, [[120]]) == Some(Found(0, es[0]));
    DigitsAt(5, 1);
    assert Write([0], 0, 1, 5) == [5];
  }

  // ----- loading -------------------------------------------------------------------------------

  /** A leaf that holds a 32-bit number. */
  ghost predicate Number32(db: Table, root: nat, path: seq<Name>)
    requires WellFormed(db) && root < |db|
  {
    && Leaf(db, root, path)
    && Integer(ElementOf(db, root, path).typ) && ElementOf(db, root, path).arraySize >= 1
  }

  /** The structure has the three header fields that every file carries. */
  ghost predicate Headed(db: Table, root: nat)
    requires WellFormed(db) && root < |db|
  {
    Number32(db, root, MAGIC) && Number32(db, root, VERSION) && Number32(db, root, CHECKSUM)
  }

  /** Where the three fields lie in a file of a given size. */
  datatype Frame = Frame(size: nat, magic: nat, version: nat, sum: nat)

  ghost predicate Framed(f: Frame) {
    && f.magic + 4 <= f.size && f.version + 4 <= f.size && f.sum + 4 <= f.size
    && Apart(f.magic, 4, f.version, 4) && Apart(f.magic, 4, f.sum, 4) && Apart(f.version, 4, f.sum, 4)
  }

  ghost function FrameOf(db: Table, root: nat): Frame
    requires WellFormed(db) && root < |db| && Headed(db, root)
  {
    assert LaidOut(db, root);
    Frame(db[root].size, Start(db, root, MAGIC), Start(db, root, VERSION), Start(db, root, CHECKSUM))
  }

  lemma {:induction false} NumberFits(db: Table, root: nat, p: seq<Name>, q: seq<Name>)
    requires WellFormed(db) && root < |db| && Number32(db, root, p) && Leaf(db, root, q)
    ensures Start(db, root, p) + 4 <= db[root].size
    ensures p != q ==> Apart(Start(db, root, p), 4, Start(db, root, q), Len(db, root, q))
    ensures Width(db, root, p) == 4 <= Len(db, root, p)
  {
    hide WellFormed, Leaf, Resolve, Start;
    LeafInside(db, root, p);
    Placed(db, root, p, q);
    MulLe(1, ElementOf(db, root, p).arraySize, 4);
  }

  lemma {:induction false} Paths()
    ensures MAGIC != VERSION && MAGIC != CHECKSUM && VERSION != CHECKSUM
  {
    assert |MAGIC[1]| == 5 && |VERSION[1]| == 7 && |CHECKSUM[1]| == 8;
  }

  lemma {:induction false} FrameFits(db: Table, root: nat)
    requires WellFormed(db) && root < |db| && Headed(db, root)
    ensures Framed(FrameOf(db, root))
  {
    hide WellFormed, Number32, Leaf, Start, Len, Width;
    Paths();
    assert Leaf(db, root, MAGIC) && Leaf(db, root, VERSION) && Leaf(db, root, CHECKSUM) by {
      NumberLeaf(db, root, MAGIC);
      NumberLeaf(db, root, VERSION);
      NumberLeaf(db, root, CHECKSUM);
    }
    NumberFits(db, root, MAGIC, VERSION);
    NumberFits(db, root, MAGIC, CHECKSUM);
    NumberFits(db, root, VERSION, CHECKSUM);
    NumberFits(db, root, VERSION, MAGIC);
    NumberFits(db, root, CHECKSUM, MAGIC);
    NumberFits(db, root, CHECKSUM, VERSION);
  }

  lemma {:induction false} NumberLeaf(db: Table, root: nat, p: seq<Name>)
    requires WellFormed(db) && root < |db| && Number32(db, root, p)
    ensures Leaf(db, root, p)
  {
  }

  /** Loading, by position. */
  ghost function LoadAt(f: Frame, x: Expected, file: seq<byte>): Access<seq<byte>>
    requires Framed(f)
  {
    if |file| < f.size then Rejected else
    var buf := file[..f.size];
    var cleared := Write(buf, f.sum, 4, 0);
    if Read(buf, f.magic, 4) != x.magic || Read(buf, f.version, 4) != x.version then Rejected
    else if !x.ignoreChecksum && Checksum(cleared) != Read(buf, f.sum, 4) then Rejected
    else Done(cleared)
  }

  lemma {:induction false} IntAt(db: Table, root: nat, buf: seq<byte>, p: seq<Name>, v: nat)
    requires WellFormed(db) && root < |db| && Number32(db, root, p) && |buf| == db[root].size
    ensures p != [] && Start(db, root, p) + 4 <= |buf|
    ensures GetInt(db, root, buf, p) == Done(Read(buf, Start(db, root, p), 4))
    ensures SetInt(db, root, buf, p, v) == Done(Write(buf, Start(db, root, p), 4, v))
  {
    hide WellFormed, Leaf, Resolve, Read, Write;
    LeafInside(db, root, p);
    NumberFits(db, root, p, p);
  }

  /** On a structure with the header fields loading goes by their positions. */
  lemma {:induction false} LoadIs(db: Table, root: nat, x: Expected, file: seq<byte>)
    requires WellFormed(db) && root < |db| && Headed(db, root)
    ensures Framed(FrameOf(db, root))
    ensures Load(db, root, x, file) == LoadAt(FrameOf(db, root), x, file)
  {
    hide WellFormed, Number32, Start, GetInt, SetInt, Read, Write, Checksum;
    FrameFits(db, root);
    NumberLeaf(db, root, MAGIC);
    NumberLeaf(db, root, VERSION);
    NumberLeaf(db, root, CHECKSUM);
    if |file| >= db[root].size {
      var buf := file[..db[root].size];
      IntAt(db, root, buf, MAGIC, 0);
      IntAt(db, root, buf, VERSION, 0);
      IntAt(db, root, buf, CHECKSUM, 0);
      var cleared := SetInt(db, root, buf, CHECKSUM, 0).value;
      assert cleared[..db[root].size] == cleared;
    }
  }

  /** The tool's own table: the file starts with a header of three __le32 fields. */
  predicate Wlcore(db: Table, root: nat, h: nat, le32: nat)
    requires root < |db|
  {
    && h < |db| && le32 < |TYPE_NAMES| && TYPE_NAMES[le32] == "__le32"
    && db[root].elements != [] && db[root].elements[0] == Element(HEADER, STRUCT_BASE + h, 1, 0)
    && db[h].elements == [Element(MAGIC[1], le32, 1, 0), Element(VERSION[1], le32, 1, 4), Element(CHECKSUM[1], le32, 1, 8)]
  }

  lemma {:induction false} HeaderField(db: Table, root: nat, h: nat, le32: nat, path: seq<Name>, j: nat)
    requires WellFormed(db) && root < |db| && Wlcore(db, root, h, le32) && j < 3
    requires |path| == 2 && path[0] == HEADER && path[1] == db[h].elements[j].name
    ensures Number32(db, root, path) && Start(db, root, path) == 4 * j
  {
    hide Packed, Extent, Offset;
    var es := db[h].elements;
    assert FindElement(db[root].elements, HEADER) == 0;
    assert LaidOut(db, root) && LaidOut(db, h);
    assert FindElement(es, path[1]) == j;
    assert path[1..] == [path[1]];
    assert Resolve(db, h, path[1..]) == Some(Found(4 * j, es[j])) && Leaf(db, h, path[1..]);
    assert Leaf(db, root, path) && Resolve(db, root, path) == Some(Found(4 * j, es[j]));
    IntegerNames(le32);
  }

  /** A file of the tool's own structure is accepted exactly if it is long enough, starts with
      the magic number and the version, low byte first, and its third word is the checksum of
      the file with that word cleared, unless the checksum is to be ignored. */
  lemma {:induction false} HeaderLoads(db: Table, root: nat, h: nat, le32: nat, x: Expected, file: seq<byte>)
    requires WellFormed(db) && root < |db| && Wlcore(db, root, h, le32)
    ensures var size := db[root].size;
            && 12 <= size
            && (Load(db, root, x, file).Done? <==>
                && size <= |file| && Number(file[0..4]) == x.magic && Number(file[4..8]) == x.version
                && (x.ignoreChecksum || Checksum(file[..8] + [0, 0, 0, 0] + file[12..size]) == Number(file[8..12])))
  {
    hide WellFormed, Number32, Start, Load, Wlcore, Checksum;
    WlcoreFields(db, root, h, le32);
    var f, size := FrameOf(db, root), db[root].size;
    LoadIs(db, root, x, file);
    if size <= |file| {
      ClearedWord(file, size);
      assert file[..size][0..4] == file[0..4] && file[..size][4..8] == file[4..8] && file[..size][8..12] == file[8..12];
    }
  }

  lemma {:induction false} WlcoreFields(db: Table, root: nat, h: nat, le32: nat)
    requires WellFormed(db) && root < |db| && Wlcore(db, root, h, le32)
    ensures Headed(db, root)
    ensures Start(db, root, MAGIC) == 0 && Start(db, root, VERSION) == 4 && Start(db, root, CHECKSUM) == 8
  {
    hide WellFormed, Number32, Start;
    HeaderField(db, root, h, le32, MAGIC, 0);
    HeaderField(db, root, h, le32, VERSION, 1);
    HeaderField(db, root, h, le32, CHECKSUM, 2);
  }

  lemma {:induction false} ClearedWord(file: seq<byte>, size: nat)
    requires 12 <= size <= |file|
    ensures Write(file[..size], 8, 4, 0) == file[..8] + [0, 0, 0, 0] + file[12..size]
  {
    DigitsAt(0, 4);
  }

  // ----- saving -----------------------------------------------------------------------------

  /** A saved file: the value put in, then the checksum over everything else. */
  ghost function SaveAt(f: Frame, buf: seq<byte>, pos: nat, n: nat, v: nat): seq<byte>
    requires Framed(f) && |buf| == f.size && pos + n <= |buf|
  {
    var changed := Write(buf, pos, n, v);
    Write(changed, f.sum, 4, Checksum(changed))
  }

  lemma {:induction false} SaveIs(db: Table, root: nat, buf: seq<byte>, path: seq<Name>, v: nat)
    requires WellFormed(db) && root < |db| && Headed(db, root) && Scalar(db, root, path)
    requires |buf| == db[root].size && path != []
    ensures Framed(FrameOf(db, root)) && Start(db, root, path) + Width(db, root, path) <= |buf|
    ensures Save(db, root, buf, path, v)
         == Done(SaveAt(FrameOf(db, root), buf, Start(db, root, path), Width(db, root, path), v))
  {
    hide WellFormed, Number32, Start, Width, SetInt, SetValue, Write, Checksum;
    FrameFits(db, root);
    Placed(db, root, path, path);
    SetIs(db, root, buf, path, v);
    var changed := Write(buf, Start(db, root, path), Width(db, root, path), v);
    IntAt(db, root, changed, CHECKSUM, Checksum(changed));
    assert changed[..db[root].size] == changed;
  }

  /** What loading a saved file gives, when the value lies apart from the checksum. */
  lemma {:induction false} SaveLoadAt(f: Frame, x: Expected, y: Expected, file: seq<byte>, pos: nat, n: nat, v: nat)
    requires Framed(f) && LoadAt(f, x, file).Done?
    requires pos + n <= f.size && Apart(pos, n, f.sum, 4)
    ensures var buf := LoadAt(f, x, file).value;
            var out := SaveAt(f, buf, pos, n, v);
            && |out| == f.size
            && Read(out, pos, n) == v % Range(n)
            && (forall i :: 0 <= i < f.size && !(pos <= i < pos + n) && !(f.sum <= i < f.sum + 4)
                  ==> out[i] == file[i])
            && (LoadAt(f, y, out).Done? <==>
                Read(out, f.magic, 4) == y.magic && Read(out, f.version, 4) == y.version)
            && (LoadAt(f, y, out).Done? ==> LoadAt(f, y, out).value == Write(buf, pos, n, v))
  {
    hide Checksum, Read, Digits;
    RangeIs();
    var whole := file[..f.size];
    var buf := Write(whole, f.sum, 4, 0);
    var changed := Write(buf, pos, n, v);
    var out := SaveAt(f, buf, pos, n, v);
    ReadWrite(buf, pos, n, v);
    WriteApart(changed, f.sum, 4, Checksum(changed), pos, n);
    assert Read(out, pos, n) == Read(changed, pos, n) by {
      SameRead(out, changed, pos, n);
    }
    ReadWrite(changed, f.sum, 4, Checksum(changed));
    ChecksumSame(changed, changed);
    assert Write(out, f.sum, 4, 0) == changed by {
      WriteTwice(changed, f.sum, 4, Checksum(changed), 0);
      WriteCommutes(buf, pos, n, v, f.sum, 4, 0);
      WriteTwice(whole, f.sum, 4, 0, 0);
    }
    assert out[..f.size] == out;
  }

  lemma {:induction false} SameRead(a: seq<byte>, b: seq<byte>, pos: nat, n: nat)
    requires pos + n <= |a| == |b| && a[pos..pos + n] == b[pos..pos + n]
    ensures Read(a, pos, n) == Read(b, pos, n)
  {
  }

  /** The file with one scalar set and saved: every byte but the scalar's and the checksum's
      is as before, the scalar reads back cut to its width, and the file is accepted again,
      with or without its checksum being looked at and however it was accepted before, unless
      the magic number or the version was set to something else. */
  lemma {:induction false} SaveLoad(db: Table, root: nat, x: Expected, lax: bool, file: seq<byte>,
                                    path: seq<Name>, v: nat)
    requires WellFormed(db) && root < |db| && Headed(db, root)
    requires Load(db, root, x, file).Done?
    requires path != [] && path != CHECKSUM && Scalar(db, root, path)
    ensures |file| >= db[root].size == |Load(db, root, x, file).value|
    ensures var saved := Save(db, root, Load(db, root, x, file).value, path, v);
            var pos, n, sum := Start(db, root, path), Width(db, root, path), Start(db, root, CHECKSUM);
            && saved.Done? && |saved.value| == db[root].size && pos + n <= db[root].size
            && Read(saved.value, pos, n) == v % Range(n)
            && (forall i :: 0 <= i < db[root].size && !(pos <= i < pos + n) && !(sum <= i < sum + 4)
                  ==> saved.value[i] == file[i])
            && (Load(db, root, x.(ignoreChecksum := lax), saved.value).Done? <==>
                (path == MAGIC ==> v % U32 == x.magic) && (path == VERSION ==> v % U32 == x.version))
  {
    hide WellFormed, Number32, Load, Save, Start, Len, Width, ElementOf, LoadAt, SaveAt, Read;
    var f := FrameOf(db, root);
    var pos, n := Start(db, root, path), Width(db, root, path);
    LoadIs(db, root, x, file);
    Loaded(f, x, file);
    SaveIs(db, root, LoadAt(f, x, file).value, path, v);
    var out := SaveAt(f, LoadAt(f, x, file).value, pos, n, v);
    ScalarLen(db, root, path);
    NumberFits(db, root, CHECKSUM, path);
    SaveLoadAt(f, x, x.(ignoreChecksum := lax), file, pos, n, v);
    LoadIs(db, root, x.(ignoreChecksum := lax), out);
    FieldKept(db, root, MAGIC, path, file, out, v);
    FieldKept(db, root, VERSION, path, file, out, v);
    Paths();
  }

  lemma {:induction false} ScalarLen(db: Table, root: nat, path: seq<Name>)
    requires WellFormed(db) && root < |db| && Scalar(db, root, path)
    ensures Leaf(db, root, path) && Len(db, root, path) == Width(db, root, path)
  {
  }

  lemma {:induction false} Loaded(f: Frame, x: Expected, file: seq<byte>)
    requires Framed(f) && LoadAt(f, x, file).Done?
    ensures |file| >= f.size == |LoadAt(f, x, file).value|
    ensures Read(file, f.magic, 4) == x.magic && Read(file, f.version, 4) == x.version
  {
    hide Checksum, Read, Write;
    ReadFront(file, f.size, f.magic, 4);
    ReadFront(file, f.size, f.version, 4);
  }

  lemma {:induction false} ReadFront(file: seq<byte>, size: nat, pos: nat, n: nat)
    requires pos + n <= size <= |file|
    ensures Read(file[..size], pos, n) == Read(file, pos, n)
  {
    assert file[..size][pos..pos + n] == file[pos..pos + n];
  }

  /** A header field keeps its value unless it is the element that was set. */
  lemma {:induction false} FieldKept(db: Table, root: nat, field: seq<Name>, path: seq<Name>, file: seq<byte>,
                                     out: seq<byte>, v: nat)
    requires WellFormed(db) && root < |db| && Number32(db, root, field) && Scalar(db, root, path)
    requires Number32(db, root, CHECKSUM) && field != CHECKSUM
    requires |file| >= |out| == db[root].size
    requires var pos, n, sum := Start(db, root, path), Width(db, root, path), Start(db, root, CHECKSUM);
             && pos + n <= |out| && Read(out, pos, n) == v % Range(n)
             && forall i :: 0 <= i < |out| && !(pos <= i < pos + n) && !(sum <= i < sum + 4) ==> out[i] == file[i]
    ensures Start(db, root, field) + 4 <= |out|
    ensures Read(out, Start(db, root, field), 4)
         == if field == path then v % U32 else Read(file, Start(db, root, field), 4)
  {
    hide WellFormed, Leaf, Start, Len, Width, ElementOf, Resolve;
    NumberLeaf(db, root, CHECKSUM);
    NumberFits(db, root, field, path);
    NumberFits(db, root, field, CHECKSUM);
    NumberFits(db, root, CHECKSUM, field);
    ScalarLen(db, root, path);
    RangeIs();
    var k := Start(db, root, field);
    if field != path {
      assert out[k..k + 4] == file[k..k + 4];
    }
  }

  // ----- what the checksum catches --------------------------------------------------------------

  /** Setting the checksum field itself: the saved file passes the checksum exactly for the
      sixteen values the checksum cannot tell from zero. */
  lemma {:induction false} SaveChecksum(db: Table, root: nat, x: Expected, file: seq<byte>, v: nat)
    requires WellFormed(db) && root < |db| && Headed(db, root)
    requires Load(db, root, x, file).Done? && Scalar(db, root, CHECKSUM)
    ensures |Load(db, root, x, file).value| == db[root].size
    ensures var saved := Save(db, root, Load(db, root, x, file).value, CHECKSUM, v);
            && saved.Done?
            && (Load(db, root, x.(ignoreChecksum := false), saved.value).Done? <==> Digits(v, 4) in LOST_BYTES)
  {
    hide WellFormed, Number32, Load, Save, Start, Width, ElementOf, LoadAt, SaveAt, Turn, Word;
    var y := x.(ignoreChecksum := false);
    LostIff(Digits(v, 4));
    var f := FrameOf(db, root);
    LoadIs(db, root, x, file);
    Loaded(f, x, file);
    NumberLeaf(db, root, CHECKSUM);
    NumberFits(db, root, CHECKSUM, CHECKSUM);
    SaveIs(db, root, LoadAt(f, x, file).value, CHECKSUM, v);
    LoadIs(db, root, y, SaveAt(f, LoadAt(f, x, file).value, f.sum, 4, v));
    SaveChecksumAt(f, x, file, v);
  }

  /** ... so that a file saved with the checksum set to 1 is refused, and one with it set to
      0x76dc4194 is not. */
  lemma {:induction false} SaveChecksumOne(db: Table, root: nat, x: Expected, file: seq<byte>)
    requires WellFormed(db) && root < |db| && Headed(db, root) && !x.ignoreChecksum
    requires Load(db, root, x, file).Done? && Scalar(db, root, CHECKSUM)
    ensures |Load(db, root, x, file).value| == db[root].size
    ensures var buf := Load(db, root, x, file).value;
            var refused, taken := Save(db, root, buf, CHECKSUM, 1), Save(db, root, buf, CHECKSUM, 0x76dc4194);
            && refused.Done? && !Load(db, root, x, refused.value).Done?
            && taken.Done? && Load(db, root, x, taken.value).Done?
  {
    hide WellFormed, Headed, Scalar, Load, Save;
    SaveChecksum(db, root, x, file, 1);
    SaveChecksum(db, root, x, file, 0x76dc4194);
    OneOfEach();
  }

  lemma {:induction false} OneOfEach()
    ensures Digits(1, 4) !in LOST_BYTES && Digits(0x76dc4194, 4) in LOST_BYTES
  {
    hide Digits;
    DigitsAt(1, 4);
    StartsWithOne(Digits(1, 4));
    DigitsAt(0x76dc4194, 4);
    assert Digits(0x76dc4194, 4) == [0x94, 0x41, 0xdc, 0x76] == LOST_BYTES[7];
  }

  lemma {:induction false} StartsWithOne(x: seq<byte>)
    requires |x| == 4 && x[0] == 1
    ensures x !in LOST_BYTES
  {
  }

  lemma {:induction false} SaveChecksumAt(f: Frame, x: Expected, file: seq<byte>, v: nat)
    requires Framed(f) && LoadAt(f, x, file).Done?
    ensures var out := SaveAt(f, LoadAt(f, x, file).value, f.sum, 4, v);
            LoadAt(f, x.(ignoreChecksum := false), out).Done? <==> Turn(Word(Digits(v, 4))) == ZERO
  {
    hide Checksum, Read, Write, Turn, Word;
    var whole := file[..f.size];
    var buf := Write(whole, f.sum, 4, 0);
    WriteTwice(whole, f.sum, 4, 0, v);
    var changed := Write(whole, f.sum, 4, v);
    WriteTwice(whole, f.sum, 4, v, Checksum(changed));
    ChecksumSame(changed, buf);
    SumFields(f, whole, Checksum(changed));
    ZeroIff(whole, f.sum, v);
  }

  /** A file whose checksum field alone is overwritten. */
  lemma {:induction false} SumFields(f: Frame, whole: seq<byte>, sum: nat)
    requires Framed(f) && |whole| == f.size && sum < U32
    ensures var out := Write(whole, f.sum, 4, sum);
            && out[..f.size] == out
            && Read(out, f.magic, 4) == Read(whole, f.magic, 4)
            && Read(out, f.version, 4) == Read(whole, f.version, 4)
            && Read(out, f.sum, 4) == sum
            && Write(out, f.sum, 4, 0) == Write(whole, f.sum, 4, 0)
  {
    hide Read, Write;
    RangeIs();
    var out := Write(whole, f.sum, 4, sum);
    WriteApart(whole, f.sum, 4, sum, f.magic, 4);
    WriteApart(whole, f.sum, 4, sum, f.version, 4);
    SameRead(out, whole, f.magic, 4);
    SameRead(out, whole, f.version, 4);
    ReadWrite(whole, f.sum, 4, sum);
    WriteTwice(whole, f.sum, 4, sum, 0);
  }

  lemma {:induction false} ZeroIff(whole: seq<byte>, sum: nat, v: nat)
    requires sum + 4 <= |whole|
    ensures Checksum(Write(whole, sum, 4, v)) == Checksum(Write(whole, sum, 4, 0)) <==>
            Turn(Word(Digits(v, 4))) == ZERO
  {
    hide Digits, Turn, Word, Plus;
    ChecksumSame(Write(whole, sum, 4, v), Write(whole, sum, 4, 0));
    hide Checksum, Crc;
    FourBytes(whole[..sum], Digits(0, 4), Digits(v, 4), whole[sum + 4..]);
    NoWord();
    PlusNone(Word(Digits(v, 4)));
  }

  lemma {:induction false} NoWord()
    ensures Word(Digits(0, 4)) == ZERO
  {
    assert Digits(0, 4) == [0, 0, 0, 0];
    assert Wide(0) == ZERO;
  }

  /** Any single byte of an accepted file changed: the file is refused. */
  lemma {:induction false} OneByteRefused(db: Table, root: nat, x: Expected, file: seq<byte>, i: nat, y: byte)
    requires WellFormed(db) && root < |db| && Headed(db, root) && !x.ignoreChecksum
    requires Load(db, root, x, file).Done?
    requires i < db[root].size && i < |file| && y != file[i]
    ensures Load(db, root, x, file[i := y]) == Rejected
  {
    hide WellFormed, Headed, Load, FrameOf, LoadAt;
    var f := FrameOf(db, root);
    LoadIs(db, root, x, file);
    LoadIs(db, root, x, file[i := y]);
    assert f.size == db[root].size by {
      FrameSize(db, root);
    }
    OneByteAt(f, x, file, i, y);
  }

  lemma {:induction false} FrameSize(db: Table, root: nat)
    requires WellFormed(db) && root < |db| && Headed(db, root)
    ensures FrameOf(db, root).size == db[root].size
  {
  }

  lemma {:induction false} OneByteAt(f: Frame, x: Expected, file: seq<byte>, i: nat, y: byte)
    requires Framed(f) && !x.ignoreChecksum && LoadAt(f, x, file).Done?
    requires i < f.size && i < |file| && y != file[i]
    ensures LoadAt(f, x, file[i := y]) == Rejected
  {
    hide Checksum, Read, Write;
    var a, b := file[..f.size], file[i := y][..f.size];
    var p, q := Write(a, f.sum, 4, 0), Write(b, f.sum, 4, 0);
    assert b == a[i := y];
    if f.sum <= i < f.sum + 4 {
      ClearedOver(a, i, y, f.sum);
      assert a[f.sum..f.sum + 4][i - f.sum] != b[f.sum..f.sum + 4][i - f.sum];
      ReadApart(a, b, f.sum, 4);
    } else {
      assert a[f.sum..f.sum + 4] == b[f.sum..f.sum + 4];
      SameRead(a, b, f.sum, 4);
      ClearedPoke(a, i, y, f.sum);
      OneByte(p[..i], p[i], y, p[i + 1..]);
      ChecksumSame(p, q);
    }
  }

  lemma {:induction false} ClearedOver(a: seq<byte>, i: nat, y: byte, sum: nat)
    requires sum <= i < sum + 4 <= |a|
    ensures Write(a[i := y], sum, 4, 0) == Write(a, sum, 4, 0)
  {
  }

  lemma {:induction false} ClearedPoke(a: seq<byte>, i: nat, y: byte, sum: nat)
    requires i < |a| && sum + 4 <= |a| && !(sum <= i < sum + 4)
    ensures var p := Write(a, sum, 4, 0);
            && p[i] == a[i] && p == p[..i] + [p[i]] + p[i + 1..]
            && Write(a[i := y], sum, 4, 0) == p[..i] + [y] + p[i + 1..]
  {
    hide Digits;
    var p, q := Write(a, sum, 4, 0), Write(a[i := y], sum, 4, 0);
    forall j | 0 <= j < |a| ensures q[j] == p[i := y][j] {
      if sum <= j < sum + 4 {
        assert q[j] == Digits(0, 4)[j - sum] == p[j];
      }
    }
    assert q == p[i := y];
  }

  lemma {:induction false} ReadApart(a: seq<byte>, b: seq<byte>, pos: nat, n: nat)
    requires pos + n <= |a| == |b| && a[pos..pos + n] != b[pos..pos + n]
    ensures Read(a, pos, n) != Read(b, pos, n)
  {
    DigitsNumber(a[pos..pos + n]);
    DigitsNumber(b[pos..pos + n]);
  }

  /** Four bytes of an accepted file changed, away from the header fields: exactly when the
      file is still accepted. */
  lemma {:induction false} FourBytesRefused(db: Table, root: nat, x: Expected, file: seq<byte>, i: nat, y: seq<byte>)
    requires WellFormed(db) && root < |db| && Headed(db, root) && !x.ignoreChecksum
    requires Load(db, root, x, file).Done? && |y| == 4 && i + 4 <= db[root].size && i + 4 <= |file|
    requires Apart(i, 4, Start(db, root, MAGIC), 4) && Apart(i, 4, Start(db, root, VERSION), 4)
    requires Apart(i, 4, Start(db, root, CHECKSUM), 4)
    ensures Load(db, root, x, file[..i] + y + file[i + 4..]).Done? <==>
            Lost(Plus(Word(file[i..i + 4]), Word(y)))
  {
    hide WellFormed, Load, LoadAt, Turn, Word, Start, Number32;
    LoadIs(db, root, x, file);
    LoadIs(db, root, x, file[..i] + y + file[i + 4..]);
    FourBytesAt(FrameOf(db, root), x, file, i, y);
    KernelIs(Plus(Word(file[i..i + 4]), Word(y)));
  }

  lemma {:induction false} FourBytesAt(f: Frame, x: Expected, file: seq<byte>, i: nat, y: seq<byte>)
    requires Framed(f) && !x.ignoreChecksum && LoadAt(f, x, file).Done?
    requires |y| == 4 && i + 4 <= f.size && i + 4 <= |file|
    requires Apart(i, 4, f.magic, 4) && Apart(i, 4, f.version, 4) && Apart(i, 4, f.sum, 4)
    ensures LoadAt(f, x, file[..i] + y + file[i + 4..]).Done? <==>
            Turn(Plus(Word(file[i..i + 4]), Word(y))) == ZERO
  {
    hide Checksum, Read, Write, Turn, Word, Plus;
    var file' := file[..i] + y + file[i + 4..];
    var a, b := file[..f.size], file'[..f.size];
    var p, q := Write(a, f.sum, 4, 0), Write(b, f.sum, 4, 0);
    assert b == a[..i] + y + a[i + 4..];
    Spliced(a, i, y, f.sum);
    Spliced(a, i, y, f.magic);
    Spliced(a, i, y, f.version);
    SameRead(a, b, f.sum, 4);
    SameRead(a, b, f.magic, 4);
    SameRead(a, b, f.version, 4);
    ClearedSplice(a, i, y, f.sum);
    assert file[i..i + 4] == a[i..i + 4];
    FourBytes(p[..i], file[i..i + 4], y, p[i + 4..]);
    ChecksumSame(p, q);
  }

  lemma {:induction false} ClearedSplice(a: seq<byte>, i: nat, y: seq<byte>, sum: nat)
    requires |y| == 4 && i + 4 <= |a| && sum + 4 <= |a| && Apart(i, 4, sum, 4)
    ensures var p := Write(a, sum, 4, 0);
            && p == p[..i] + a[i..i + 4] + p[i + 4..]
            && Write(a[..i] + y + a[i + 4..], sum, 4, 0) == p[..i] + y + p[i + 4..]
  {
    hide Digits;
    var b := a[..i] + y + a[i + 4..];
    var p, q := Write(a, sum, 4, 0), Write(b, sum, 4, 0);
    WriteApart(a, sum, 4, 0, i, 4);
    assert p[i..i + 4] == a[i..i + 4];
    var r := p[..i] + y + p[i + 4..];
    forall j | 0 <= j < |a| ensures q[j] == r[j] {
      if sum <= j < sum + 4 {
        assert q[j] == Digits(0, 4)[j - sum] == p[j];
      }
    }
  }

  lemma {:induction false} Spliced(a: seq<byte>, i: nat, y: seq<byte>, pos: nat)
    requires |y| == 4 && i + 4 <= |a| && pos + 4 <= |a| && Apart(i, 4, pos, 4)
    ensures (a[..i] + y + a[i + 4..])[pos..pos + 4] == a[pos..pos + 4]
  {
    var b := a[..i] + y + a[i + 4..];
    var l, r := b[pos..pos + 4], a[pos..pos + 4];
    forall j | 0 <= j < 4 ensures l[j] == r[j] {
      assert b[pos + j] == a[pos + j];
    }
  }

  // ----- in place --------------------------------------------------------------------------------

  /** set_data, and the store of set_value_int. */
  method SetData(buf: array<byte>, pos: nat, n: nat, v: nat)
    requires (n == 1 || n == 2 || n == 4) && pos + n <= buf.Length
    modifies buf
    ensures buf[..] == Write(old(buf[..]), pos, n, v)
  {
    ghost var before := buf[..];
    buf[pos] := v % 256;
    if n >= 2 {
      buf[pos + 1] := v / 256 % 256;
    }
    if n == 4 {
      buf[pos + 2] := v / 256 / 256 % 256;
      buf[pos + 3] := v / 256 / 256 / 256 % 256;
    }
    DigitsAt(v, n);
    assert buf[..] == Write(before, pos, n, v);
  }

  lemma {:induction false} DigitsAt(v: nat, n: nat)
    requires n == 1 || n == 2 || n == 4
    ensures Digits(v, n)[0] == v % 256
    ensures n >= 2 ==> Digits(v, n)[1] == v / 256 % 256
    ensures n == 4 ==> Digits(v, n)[2] == v / 256 / 256 % 256 && Digits(v, n)[3] == v / 256 / 256 / 256 % 256
  {
    var d := Digits(v, n);
    if n >= 2 {
      assert d[1] == Digits(v / 256, n - 1)[0];
    }
    if n == 4 {
      assert d[2] == Digits(v / 256, 3)[1] == Digits(v / 256 / 256, 2)[0];
      assert d[3] == Digits(v / 256, 3)[2] == Digits(v / 256 / 256, 2)[1] == Digits(v / 256 / 256 / 256, 1)[0];
    }
  }

  /** set_value. */
  method SetValueIn(db: Table, root: nat, buf: array<byte>, path: seq<Name>, v: nat) returns (ok: bool)
    requires WellFormed(db) && root < |db| && path != []
    requires SetValue(db, root, buf[..], path, v) != Overrun
    modifies buf
    ensures ok <==> old(SetValue(db, root, buf[..], path, v)).Done?
    ensures buf[..] == if ok then old(SetValue(db, root, buf[..], path, v)).value else old(buf[..])
  {
    hide WellFormed, Resolve, Write;
    var found := GetElementPos(db, root, path);
    ResolveSound(db, root, path);
    if found.None? || found.value.e.arraySize > 1 || found.value.e.typ >= STRUCT_BASE {
      return false;
    }
    SetData(buf, found.value.pos, TYPE_SIZES[found.value.e.typ], v);
    return true;
  }

  /** get_value_int. */
  method GetValueInt(db: Table, root: nat, buf: array<byte>, path: seq<Name>) returns (r: Access<nat>)
    requires WellFormed(db) && root < |db| && path != []
    requires GetInt(db, root, buf[..], path) != Overrun
    ensures r == GetInt(db, root, buf[..], path)
  {
    hide WellFormed, Resolve;
    var found := GetElementPos(db, root, path);
    ResolveSound(db, root, path);
    if found.None? || !Integer(found.value.e.typ) {
      return Rejected;
    }
    var p := found.value.pos;
    r := Done(buf[p] as int + 256 * buf[p + 1] as int + 65536 * buf[p + 2] as int + 16777216 * buf[p + 3] as int);
    NumberFour(buf[..][p..p + 4]);
  }

  lemma {:induction false} NumberFour(bs: seq<byte>)
    requires |bs| == 4
    ensures Number(bs) == bs[0] as int + 256 * bs[1] as int + 65536 * bs[2] as int + 16777216 * bs[3] as int
  {
    var a, b, c := bs[1..], bs[2..], bs[3..];
    assert a[1..] == b && b[1..] == c && c[1..] == [];
    assert Number(c) == bs[3] as int;
    assert Number(b) == bs[2] as int + 256 * Number(c);
    assert Number(a) == bs[1] as int + 256 * Number(b);
  }

  /** set_value_int. */
  method SetValueInt(db: Table, root: nat, buf: array<byte>, path: seq<Name>, v: nat) returns (ok: bool)
    requires WellFormed(db) && root < |db| && path != []
    requires SetInt(db, root, buf[..], path, v) != Overrun
    modifies buf
    ensures ok <==> old(SetInt(db, root, buf[..], path, v)).Done?
    ensures buf[..] == if ok then old(SetInt(db, root, buf[..], path, v)).value else old(buf[..])
  {
    hide WellFormed, Resolve, Write;
    var found := GetElementPos(db, root, path);
    ResolveSound(db, root, path);
    if found.None? || !Integer(found.value.e.typ) {
      return false;
    }
    SetData(buf, found.value.pos, 4, v);
    return true;
  }

  /** read_input. */
  method ReadInput(db: Table, root: nat, x: Expected, file: seq<byte>) returns (ok: bool, buf: array<byte>)
    requires WellFormed(db) && root < |db| && Load(db, root, x, file) != Overrun
    ensures fresh(buf)
    ensures ok <==> Load(db, root, x, file).Done?
    ensures ok ==> buf[..] == Load(db, root, x, file).value
  {
    hide WellFormed, LaidOut, GetInt, SetInt, Checksum;
    Laid(db, root);
    Sized(db, root);
    var size := db[root].size;
    if |file| < size {
      return false, new byte[0];
    }
    var length := if size == 0 then |file| else size;
    buf := new byte[length](i requires 0 <= i < length => file[i]);
    assert buf[..] == if size == 0 then file else file[..size];
    var magic := GetValueInt(db, root, buf, MAGIC);
    if !magic.Done? {
      return false, buf;
    }
    var version := GetValueInt(db, root, buf, VERSION);
    if !version.Done? {
      return false, buf;
    }
    var sum := GetValueInt(db, root, buf, CHECKSUM);
    if !sum.Done? {
      return false, buf;
    }
    ok := SetValueInt(db, root, buf, CHECKSUM, 0);
    if !ok {
      return;
    }
    var crc := CalcCrc(buf[..][..size]);
    ok := magic.value == x.magic && version.value == x.version && (x.ignoreChecksum || crc == sum.value);
  }

  lemma {:induction false} Sized(db: Table, k: nat)
    requires k < |db| && LaidOut(db, k)
    ensures db[k].size >= 0
  {
  }

  method CalcCrc(bs: seq<byte>) returns (crc: nat)
    ensures crc == Checksum(bs)
  {
    var c := CalcCrc32(bs);
    crc := c.bits as int;
  }

  /** Setting one value of a file: read_input, set_value, the new checksum, write_file. */
  method SetCommand(db: Table, root: nat, x: Expected, file: seq<byte>, path: seq<Name>, v: nat)
      returns (out: Option<seq<byte>>)
    requires WellFormed(db) && root < |db| && path != [] && Updated(db, root, x, file, path, v) != Overrun
    ensures out.Some? <==> Updated(db, root, x, file, path, v).Done?
    ensures out.Some? ==> out.value == Updated(db, root, x, file, path, v).value
  {
    hide WellFormed, LaidOut, Load, SetValue, SetInt, Checksum;
    Laid(db, root);
    Sized(db, root);
    var ok, buf := ReadInput(db, root, x, file);
    if !ok {
      return None;
    }
    ok := SetValueIn(db, root, buf, path, v);
    if !ok {
      return None;
    }
    var crc := CalcCrc(buf[..][..db[root].size]);
    ok := SetValueInt(db, root, buf, CHECKSUM, crc);
    if !ok {
      return None;
    }
    return Some(buf[..][..db[root].size]);
  }

  /** Setting a scalar of a file with a header stays within the buffer. */
  lemma {:induction false} UpdatedScalar(db: Table, root: nat, x: Expected, file: seq<byte>, path: seq<Name>, v: nat)
    requires WellFormed(db) && root < |db| && Headed(db, root) && path != [] && Scalar(db, root, path)
    ensures Updated(db, root, x, file, path, v) ==
            if Load(db, root, x, file).Done? then Save(db, root, Load(db, root, x, file).value, path, v)
            else Rejected
  {
    hide WellFormed, Number32, Load, LoadAt, Save, SaveAt, Start, Width, ElementOf;
    LoadIs(db, root, x, file);
    NotOverrun(FrameOf(db, root), x, file);
    if Load(db, root, x, file).Done? {
      Loaded(FrameOf(db, root), x, file);
      var buf := Load(db, root, x, file).value;
      SaveIs(db, root, buf, path, v);
      var saved := Save(db, root, buf, path, v).value;
      assert saved[..db[root].size] == saved;
    }
  }

  lemma {:induction false} NotOverrun(f: Frame, x: Expected, file: seq<byte>)
    requires Framed(f)
    ensures LoadAt(f, x, file) != Overrun
  {
  }

  /** Setting a scalar with one call of the tool and reading the file with the next. */
  method SetThenRead(db: Table, root: nat, x: Expected, file: seq<byte>, path: seq<Name>, v: nat)
      returns (out: seq<byte>, again: bool)
    requires WellFormed(db) && root < |db| && Headed(db, root) && Load(db, root, x, file).Done?
    requires path != [] && path != CHECKSUM && Scalar(db, root, path)
    ensures |out| == db[root].size && Start(db, root, path) + Width(db, root, path) <= |out|
    ensures Read(out, Start(db, root, path), Width(db, root, path)) == v % Range(Width(db, root, path))
    ensures again <==> (path == MAGIC ==> v % U32 == x.magic) && (path == VERSION ==> v % U32 == x.version)
  {
    hide WellFormed, Headed, Load, Save, Updated, Scalar, Start, Width, Read;
    UpdatedScalar(db, root, x, file, path, v);
    SaveLoad(db, root, x, false, file, path, v);
    var r := SetCommand(db, root, x, file, path, v);
    out := r.value;
    var strict := x.(ignoreChecksum := false);
    HeadedLoads(db, root, strict, out);
    var buf;
    again, buf := ReadInput(db, root, strict, out);
  }

  lemma {:induction false} HeadedLoads(db: Table, root: nat, x: Expected, file: seq<byte>)
    requires WellFormed(db) && root < |db| && Headed(db, root)
    ensures Load(db, root, x, file) != Overrun
  {
    hide WellFormed, Headed, Load, LoadAt, FrameOf;
    LoadIs(db, root, x, file);
    NotOverrun(FrameOf(db, root), x, file);
  }
}
