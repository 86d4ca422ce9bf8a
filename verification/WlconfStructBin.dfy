/** The structure table on disk: writing it out and reading it back. */
module WlconfStructBin {
  import opened Util
  import opened Words
  import opened LittleEndian
  import opened WlconfLayout

  /** What struct.bin holds. */
  datatype Meta = Meta(magic: int, version: int, checksum: int, structures: Table)

  const HALF: int := 0x8000_0000

  predicate Int32(v: int) {
    -HALF <= v < HALF
  }

  // ----- writing -----------------------------------------------------------------------------

  function PutInt(v: int): (r: seq<byte>)
    ensures |r| == 4
  {
    Digits(v % U32, 4)
  }

  function PutName(n: Name): seq<byte> {
    PutInt(|n|) + n
  }

  function PutElement(e: Element): seq<byte> {
    PutName(e.name) + PutInt(e.typ) + PutInt(e.arraySize) + PutInt(e.position)
  }

  function PutElements(es: seq<Element>): seq<byte> {
    if es == [] then [] else PutElement(es[0]) + PutElements(es[1..])
  }

  function PutStruct(s: Structure): seq<byte> {
    PutName(s.name) + PutInt(|s.elements|) + PutInt(s.size) + PutElements(s.elements)
  }

  function PutStructs(db: Table): seq<byte> {
    if db == [] then [] else PutStruct(db[0]) + PutStructs(db[1..])
  }

  function PutMeta(m: Meta): seq<byte> {
    PutInt(m.magic) + PutInt(m.version) + PutInt(m.checksum) + PutInt(|m.structures|) + PutStructs(m.structures)
  }

  // ----- reading -----------------------------------------------------------------------------

  /** A value read, and the bytes that follow it. */
  datatype Got<T> = Short | Got(value: T, rest: seq<byte>) {
    predicate IsFailure() {
      Short?
    }

    function PropagateFailure<U>(): Got<U>
      requires IsFailure()
    {
      Short
    }

    function Extract(): (T, seq<byte>)
      requires !IsFailure()
    {
      (value, rest)
    }
  }

  function Signed(n: nat): int {
    if n < HALF then n else n - U32
  }

  function GetInt(bs: seq<byte>): Got<int> {
    if |bs| < 4 then Short else Got(Signed(Number(bs[..4])), bs[4..])
  }

  /** A C string ends at its first zero byte. */
  function CString(bs: seq<byte>): Name {
    if bs == [] || bs[0] == 0 then [] else [bs[0]] + CString(bs[1..])
  }

  function GetName(bs: seq<byte>): Got<Name> {
    var (n, rest) :- GetInt(bs);
    if n < 0 || n > |rest| then Short else Got(CString(rest[..n]), rest[n..])
  }

  function GetElement(bs: seq<byte>): Got<Element> {
    var (name, r1) :- GetName(bs);
    var (typ, r2) :- GetInt(r1);
    var (arraySize, r3) :- GetInt(r2);
    var (position, r4) :- GetInt(r3);
    Got(Element(name, typ, arraySize, Unsigned(position)), r4)
  }

  /** A 32-bit number as a size_t. */
  function Unsigned(n: int): int {
    if n < 0 then n + U32 * U32 else n
  }

  function GetElements(n: nat, bs: seq<byte>): Got<seq<Element>> {
    if n == 0 then Got([], bs) else
    var (e, r) :- GetElement(bs);
    var (es, r') :- GetElements(n - 1, r);
    Got([e] + es, r')
  }

  function GetStruct(bs: seq<byte>): Got<Structure> {
    var (name, r1) :- GetName(bs);
    var (n, r2) :- GetInt(r1);
    var (size, r3) :- GetInt(r2);
    if n < 0 then Short else
    var (es, r4) :- GetElements(n, r3);
    Got(Structure(name, es, Unsigned(size)), r4)
  }

  function GetStructs(n: nat, bs: seq<byte>): Got<Table> {
    if n == 0 then Got([], bs) else
    var (s, r) :- GetStruct(bs);
    var (db, r') :- GetStructs(n - 1, r);
    Got([s] + db, r')
  }

  function GetMeta(bs: seq<byte>): Got<Meta> {
    var (magic, r1) :- GetInt(bs);
    var (version, r2) :- GetInt(r1);
    var (checksum, r3) :- GetInt(r2);
    var (n, r4) :- GetInt(r3);
    if n < 0 then Short else
    var (db, r5) :- GetStructs(n, r4);
    Got(Meta(magic, version, checksum, db), r5)
  }

  // ----- what survives -------------------------------------------------------------------------

  predicate NameFits(n: Name) {
    |n| < HALF && 0 !in n
  }

  /** A size_t that survives as a 32-bit number. */
  predicate SizeFits(v: int) {
    0 <= v < HALF || U32 * U32 - HALF <= v < U32 * U32
  }

  predicate ElementFits(e: Element) {
    NameFits(e.name) && Int32(e.typ) && Int32(e.arraySize) && SizeFits(e.position)
  }

  predicate ElementsFit(es: seq<Element>) {
    forall e :: e in es ==> ElementFits(e)
  }

  predicate StructFits(s: Structure) {
    NameFits(s.name) && SizeFits(s.size) && |s.elements| < HALF && ElementsFit(s.elements)
  }

  predicate MetaFits(m: Meta) {
    && Int32(m.magic) && Int32(m.version) && Int32(m.checksum)
    && |m.structures| < HALF && forall s :: s in m.structures ==> StructFits(s)
  }

  /** The number that a 32-bit field holds in place of v. */
  function Wrap(v: int): (r: int)
    ensures r == v <==> Int32(v)
    ensures Unsigned(r) == v <==> SizeFits(v)
  {
    Signed(v % U32)
  }

  lemma IntBack(v: int, rest: seq<byte>)
    ensures GetInt(PutInt(v) + rest) == Got(Wrap(v), rest)
  {
    var bs := PutInt(v) + rest;
    assert bs[..4] == PutInt(v) && bs[4..] == rest;
    NumberDigits(v % U32, 4);
    RangeIs();
    assert v % U32 % U32 == v % U32;
  }

  lemma {:induction false} CStringSame(n: seq<byte>)
    ensures CString(n) == n <==> 0 !in n
    ensures |CString(n)| <= |n|
  {
    if n != [] {
      CStringSame(n[1..]);
      assert n == [n[0]] + n[1..];
      if n[0] != 0 {
        assert CString(n)[1..] == CString(n[1..]);
      }
    }
  }

  /** A name comes back, with what follows it, exactly when it fits. */
  lemma NameBack(n: Name, rest: seq<byte>)
    ensures NameFits(n) ==> GetName(PutName(n) + rest) == Got(n, rest)
    ensures GetName(PutName(n) + rest).Got? && GetName(PutName(n) + rest).value == n ==> NameFits(n)
  {
    hide GetInt, PutInt, Wrap;
    assert PutName(n) + rest == PutInt(|n|) + (n + rest);
    IntBack(|n|, n + rest);
    var m := Wrap(|n|);
    assert (n + rest)[..|n|] == n && (n + rest)[|n|..] == rest;
    CStringSame(n);
    if 0 <= m <= |n + rest| && m != |n| {
      CStringSame((n + rest)[..m]);
      SmallWrap(|n|);
    }
  }

  lemma SmallWrap(n: nat)
    requires Wrap(n) != n
    ensures Wrap(n) < n
  {
  }

  lemma ElementBack(e: Element, rest: seq<byte>)
    ensures ElementFits(e) ==> GetElement(PutElement(e) + rest) == Got(e, rest)
    ensures GetElement(PutElement(e) + rest).Got? && GetElement(PutElement(e) + rest).value == e ==> ElementFits(e)
  {
    hide GetName, PutName, GetInt, PutInt, Wrap, Unsigned, NameFits;
    var a, b, c := PutInt(e.typ), PutInt(e.arraySize), PutInt(e.position);
    assert PutElement(e) + rest == PutName(e.name) + (a + (b + (c + rest)));
    NameBack(e.name, a + (b + (c + rest)));
    if NameFits(e.name) {
      IntBack(e.typ, b + (c + rest));
      IntBack(e.arraySize, c + rest);
      IntBack(e.position, rest);
    }
  }

  lemma {:induction false} ElementsBack(es: seq<Element>, rest: seq<byte>)
    ensures ElementsFit(es) ==> GetElements(|es|, PutElements(es) + rest) == Got(es, rest)
    ensures GetElements(|es|, PutElements(es) + rest).Got? && GetElements(|es|, PutElements(es) + rest).value == es
            ==> ElementsFit(es)
    decreases |es|
  {
    hide GetElement, PutElement, ElementFits;
    if es == [] {
      assert PutElements(es) + rest == rest;
    } else {
      var tail := PutElements(es[1..]) + rest;
      assert PutElements(es) + rest == PutElement(es[0]) + tail;
      assert es == [es[0]] + es[1..];
      ElementBack(es[0], tail);
      ElementsBack(es[1..], rest);
      var g := GetElements(|es|, PutElements(es) + rest);
      if g.Got? && g.value == es {
        var h := GetElement(PutElement(es[0]) + tail);
        assert h.value == g.value[0];
        assert GetElements(|es| - 1, h.rest).value == g.value[1..];
      }
    }
  }

  lemma StructBack(s: Structure, rest: seq<byte>)
    ensures StructFits(s) ==> GetStruct(PutStruct(s) + rest) == Got(s, rest)
    ensures GetStruct(PutStruct(s) + rest).Got? && GetStruct(PutStruct(s) + rest).value == s ==> StructFits(s)
  {
    hide GetName, PutName, GetInt, PutInt, Wrap, Unsigned, NameFits, PutElements, GetElements, ElementsFit;
    var a, b, c := PutInt(|s.elements|), PutInt(s.size), PutElements(s.elements);
    assert PutStruct(s) + rest == PutName(s.name) + (a + (b + (c + rest)));
    NameBack(s.name, a + (b + (c + rest)));
    if NameFits(s.name) {
      IntBack(|s.elements|, b + (c + rest));
      IntBack(s.size, c + rest);
      ElementsBack(s.elements, rest);
      if Wrap(|s.elements|) >= 0 {
        Counted(Wrap(|s.elements|), c + rest);
      }
    }
  }

  lemma {:induction false} Counted(n: nat, bs: seq<byte>)
    ensures GetElements(n, bs).Got? ==> |GetElements(n, bs).value| == n
  {
    hide GetElement;
    if n > 0 && GetElement(bs).Got? {
      Counted(n - 1, GetElement(bs).rest);
    }
  }

  lemma {:induction false} StructsBack(db: Table, rest: seq<byte>)
    ensures (forall s :: s in db ==> StructFits(s)) ==> GetStructs(|db|, PutStructs(db) + rest) == Got(db, rest)
    ensures GetStructs(|db|, PutStructs(db) + rest).Got? && GetStructs(|db|, PutStructs(db) + rest).value == db
            ==> forall s :: s in db ==> StructFits(s)
    decreases |db|
  {
    hide GetStruct, PutStruct, StructFits;
    if db == [] {
      assert PutStructs(db) + rest == rest;
    } else {
      var tail := PutStructs(db[1..]) + rest;
      assert PutStructs(db) + rest == PutStruct(db[0]) + tail;
      assert db == [db[0]] + db[1..];
      StructBack(db[0], tail);
      StructsBack(db[1..], rest);
      var g := GetStructs(|db|, PutStructs(db) + rest);
      if g.Got? && g.value == db {
        var h := GetStruct(PutStruct(db[0]) + tail);
        assert h.value == g.value[0];
        assert GetStructs(|db| - 1, h.rest).value == g.value[1..];
      }
    }
  }

  lemma {:induction false} CountedStructs(n: nat, bs: seq<byte>)
    ensures GetStructs(n, bs).Got? ==> |GetStructs(n, bs).value| == n
  {
    hide GetStruct;
    if n > 0 && GetStruct(bs).Got? {
      CountedStructs(n - 1, GetStruct(bs).rest);
    }
  }

  /** Reading struct.bin gives back what was written, and leaves exactly what follows,
      if and only if every field fits. */
  lemma RoundTrip(m: Meta, rest: seq<byte>)
    ensures MetaFits(m) <==> GetMeta(PutMeta(m) + rest) == Got(m, rest)
  {
    hide GetInt, PutInt, Wrap, PutStructs, GetStructs, StructFits;
    var a, b, c, d := PutInt(m.magic), PutInt(m.version), PutInt(m.checksum), PutInt(|m.structures|);
    var e := PutStructs(m.structures);
    assert PutMeta(m) + rest == a + (b + (c + (d + (e + rest))));
    IntBack(m.magic, b + (c + (d + (e + rest))));
    IntBack(m.version, c + (d + (e + rest)));
    IntBack(m.checksum, d + (e + rest));
    IntBack(|m.structures|, e + rest);
    StructsBack(m.structures, rest);
    if Wrap(|m.structures|) >= 0 {
      CountedStructs(Wrap(|m.structures|), e + rest);
    }
  }

  // ----- where everything lies -----------------------------------------------------------------

  /** Four bytes at `at` hold v, low byte first. */
  predicate Holds(bs: seq<byte>, at: nat, v: int) {
    at + 4 <= |bs| && forall k :: 0 <= k < 4 ==> bs[at + k] == v % U32 / Range(k) % 256
  }

  /** The length of a name, then the name. */
  predicate NameAt(bs: seq<byte>, at: nat, n: Name) {
    Holds(bs, at, |n|) && at + 4 + |n| <= |bs| && bs[at + 4..at + 4 + |n|] == n
  }

  /** An element: its name, its type, its array size, its position. */
  predicate ElementAt(bs: seq<byte>, at: nat, e: Element) {
    && NameAt(bs, at, e.name)
    && Holds(bs, at + 4 + |e.name|, e.typ) && Holds(bs, at + 8 + |e.name|, e.arraySize)
    && Holds(bs, at + 12 + |e.name|, e.position)
  }

  /** What comes before the elements of a structure: its name, their number, its size. */
  predicate StructAt(bs: seq<byte>, at: nat, s: Structure) {
    && NameAt(bs, at, s.name)
    && Holds(bs, at + 4 + |s.name|, |s.elements|) && Holds(bs, at + 8 + |s.name|, s.size)
  }

  lemma {:induction false} DigitAt(v: nat, n: nat, k: nat)
    requires k < n
    ensures Digits(v, n)[k] == v / Range(k) % 256
  {
    if k > 0 {
      DigitAt(v / 256, n - 1, k - 1);
      DivTwice(v, Range(k - 1));
    } else {
      assert v / 1 == v;
    }
  }

  lemma DivTwice(v: nat, m: nat)
    requires m >= 1
    ensures v / 256 / m == v / (256 * m)
  {
    var q, r := v / 256 / m, v / 256 % m;
    MulAssoc(256, m, q);
    DivUnique(v, 256 * m, q, 256 * r + v % 256);
  }

  lemma PutHolds(pre: seq<byte>, v: int, post: seq<byte>)
    ensures Holds(pre + PutInt(v) + post, |pre|, v)
  {
    var bs := pre + PutInt(v) + post;
    forall k | 0 <= k < 4 ensures bs[|pre| + k] == v % U32 / Range(k) % 256 {
      DigitAt(v % U32, 4, k);
      assert bs[|pre| + k] == PutInt(v)[k];
    }
  }

  lemma ElementLayout(pre: seq<byte>, e: Element, post: seq<byte>)
    ensures |PutElement(e)| == 16 + |e.name| && ElementAt(pre + PutElement(e) + post, |pre|, e)
  {
    hide PutInt, Holds;
    var a, t, z, p := PutInt(|e.name|), PutInt(e.typ), PutInt(e.arraySize), PutInt(e.position);
    var bs := pre + PutElement(e) + post;
    assert bs == pre + a + (e.name + t + z + p + post);
    PutHolds(pre, |e.name|, e.name + t + z + p + post);
    assert bs == (pre + a + e.name) + t + (z + p + post);
    PutHolds(pre + a + e.name, e.typ, z + p + post);
    assert bs == (pre + a + e.name + t) + z + (p + post);
    PutHolds(pre + a + e.name + t, e.arraySize, p + post);
    assert bs == (pre + a + e.name + t + z) + p + post;
    PutHolds(pre + a + e.name + t + z, e.position, post);
  }

  /** Bytes before element j of a structure's list. */
  function ElementsBefore(es: seq<Element>, j: nat): nat
    requires j <= |es|
  {
    if j == 0 then 0 else ElementsBefore(es, j - 1) + 16 + |es[j - 1].name|
  }

  /** Bytes of a structure: the length of its name, the name, two numbers, its elements. */
  function StructSize(s: Structure): nat {
    12 + |s.name| + ElementsBefore(s.elements, |s.elements|)
  }

  function StructsBefore(db: Table, i: nat): nat
    requires i <= |db|
  {
    if i == 0 then 0 else StructsBefore(db, i - 1) + StructSize(db[i - 1])
  }

  lemma {:induction false} BeforeTail(es: seq<Element>, j: nat)
    requires 0 < j <= |es|
    ensures ElementsBefore(es, j) == 16 + |es[0].name| + ElementsBefore(es[1..], j - 1)
  {
    if j > 1 {
      BeforeTail(es, j - 1);
      assert es[1..][j - 2] == es[j - 1];
    }
  }

  lemma {:induction false} ElementsLength(es: seq<Element>)
    ensures |PutElements(es)| == ElementsBefore(es, |es|)
    decreases |es|
  {
    hide PutElement;
    if es != [] {
      ElementLayout([], es[0], []);
      BeforeTail(es, |es|);
      ElementsLength(es[1..]);
    }
  }

  /** Elements lie one behind the other. */
  lemma {:induction false} ElementsSplit(es: seq<Element>, j: nat) returns (a: seq<byte>, b: seq<byte>)
    requires j < |es|
    ensures |a| == ElementsBefore(es, j) && PutElements(es) == a + PutElement(es[j]) + b
    decreases |es|
  {
    hide PutElement, ElementAt;
    if j == 0 {
      a, b := [], PutElements(es[1..]);
    } else {
      ElementLayout([], es[0], []);
      BeforeTail(es, j);
      a, b := ElementsSplit(es[1..], j - 1);
      assert PutElements(es) == (PutElement(es[0]) + a) + PutElement(es[j]) + b;
      a := PutElement(es[0]) + a;
    }
  }

  lemma StructLayout(pre: seq<byte>, s: Structure, post: seq<byte>)
    ensures var bs := pre + PutStruct(s) + post;
            && |PutStruct(s)| == StructSize(s) && StructAt(bs, |pre|, s)
            && bs == pre + (PutName(s.name) + PutInt(|s.elements|) + PutInt(s.size)) + PutElements(s.elements) + post
  {
    hide PutInt, Holds, PutElements, ElementsBefore;
    ElementsLength(s.elements);
    var a, c, z, es := PutInt(|s.name|), PutInt(|s.elements|), PutInt(s.size), PutElements(s.elements);
    var bs := pre + PutStruct(s) + post;
    assert bs == pre + a + (s.name + c + z + es + post);
    PutHolds(pre, |s.name|, s.name + c + z + es + post);
    assert bs == (pre + a + s.name) + c + (z + es + post);
    PutHolds(pre + a + s.name, |s.elements|, z + es + post);
    assert bs == (pre + a + s.name + c) + z + (es + post);
    PutHolds(pre + a + s.name + c, s.size, es + post);
  }

  lemma {:induction false} StructsTail(db: Table, i: nat)
    requires 0 < i <= |db|
    ensures StructsBefore(db, i) == StructSize(db[0]) + StructsBefore(db[1..], i - 1)
  {
    hide StructSize;
    if i > 1 {
      StructsTail(db, i - 1);
      assert db[1..][i - 2] == db[i - 1];
    }
  }

  /** So do structures. */
  lemma {:induction false} StructsSplit(db: Table, i: nat) returns (a: seq<byte>, b: seq<byte>)
    requires i < |db|
    ensures |a| == StructsBefore(db, i) && PutStructs(db) == a + PutStruct(db[i]) + b
    decreases |db|
  {
    hide PutStruct, StructSize, StructAt, PutElements;
    if i == 0 {
      a, b := [], PutStructs(db[1..]);
    } else {
      StructLayout([], db[0], []);
      StructsTail(db, i);
      a, b := StructsSplit(db[1..], i - 1);
      assert PutStructs(db) == (PutStruct(db[0]) + a) + PutStruct(db[i]) + b;
      a := PutStruct(db[0]) + a;
    }
  }

  /** The file: four numbers, the structures one behind the other, in each of them its
      elements one behind the other. */
  lemma FileLayout(m: Meta, i: nat, j: nat)
    requires i < |m.structures| && j < |m.structures[i].elements|
    ensures var bs, s := PutMeta(m), m.structures[i];
            var at := 16 + StructsBefore(m.structures, i);
            && Holds(bs, 0, m.magic) && Holds(bs, 4, m.version) && Holds(bs, 8, m.checksum)
            && Holds(bs, 12, |m.structures|)
            && StructAt(bs, at, s)
            && ElementAt(bs, at + 12 + |s.name| + ElementsBefore(s.elements, j), s.elements[j])
  {
    hide PutInt, Holds, StructAt, ElementAt, PutStructs, PutStruct, PutElements, PutElement, StructsBefore,
         ElementsBefore, StructSize;
    var bs, s := PutMeta(m), m.structures[i];
    var head := PutInt(m.magic) + PutInt(m.version) + PutInt(m.checksum) + PutInt(|m.structures|);
    MetaHead(m);
    var a, b := StructsSplit(m.structures, i);
    assert bs == (head + a) + PutStruct(s) + b;
    StructLayout(head + a, s, b);
    var own := PutName(s.name) + PutInt(|s.elements|) + PutInt(s.size);
    var c, d := ElementsSplit(s.elements, j);
    Rejoin(head + a, own, c, PutElement(s.elements[j]), d, b);
    ElementLayout(head + a + own + c, s.elements[j], d + b);
  }

  lemma Rejoin(h: seq<byte>, o: seq<byte>, c: seq<byte>, e: seq<byte>, d: seq<byte>, b: seq<byte>)
    ensures h + o + (c + e + d) + b == (h + o + c) + e + (d + b)
  {
  }

  lemma MetaHead(m: Meta)
    ensures var bs := PutMeta(m);
            && Holds(bs, 0, m.magic) && Holds(bs, 4, m.version) && Holds(bs, 8, m.checksum)
            && Holds(bs, 12, |m.structures|)
  {
    hide PutInt, Holds, PutStructs;
    var a, b, c, d, e := PutInt(m.magic), PutInt(m.version), PutInt(m.checksum), PutInt(|m.structures|),
                         PutStructs(m.structures);
    var bs := PutMeta(m);
    assert bs == [] + a + (b + c + d + e);
    PutHolds([], m.magic, b + c + d + e);
    assert bs == a + b + (c + d + e);
    PutHolds(a, m.version, c + d + e);
    assert bs == (a + b) + c + (d + e);
    PutHolds(a + b, m.checksum, d + e);
    assert bs == (a + b + c) + d + e;
    PutHolds(a + b + c, |m.structures|, e);
  }
}
