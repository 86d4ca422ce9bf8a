/** The structure table of the configuration utility: how parsing a header lays
    structures out, how a dotted path resolves to a byte offset, and how the
    printing walk visits the elements. */
module WlconfLayout {
  import opened Util
  import opened Words

  type Name = seq<byte>

  const STRUCT_BASE: int := 1000

  /** The built-in types, by number. */
  const TYPE_NAMES: seq<string> := ["u32", "u16", "u8", "s32", "s16", "s8", "__le32", "__le16"]
  const TYPE_SIZES: seq<nat> := [4, 2, 1, 4, 2, 1, 4, 2]

  /** The width in bits that a type's name ends with. */
  function NameBits(name: string): nat {
    if |name| < 2 then 0 else
    var a, b := name[|name| - 2], name[|name| - 1];
    if a == '3' && b == '2' then 32 else if a == '1' && b == '6' then 16 else if b == '8' then 8 else 0
  }

  /** Every type is as wide as its name says. */
  lemma {:induction false} TypeWidths(t: nat)
    requires t < |TYPE_NAMES|
    ensures |TYPE_SIZES| == |TYPE_NAMES| && NameBits(TYPE_NAMES[t]) == 8 * TYPE_SIZES[t]
  {
    assert NameBits("u32") == NameBits("s32") == NameBits("__le32") == 32;
    assert NameBits("u16") == NameBits("s16") == NameBits("__le16") == 16;
    assert NameBits("u8") == NameBits("s8") == 8;
  }

  datatype Element = Element(name: Name, typ: int, arraySize: int, position: int)

  datatype Structure = Structure(name: Name, elements: seq<Element>, size: int)

  type Table = seq<Structure>

  /** A type number that is built in or one of the first k structures. */
  predicate ValidType(k: nat, typ: int) {
    0 <= typ < |TYPE_SIZES| || STRUCT_BASE <= typ < STRUCT_BASE + k
  }

  function SizeOf(db: Table, typ: int): int
    requires ValidType(|db|, typ)
  {
    if typ < STRUCT_BASE then TYPE_SIZES[typ] else db[typ - STRUCT_BASE].size
  }

  /** Bytes an element takes up. */
  function Extent(db: Table, e: Element): int
    requires ValidType(|db|, e.typ)
  {
    e.arraySize * SizeOf(db, e.typ)
  }

  predicate Typed(k: nat, es: seq<Element>) {
    forall j :: 0 <= j < |es| ==> ValidType(k, es[j].typ) && es[j].arraySize >= 0
  }

  /** The sum of the extents of the first j elements. */
  function Offset(db: Table, es: seq<Element>, j: nat): int
    requires Typed(|db|, es) && j <= |es|
  {
    if j == 0 then 0 else Offset(db, es, j - 1) + Extent(db, es[j - 1])
  }

  predicate UniqueNames(es: seq<Element>) {
    forall i, j :: 0 <= i < j < |es| ==> es[i].name != es[j].name
  }

  /** Each element starts where the ones before it end. */
  predicate Packed(db: Table, es: seq<Element>)
    requires Typed(|db|, es)
  {
    forall j :: 0 <= j < |es| ==> es[j].position == Offset(db, es, j)
  }

  lemma {:induction false} PackedAt(db: Table, es: seq<Element>, j: nat)
    requires Typed(|db|, es) && Packed(db, es) && j < |es|
    ensures es[j].position == Offset(db, es, j)
    ensures Offset(db, es, j + 1) == es[j].position + Extent(db, es[j])
  {
  }

  /** Structure k uses earlier structures only, names its members apart and packs
      them without gaps. */
  predicate LaidOut(db: Table, k: nat)
    requires k < |db|
  {
    var s := db[k];
    && Typed(k, s.elements) && UniqueNames(s.elements) && Packed(db, s.elements)
    && s.size == Offset(db, s.elements, |s.elements|) >= 0
  }

  predicate WellFormed(db: Table) {
    forall k :: 0 <= k < |db| ==> LaidOut(db, k)
  }

  lemma {:induction false} Laid(db: Table, k: nat)
    requires WellFormed(db) && k < |db|
    ensures LaidOut(db, k)
  {
  }

  lemma {:induction false} ExtentPositive(db: Table, e: Element)
    requires WellFormed(db) && ValidType(|db|, e.typ) && e.arraySize >= 0
    ensures SizeOf(db, e.typ) >= 0 && Extent(db, e) >= 0
    ensures e.arraySize >= 1 ==> Extent(db, e) >= SizeOf(db, e.typ)
  {
    if e.typ >= STRUCT_BASE {
      assert LaidOut(db, e.typ - STRUCT_BASE);
    }
    var n := SizeOf(db, e.typ);
    assert e.arraySize * n >= 0;
    if e.arraySize >= 1 {
      MulLe(1, e.arraySize, n);
    }
  }

  /** Offsets within a structure do not depend on what follows it. */
  lemma {:induction false} OffsetPrefix(db: Table, es: seq<Element>, more: seq<Element>, later: Table, j: nat)
    requires Typed(|db|, es) && Typed(|db|, more) && j <= |es|
    ensures Typed(|db + later|, es + more)
    ensures Offset(db + later, es + more, j) == Offset(db, es, j)
  {
    if j > 0 {
      OffsetPrefix(db, es, more, later, j - 1);
    }
  }

  // ----- parse_elements ----------------------------------------------------------------

  /** A member declaration: its type resolved, no array bound means one. */
  datatype Decl = Decl(typ: int, name: Name, bound: Option<nat>)

  predicate Declares(d: Decl, e: Element) {
    && e.name == d.name && e.typ == d.typ
    && e.arraySize == (if d.bound.Some? then d.bound.value else 1)
  }

  lemma {:induction false} OffsetNext(db: Table, es: seq<Element>, j: nat)
    requires Typed(|db|, es) && j < |es|
    ensures Offset(db, es, j + 1) == Offset(db, es, j) + Extent(db, es[j])
  {
  }

  lemma {:induction false} PackNone(db: Table)
    ensures Typed(|db|, []) && Packed(db, []) && Offset(db, [], 0) == 0
  {
  }

  lemma {:induction false} PackOne(db: Table, es: seq<Element>, e: Element)
    requires WellFormed(db) && Typed(|db|, es) && Packed(db, es)
    requires ValidType(|db|, e.typ) && e.arraySize >= 0 && e.position == Offset(db, es, |es|) >= 0
    ensures Typed(|db|, es + [e]) && Packed(db, es + [e])
    ensures Offset(db, es + [e], |es| + 1) == e.position + Extent(db, e) >= 0
  {
    hide WellFormed, LaidOut, Extent, Offset;
    var es' := es + [e];
    assert db + [] == db;
    forall j: nat | j <= |es| ensures Offset(db, es', j) == Offset(db, es, j) {
      OffsetPrefix(db, es, [e], [], j);
    }
    ExtentPositive(db, e);
    OffsetNext(db, es', |es|);
  }

  /** Putting a structure of packed elements last keeps the table well formed. */
  lemma {:induction false} AppendWellFormed(db: Table, s: Structure)
    requires WellFormed(db) && Typed(|db|, s.elements) && Packed(db, s.elements)
    requires UniqueNames(s.elements) && s.size == Offset(db, s.elements, |s.elements|) >= 0
    ensures WellFormed(db + [s])
  {
    var db' := db + [s];
    forall k: nat | k < |db'| ensures LaidOut(db', k) {
      var es := db'[k].elements;
      if k < |db| {
        assert LaidOut(db, k);
      }
      assert Typed(k, es) && Typed(|db|, es);
      forall j: nat | j <= |es| ensures Offset(db', es, j) == Offset(db, es, j) {
        OffsetPrefix(db, es, [], [s], j);
        assert es + [] == es;
      }
    }
  }

  /** The layout part of parse_elements. */
  method ParseElements(db: Table, name: Name, decls: seq<Decl>) returns (s: Structure)
    requires WellFormed(db)
    requires forall j :: 0 <= j < |decls| ==> ValidType(|db|, decls[j].typ)
    requires forall i, j :: 0 <= i < j < |decls| ==> decls[i].name != decls[j].name
    ensures WellFormed(db + [s])
    ensures s.name == name && |s.elements| == |decls|
    ensures forall j :: 0 <= j < |decls| ==> Declares(decls[j], s.elements[j])
  {
    hide WellFormed, Packed, Offset, Extent, Typed;
    var es: seq<Element>, size := [], 0;
    PackNone(db);
    for n := 0 to |decls|
      invariant |es| == n && Typed(|db|, es) && Packed(db, es) && size == Offset(db, es, n) >= 0
      invariant forall j :: 0 <= j < n ==> Declares(decls[j], es[j])
    {
      var d := decls[n];
      var e := Element(d.name, d.typ, if d.bound.Some? then d.bound.value else 1, size);
      PackOne(db, es, e);
      es := es + [e];
      size := size + Extent(db, e);
    }
    s := Structure(name, es, size);
    assert UniqueNames(es) by {
      forall i, j | 0 <= i < j < |es| ensures es[i].name != es[j].name {
        assert Declares(decls[i], es[i]) && Declares(decls[j], es[j]);
      }
    }
    AppendWellFormed(db, s);
  }

  // ----- paths ---------------------------------------------------------------------------

  /** The first element of that name; the number of elements if there is none. */
  function FindElement(es: seq<Element>, name: Name): (j: nat)
    ensures j <= |es|
    ensures j < |es| ==> es[j].name == name
    ensures forall i :: 0 <= i < j ==> es[i].name != name
  {
    First(es, (e: Element) => e.name == name)
  }

  datatype Found = Found(pos: int, e: Element)

  /** get_element_pos on the parts of a dotted path. */
  function Resolve(db: Table, k: nat, path: seq<Name>): Option<Found>
    requires WellFormed(db) && k < |db| && path != []
    decreases |path|
  {
    var es := db[k].elements;
    var j := FindElement(es, path[0]);
    if j == |es| then None else
    var e := es[j];
    if |path| == 1 then Some(Found(e.position, e))
    else if e.typ < STRUCT_BASE then None
    else
      assert LaidOut(db, k);
      match Resolve(db, e.typ - STRUCT_BASE, path[1..])
      case None => None
      case Some(Found(pos, e')) => Some(Found(e.position + pos, e'))
  }

  /** The offset of a rest of the path, counted from pos. */
  function Shift(pos: int, r: Option<Found>): Option<Found> {
    if r.None? then None else Some(Found(pos + r.value.pos, r.value.e))
  }

  lemma {:induction false} ResolveStep(db: Table, k: nat, path: seq<Name>, e: Element)
    requires WellFormed(db) && k < |db| && |path| > 1
    requires FindElement(db[k].elements, path[0]) < |db[k].elements|
    requires e == db[k].elements[FindElement(db[k].elements, path[0])]
    ensures e.typ < STRUCT_BASE ==> Resolve(db, k, path).None?
    ensures e.typ >= STRUCT_BASE ==> e.typ - STRUCT_BASE < k
    ensures e.typ >= STRUCT_BASE ==>
              Resolve(db, k, path) == Shift(e.position, Resolve(db, e.typ - STRUCT_BASE, path[1..]))
  {
    hide Packed, Extent, Offset;
    assert LaidOut(db, k);
  }

  lemma {:induction false} ResolveSound(db: Table, k: nat, path: seq<Name>)
    requires WellFormed(db) && k < |db| && path != []
    ensures Resolve(db, k, path).Some? ==>
              && var f := Resolve(db, k, path).value;
              ValidType(k, f.e.typ) && f.e.arraySize >= 0 && f.pos >= 0
    decreases |path|
  {
    hide Packed, Extent, Offset;
    var es := db[k].elements;
    var j := FindElement(es, path[0]);
    assert LaidOut(db, k);
    if j < |es| {
      ElementInside(db, k, j, j);
      PackedAt(db, es, j);
      if |path| > 1 {
        ResolveStep(db, k, path, es[j]);
        if es[j].typ >= STRUCT_BASE {
          ResolveSound(db, es[j].typ - STRUCT_BASE, path[1..]);
        }
      }
    }
  }

  /** The loop of get_element_pos. */
  method GetElementPos(db: Table, root: nat, path: seq<Name>) returns (r: Option<Found>)
    requires WellFormed(db) && root < |db| && path != []
    ensures r == Resolve(db, root, path)
  {
    hide WellFormed;
    var k: nat, pos: int, n: nat := root, 0, 0;
    assert path[0..] == path;
    while true
      invariant k < |db| && n < |path|
      invariant Resolve(db, root, path) == Shift(pos, Resolve(db, k, path[n..]))
      decreases |path| - n
    {
      var es := db[k].elements;
      var i := 0;
      while i < |es| && es[i].name != path[n]
        invariant i <= |es| && forall j :: 0 <= j < i ==> es[j].name != path[n]
      {
        i := i + 1;
      }
      assert FindElement(es, path[n]) == i;
      if i == |es| {
        return None;
      }
      var e := es[i];
      ghost var rest := path[n..];
      pos := pos + e.position;
      n := n + 1;
      if n == |path| {
        return Some(Found(pos, e));
      }
      ResolveStep(db, k, rest, e);
      assert rest[1..] == path[n..];
      if e.typ < STRUCT_BASE {
        return None;
      }
      k := e.typ - STRUCT_BASE;
    }
  }

  // ----- disjoint ranges ---------------------------------------------------------------------

  /** The path names a built-in element and every structure on the way is there at
      least once. */
  predicate Leaf(db: Table, k: nat, path: seq<Name>)
    requires WellFormed(db) && k < |db|
    decreases |path|
  {
    && path != []
    && var es := db[k].elements;
       var j := FindElement(es, path[0]);
       && j < |es|
       && if |path| == 1 then es[j].typ < STRUCT_BASE
          else es[j].typ >= STRUCT_BASE && es[j].arraySize >= 1
               && (assert LaidOut(db, k); Leaf(db, es[j].typ - STRUCT_BASE, path[1..]))
  }

  /** Element j lies within its structure, after all earlier elements. */
  lemma {:induction false} ElementInside(db: Table, k: nat, i: nat, j: nat)
    requires WellFormed(db) && k < |db| && i <= j <= |db[k].elements|
    ensures LaidOut(db, k)
    ensures 0 <= Offset(db, db[k].elements, i) <= Offset(db, db[k].elements, j)
    decreases j
  {
    hide Packed, Extent;
    assert LaidOut(db, k);
    if j > 0 {
      ExtentPositive(db, db[k].elements[j - 1]);
      ElementInside(db, k, if i == j then i - 1 else i, j - 1);
    }
  }

  /** A leaf's bytes lie within the structure. */
  lemma {:induction false} LeafInside(db: Table, k: nat, path: seq<Name>)
    requires WellFormed(db) && k < |db| && Leaf(db, k, path)
    ensures path != [] && Resolve(db, k, path).Some?
    ensures var f := Resolve(db, k, path).value;
            && 0 <= f.e.typ < |TYPE_SIZES| && f.e.arraySize >= 0
            && 0 <= f.pos && f.pos + Extent(db, f.e) <= db[k].size
    decreases |path|
  {
    hide Packed, Extent, Offset;
    var es := db[k].elements;
    var j := FindElement(es, path[0]);
    var e := es[j];
    ElementInside(db, k, j, j);
    ElementInside(db, k, j + 1, |es|);
    PackedAt(db, es, j);
    ExtentPositive(db, e);
    if |path| > 1 {
      LeafInside(db, e.typ - STRUCT_BASE, path[1..]);
      ResolveStep(db, k, path, e);
    }
  }

  predicate Apart(a: int, m: int, b: int, n: int) {
    a + m <= b || b + n <= a
  }

  /** Two different leaf paths never share a byte. */
  lemma {:induction false} LeavesApart(db: Table, k: nat, p: seq<Name>, q: seq<Name>)
    requires WellFormed(db) && k < |db| && Leaf(db, k, p) && Leaf(db, k, q) && p != q
    ensures Resolve(db, k, p).Some? && Resolve(db, k, q).Some?
    ensures var f, g := Resolve(db, k, p).value, Resolve(db, k, q).value;
            && ValidType(|db|, f.e.typ) && ValidType(|db|, g.e.typ)
            && Apart(f.pos, Extent(db, f.e), g.pos, Extent(db, g.e))
    decreases |p|
  {
    hide Packed, Extent, Offset;
    LeafInside(db, k, p);
    LeafInside(db, k, q);
    var es := db[k].elements;
    var i, j := FindElement(es, p[0]), FindElement(es, q[0]);
    assert LaidOut(db, k);
    if i != j {
      Within(db, k, p);
      Within(db, k, q);
      if i < j {
        ElementInside(db, k, i + 1, j);
      } else {
        ElementInside(db, k, j + 1, i);
      }
    } else {
      assert p == [p[0]] + p[1..] && q == [q[0]] + q[1..];
      ResolveStep(db, k, p, es[i]);
      ResolveStep(db, k, q, es[i]);
      LeavesApart(db, es[i].typ - STRUCT_BASE, p[1..], q[1..]);
    }
  }

  /** A leaf lies within the element its path starts with. */
  lemma {:induction false} Within(db: Table, k: nat, path: seq<Name>)
    requires WellFormed(db) && k < |db| && Leaf(db, k, path)
    ensures LaidOut(db, k) && Resolve(db, k, path).Some?
    ensures var f := Resolve(db, k, path).value;
            var es := db[k].elements;
            var j := FindElement(es, path[0]);
            && ValidType(|db|, f.e.typ)
            && Offset(db, es, j) <= f.pos && f.pos + Extent(db, f.e) <= Offset(db, es, j + 1)
  {
    hide Packed, Extent, Offset;
    LeafInside(db, k, path);
    var e := db[k].elements[FindElement(db[k].elements, path[0])];
    assert LaidOut(db, k);
    PackedAt(db, db[k].elements, FindElement(db[k].elements, path[0]));
    if |path| > 1 {
      ResolveStep(db, k, path, e);
      LeafInside(db, e.typ - STRUCT_BASE, path[1..]);
      ExtentPositive(db, e);
    }
  }
}
