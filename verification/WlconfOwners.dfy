/** Which element each byte of a structure belongs to. */
module WlconfOwners {
  import opened Util
  import opened WlconfLayout

  ghost function ElementOf(db: Table, root: nat, path: seq<Name>): Element
    requires WellFormed(db) && root < |db| && Leaf(db, root, path)
  {
    LeafInside(db, root, path);
    Resolve(db, root, path).value.e
  }

  ghost function Start(db: Table, root: nat, path: seq<Name>): nat
    requires WellFormed(db) && root < |db| && Leaf(db, root, path)
  {
    LeafInside(db, root, path);
    Resolve(db, root, path).value.pos
  }

  /** The bytes of one item of the element. */
  ghost function Width(db: Table, root: nat, path: seq<Name>): (n: nat)
    requires WellFormed(db) && root < |db| && Leaf(db, root, path)
    ensures n == 1 || n == 2 || n == 4
  {
    LeafInside(db, root, path);
    TYPE_SIZES[ElementOf(db, root, path).typ]
  }

  /** All the bytes of the element. */
  ghost function Len(db: Table, root: nat, path: seq<Name>): nat
    requires WellFormed(db) && root < |db| && Leaf(db, root, path)
  {
    LeafInside(db, root, path);
    ElementOf(db, root, path).arraySize * Width(db, root, path)
  }

  /** Leaves lie within the structure and apart from each other. */
  lemma {:induction false} Placed(db: Table, root: nat, p: seq<Name>, q: seq<Name>)
    requires WellFormed(db) && root < |db| && Leaf(db, root, p) && Leaf(db, root, q)
    ensures Start(db, root, p) + Len(db, root, p) <= db[root].size
    ensures p != q ==> Apart(Start(db, root, p), Len(db, root, p), Start(db, root, q), Len(db, root, q))
  {
    hide WellFormed, Leaf, Resolve;
    LeafInside(db, root, p);
    LeafInside(db, root, q);
    if p != q {
      LeavesApart(db, root, p, q);
    }
  }

  /** A leaf that set_value can write: not an array. */
  ghost predicate Scalar(db: Table, root: nat, path: seq<Name>)
    requires WellFormed(db) && root < |db|
  {
    Leaf(db, root, path) && ElementOf(db, root, path).arraySize == 1
  }

  /** A path set_value accepts: it resolves to a built-in element that is no longer array. */
  predicate Settable(db: Table, root: nat, path: seq<Name>)
    requires WellFormed(db) && root < |db| && path != []
  {
    && Resolve(db, root, path).Some?
    && Resolve(db, root, path).value.e.typ < STRUCT_BASE && Resolve(db, root, path).value.e.arraySize <= 1
  }

  // ----- the owner of a byte ------------------------------------------------------------------

  /** One step of the way to a byte: a member and the index in its array. */
  datatype Item = Item(name: Name, index: nat)

  /** The one of the first n elements that byte i lies in. */
  function Holder(db: Table, es: seq<Element>, n: nat, i: int): (j: nat)
    requires Typed(|db|, es) && n <= |es| && 0 <= i < Offset(db, es, n)
    ensures j < n && Offset(db, es, j) <= i < Offset(db, es, j + 1)
  {
    if i >= Offset(db, es, n - 1) then n - 1 else Holder(db, es, n - 1, i)
  }

  /** Byte i of a structure lies in this element of it. */
  predicate In(db: Table, e: Element, i: int)
    requires ValidType(|db|, e.typ)
  {
    e.position <= i < e.position + Extent(db, e)
  }

  lemma {:induction false} InOffset(db: Table, k: nat, j: nat, i: int)
    requires WellFormed(db) && k < |db| && j < |db[k].elements| && LaidOut(db, k)
    ensures ValidType(k, db[k].elements[j].typ)
    ensures In(db, db[k].elements[j], i) <==>
            Offset(db, db[k].elements, j) <= i < Offset(db, db[k].elements, j + 1)
    ensures In(db, db[k].elements[j], i) ==>
              db[k].elements[j].arraySize >= 1 && SizeOf(db, db[k].elements[j].typ) >= 1
  {
    hide Packed, Offset, WellFormed;
    var e := db[k].elements[j];
    PackedAt(db, db[k].elements, j);
    ExtentPositive(db, e);
    if In(db, e, i) {
      Factors(e.arraySize, SizeOf(db, e.typ));
    }
  }

  lemma {:induction false} Factors(a: int, w: int)
    requires a >= 0 && w >= 0 && a * w > 0
    ensures a >= 1 && w >= 1
  {
  }

  /** The element of structure k that byte i lies in. */
  function Held(db: Table, k: nat, i: int): (j: nat)
    requires WellFormed(db) && k < |db| && 0 <= i < db[k].size
    ensures j < |db[k].elements|
    ensures var e := db[k].elements[j];
            ValidType(k, e.typ) && e.arraySize >= 1 && SizeOf(db, e.typ) >= 1 && In(db, e, i)
  {
    Laid(db, k);
    var es := db[k].elements;
    InOffset(db, k, Holder(db, es, |es|, i), i);
    Holder(db, es, |es|, i)
  }

  /** Only one element holds a byte. */
  lemma {:induction false} HeldUnique(db: Table, k: nat, i: int, j: nat)
    requires WellFormed(db) && k < |db| && 0 <= i < db[k].size
    requires j < |db[k].elements| && ValidType(k, db[k].elements[j].typ) && In(db, db[k].elements[j], i)
    ensures Held(db, k, i) == j
  {
    hide Packed, Extent, Offset, WellFormed, Held, In;
    Laid(db, k);
    var h := Held(db, k, i);
    InOffset(db, k, j, i);
    InOffset(db, k, h, i);
    if h < j {
      ElementInside(db, k, h + 1, j);
    } else if j < h {
      ElementInside(db, k, j + 1, h);
    }
  }

  /** The item of structure k that byte i belongs to, down to a built-in element. */
  function Owner(db: Table, k: nat, i: int): (r: seq<Item>)
    requires WellFormed(db) && k < |db| && 0 <= i < db[k].size
    ensures r != []
    decreases k
  {
    var e := db[k].elements[Held(db, k, i)];
    var d, w := i - e.position, SizeOf(db, e.typ);
    if e.typ < STRUCT_BASE then [Item(e.name, d / w)]
    else [Item(e.name, d / w)] + Owner(db, e.typ - STRUCT_BASE, d % w)
  }

  /** The first item a path leads to. */
  function Instance(path: seq<Name>): (r: seq<Item>)
    ensures |r| == |path|
  {
    seq(|path|, i requires 0 <= i < |path| => Item(path[i], 0))
  }

  lemma {:induction false} InstanceStep(path: seq<Name>)
    requires path != []
    ensures Instance(path) == [Item(path[0], 0)] + Instance(path[1..])
  {
  }

  lemma {:induction false} SameCons<T>(x: T, xs: seq<T>, y: T, ys: seq<T>)
    ensures [x] + xs == [y] + ys <==> x == y && xs == ys
  {
    assert ([x] + xs)[1..] == xs && ([y] + ys)[1..] == ys;
    assert ([x] + xs)[0] == x && ([y] + ys)[0] == y;
  }

  lemma {:induction false} DivSmall(d: int, w: int)
    requires d >= 0 && w >= 1
    ensures d / w == 0 <==> d < w
    ensures d < w ==> d % w == d
  {
    if d < w {
      DivUnique(d, w, 0, d);
    } else {
      MulBound(w, d / w);
    }
  }

  /** Members are told apart by their names. */
  lemma {:induction false} SameName(db: Table, k: nat, h: nat, name: Name)
    requires k < |db| && LaidOut(db, k) && h < |db[k].elements| && db[k].elements[h].name == name
    ensures FindElement(db[k].elements, name) == h
  {
    hide Packed, Offset;
  }

  lemma {:induction false} ScalarHere(db: Table, k: nat, path: seq<Name>)
    requires WellFormed(db) && k < |db| && |path| == 1 && Settable(db, k, path)
    ensures var es := db[k].elements; var j := FindElement(es, path[0]);
            && j < |es| && Resolve(db, k, path) == Some(Found(es[j].position, es[j]))
            && (Scalar(db, k, path) <==> es[j].arraySize == 1)
  {
    hide WellFormed;
  }

  lemma {:induction false} ScalarBelow(db: Table, k: nat, path: seq<Name>)
    requires WellFormed(db) && k < |db| && |path| > 1 && Settable(db, k, path)
    ensures var es := db[k].elements; var j := FindElement(es, path[0]);
            && j < |es| && STRUCT_BASE <= es[j].typ < STRUCT_BASE + k
            && var sub, rest := es[j].typ - STRUCT_BASE, path[1..];
            && Settable(db, sub, rest) && Resolve(db, sub, rest).Some?
            && Resolve(db, k, path) == Some(Found(es[j].position + Resolve(db, sub, rest).value.pos,
                                                  Resolve(db, sub, rest).value.e))
            && (Scalar(db, k, path) <==> es[j].arraySize >= 1 && Scalar(db, sub, rest))
  {
    hide WellFormed, Packed, Offset;
    Laid(db, k);
    var es := db[k].elements;
    var j := FindElement(es, path[0]);
    ResolveStep(db, k, path, es[j]);
  }

  /** The bytes a path resolves to. */
  predicate Covers(db: Table, f: Found, i: int) {
    0 <= f.e.typ < |TYPE_SIZES| && f.pos <= i < f.pos + TYPE_SIZES[f.e.typ]
  }

  /** A scalar lies in the structure, and in the member its path starts with. */
  lemma {:induction false} ScalarWithin(db: Table, k: nat, path: seq<Name>, i: int)
    requires WellFormed(db) && k < |db| && path != [] && Settable(db, k, path)
    requires Scalar(db, k, path) && Covers(db, Resolve(db, k, path).value, i)
    ensures 0 <= i < db[k].size
    ensures var j := FindElement(db[k].elements, path[0]);
            j < |db[k].elements| && ValidType(k, db[k].elements[j].typ) && In(db, db[k].elements[j], i)
  {
    hide Packed, Offset, WellFormed, Resolve, Leaf, In;
    LeafInside(db, k, path);
    Within(db, k, path);
    InOffset(db, k, FindElement(db[k].elements, path[0]), i);
  }

  lemma {:induction false} OwnerHead(db: Table, k: nat, i: int)
    requires WellFormed(db) && k < |db| && 0 <= i < db[k].size
    ensures var e := db[k].elements[Held(db, k, i)];
            var d, w := i - e.position, SizeOf(db, e.typ);
            && d >= 0 && Owner(db, k, i)[0] == Item(e.name, d / w)
            && (e.typ >= STRUCT_BASE ==>
                  Owner(db, k, i) == [Item(e.name, d / w)] + Owner(db, e.typ - STRUCT_BASE, d % w))
  {
    hide WellFormed, Held, Extent;
  }

  lemma {:induction false} HeldFrom(db: Table, k: nat, i: int)
    requires WellFormed(db) && k < |db| && 0 <= i < db[k].size
    ensures i >= db[k].elements[Held(db, k, i)].position
  {
    hide WellFormed, Held, Extent;
  }

  lemma {:induction false} OwnedHere(db: Table, k: nat, path: seq<Name>, i: int)
    requires WellFormed(db) && k < |db| && |path| == 1 && Settable(db, k, path) && 0 <= i < db[k].size
    ensures Owner(db, k, i) == Instance(path) <==>
            Scalar(db, k, path) && Covers(db, Resolve(db, k, path).value, i)
  {
    hide Packed, Offset, WellFormed, Resolve, Leaf, Scalar, Settable;
    Laid(db, k);
    ScalarHere(db, k, path);
    SettableType(db, k, path);
    var es := db[k].elements;
    var j, h := FindElement(es, path[0]), Held(db, k, i);
    InstanceStep(path);
    if es[h].name == path[0] {
      SameName(db, k, h, path[0]);
      DivSmall(i - es[h].position, SizeOf(db, es[h].typ));
    } else {
      OwnerHead(db, k, i);
      assert Owner(db, k, i)[0].name != Instance(path)[0].name;
      if Scalar(db, k, path) && Covers(db, Resolve(db, k, path).value, i) {
        ScalarWithin(db, k, path, i);
        HeldUnique(db, k, i, j);
      }
    }
  }

  lemma {:induction false} SettableType(db: Table, k: nat, path: seq<Name>)
    requires WellFormed(db) && k < |db| && path != [] && Settable(db, k, path)
    ensures 0 <= Resolve(db, k, path).value.e.typ < |TYPE_SIZES|
    ensures 0 <= Resolve(db, k, path).value.e.arraySize <= 1
  {
    hide WellFormed, Resolve;
    ResolveSound(db, k, path);
  }

  lemma {:induction false} OwnedBelow(db: Table, k: nat, path: seq<Name>, i: int)
    requires WellFormed(db) && k < |db| && |path| > 1 && Settable(db, k, path) && 0 <= i < db[k].size
    ensures Owner(db, k, i) == Instance(path) <==>
            Scalar(db, k, path) && Covers(db, Resolve(db, k, path).value, i)
    decreases |path|, 1
  {
    hide Packed, Extent, Offset, WellFormed, Instance, Resolve, Leaf, Scalar, Settable, In, Owner, Held;
    Laid(db, k);
    ScalarBelow(db, k, path);
    var es := db[k].elements;
    var j, h := FindElement(es, path[0]), Held(db, k, i);
    var sub, rest := es[j].typ - STRUCT_BASE, path[1..];
    InstanceStep(path);
    if es[h].name == path[0] {
      SameName(db, k, h, path[0]);
      HeldBelow(db, k, path, i);
    } else {
      OwnerHead(db, k, i);
      assert Owner(db, k, i)[0].name != Instance(path)[0].name;
      if Scalar(db, k, path) && Covers(db, Resolve(db, k, path).value, i) {
        ScalarWithin(db, k, path, i);
        HeldUnique(db, k, i, j);
      }
    }
  }

  lemma {:induction false} HeldBelow(db: Table, k: nat, path: seq<Name>, i: int)
    requires WellFormed(db) && k < |db| && |path| > 1 && Settable(db, k, path) && 0 <= i < db[k].size
    requires FindElement(db[k].elements, path[0]) == Held(db, k, i)
    ensures Owner(db, k, i) == Instance(path) <==>
            Scalar(db, k, path) && Covers(db, Resolve(db, k, path).value, i)
    decreases |path|, 0
  {
    hide Packed, Extent, Offset, WellFormed, Instance, Resolve, Leaf, Scalar, Settable, Held, Owner, In;
    OwnerHead(db, k, i);
    HeldFrom(db, k, i);
    ScalarBelow(db, k, path);
    var e := db[k].elements[Held(db, k, i)];
    var sub, rest := e.typ - STRUCT_BASE, path[1..];
    var d, w := i - e.position, db[sub].size;
    DivSmall(d, w);
    InstanceStep(path);
    OwnedIff(db, sub, rest, d % w);
    SameCons(Item(e.name, d / w), Owner(db, sub, d % w), Item(path[0], 0), Instance(rest));
    if Scalar(db, sub, rest) && Covers(db, Resolve(db, sub, rest).value, d) {
      ScalarWithin(db, sub, rest, d);
    }
  }

  /** For a path set_value accepts: a byte belongs to the element it names if and only if no
      array on the path is empty and the byte is one of those the path resolves to. */
  lemma {:induction false} OwnedIff(db: Table, k: nat, path: seq<Name>, i: int)
    requires WellFormed(db) && k < |db| && path != [] && Settable(db, k, path) && 0 <= i < db[k].size
    ensures Owner(db, k, i) == Instance(path) <==>
            Scalar(db, k, path) && Covers(db, Resolve(db, k, path).value, i)
    decreases |path|
  {
    hide Owner, Instance, Resolve, Scalar, Settable, Covers, WellFormed;
    if |path| == 1 {
      OwnedHere(db, k, path, i);
    } else {
      OwnedBelow(db, k, path, i);
    }
  }
}
