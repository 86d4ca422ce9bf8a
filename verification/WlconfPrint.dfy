/** The printing walk over a structure: it keeps its own running offset, and that
    offset always agrees with the positions stored in the table. */
module WlconfPrint {
  import opened Util
  import opened WlconfLayout

  /** One printed element: its path, the offset it is read from, the element. */
  datatype Visit = Visit(path: seq<Name>, off: int, e: Element)

  /** What is printed for the elements of structure k from the j-th on. */
  function WalkFrom(db: Table, k: nat, j: nat, parent: seq<Name>, pos: int): seq<Visit>
    requires WellFormed(db) && k < |db| && j <= |db[k].elements|
    decreases k, |db[k].elements| - j
  {
    var es := db[k].elements;
    if j == |es| then [] else
    assert LaidOut(db, k);
    var e := es[j];
    WalkElement(db, k, e, parent, pos) + WalkFrom(db, k, j + 1, parent, pos + Extent(db, e))
  }

  /** What is printed for an element of structure k. */
  function WalkElement(db: Table, k: nat, e: Element, parent: seq<Name>, pos: int): seq<Visit>
    requires WellFormed(db) && k < |db| && ValidType(k, e.typ)
    decreases k, 0
  {
    if e.typ < STRUCT_BASE then [Visit(parent + [e.name], pos, e)]
    else WalkFrom(db, e.typ - STRUCT_BASE, 0, parent + [e.name], pos)
  }

  /** print_element on a structure, with its loop. */
  method PrintStruct(db: Table, k: nat, parent: seq<Name>, start: int) returns (out: seq<Visit>)
    requires WellFormed(db) && k < |db|
    ensures out == WalkFrom(db, k, 0, parent, start)
    decreases k
  {
    hide WellFormed, Packed, Offset, Extent;
    out := [];
    var pos := start;
    var es := db[k].elements;
    Laid(db, k);
    for j := 0 to |es|
      invariant WalkFrom(db, k, 0, parent, start) == out + WalkFrom(db, k, j, parent, pos)
    {
      var e := es[j];
      var here;
      if e.typ < STRUCT_BASE {
        here := [Visit(parent + [e.name], pos, e)];
      } else {
        here := PrintStruct(db, e.typ - STRUCT_BASE, parent + [e.name], pos);
      }
      WalkStep(db, k, j, parent, pos);
      out := out + here;
      pos := pos + Extent(db, e);
    }
  }

  lemma {:induction false} WalkStep(db: Table, k: nat, j: nat, parent: seq<Name>, pos: int)
    requires WellFormed(db) && k < |db| && j < |db[k].elements|
    ensures LaidOut(db, k)
    ensures var e := db[k].elements[j];
            WalkFrom(db, k, j, parent, pos) ==
            WalkElement(db, k, e, parent, pos) + WalkFrom(db, k, j + 1, parent, pos + Extent(db, e))
  {
    hide Packed, Offset, Extent;
    Laid(db, k);
  }

  /** The visit shows what its path, taken below the parent, resolves to; the path
      starts at element j or later. */
  ghost predicate Shown(db: Table, k: nat, j: nat, parent: seq<Name>, base: int, v: Visit)
    requires WellFormed(db) && k < |db|
  {
    && |v.path| > |parent| && v.path[..|parent|] == parent
    && FindElement(db[k].elements, v.path[|parent|]) >= j
    && Resolve(db, k, v.path[|parent|..]) == Some(Found(v.off - base, v.e))
    && v.e.typ < STRUCT_BASE
  }

  /** The walk shows exactly the built-in elements that paths resolve to, each at the
      offset its path resolves to. */
  lemma {:induction false} WalkShows(db: Table, k: nat, j: nat, parent: seq<Name>, base: int, pos: int, v: Visit)
    requires WellFormed(db) && k < |db| && j <= |db[k].elements| && LaidOut(db, k)
    requires pos == base + Offset(db, db[k].elements, j)
    ensures v in WalkFrom(db, k, j, parent, pos) <==> Shown(db, k, j, parent, base, v)
    decreases k, |db[k].elements| - j
  {
    hide WellFormed, LaidOut, Packed, Offset, Extent, Resolve;
    var es := db[k].elements;
    if j == |es| {
      NoneShown(db, k, parent, base, v);
    } else {
      var e := es[j];
      WalkStep(db, k, j, parent, pos);
      Below(db, k, j);
      WalkShows(db, k, j + 1, parent, base, pos + Extent(db, e), v);
      if e.typ >= STRUCT_BASE {
        Laid(db, e.typ - STRUCT_BASE);
        OffsetZero(db, e.typ - STRUCT_BASE);
        WalkShows(db, e.typ - STRUCT_BASE, 0, parent + [e.name], pos, pos, v);
      }
      FirstShown(db, k, j, parent, base, v);
    }
  }

  lemma {:induction false} OffsetZero(db: Table, k: nat)
    requires k < |db| && LaidOut(db, k)
    ensures Offset(db, db[k].elements, 0) == 0
  {
  }

  lemma {:induction false} Below(db: Table, k: nat, j: nat)
    requires k < |db| && LaidOut(db, k) && j < |db[k].elements|
    ensures ValidType(k, db[k].elements[j].typ)
    ensures Offset(db, db[k].elements, j + 1)
         == db[k].elements[j].position + Extent(db, db[k].elements[j])
    ensures Offset(db, db[k].elements, j) == db[k].elements[j].position
  {
    PackedAt(db, db[k].elements, j);
  }

  lemma {:induction false} NoneShown(db: Table, k: nat, parent: seq<Name>, base: int, v: Visit)
    requires WellFormed(db) && k < |db|
    ensures !Shown(db, k, |db[k].elements|, parent, base, v)
  {
    hide WellFormed;
  }

  /** A visit from element j on is one of element j or one from a later element. */
  lemma {:induction false} FirstShown(db: Table, k: nat, j: nat, parent: seq<Name>, base: int, v: Visit)
    requires WellFormed(db) && k < |db| && LaidOut(db, k) && j < |db[k].elements|
    ensures var e := db[k].elements[j];
            var pos := base + e.position;
            && ValidType(k, e.typ)
            && (Shown(db, k, j, parent, base, v) <==>
                || Shown(db, k, j + 1, parent, base, v)
                || (if e.typ < STRUCT_BASE then v == Visit(parent + [e.name], pos, e)
                    else Shown(db, e.typ - STRUCT_BASE, 0, parent + [e.name], pos, v)))
  {
    hide WellFormed, Packed, Offset, Resolve;
    var es := db[k].elements;
    var e := es[j];
    assert FindElement(es, e.name) == j;
    PathBelow(v.path, parent, e.name);
    if |v.path| > |parent| && v.path[..|parent|] == parent && v.path[|parent|] == e.name {
      var tail := v.path[|parent|..];
      assert v.path == parent + tail && tail[0] == e.name;
      if |tail| > 1 {
        ResolveStep(db, k, tail, e);
        assert v.path[..|parent| + 1] == parent + [e.name];
        assert tail[1..] == v.path[|parent| + 1..];
      } else {
        assert v.path == parent + [e.name];
        ResolveOne(db, k, tail, e);
      }
    }
  }

  lemma {:induction false} ResolveOne(db: Table, k: nat, path: seq<Name>, e: Element)
    requires WellFormed(db) && k < |db| && |path| == 1
    requires FindElement(db[k].elements, path[0]) < |db[k].elements|
    requires e == db[k].elements[FindElement(db[k].elements, path[0])]
    ensures Resolve(db, k, path) == Some(Found(e.position, e))
  {
    hide WellFormed;
  }

  lemma PathBelow(path: seq<Name>, parent: seq<Name>, name: Name)
    ensures |path| > |parent| && path[..|parent| + 1] == parent + [name] ==>
              path[..|parent|] == parent && path[|parent|] == name
  {
    if |path| > |parent| && path[..|parent| + 1] == parent + [name] {
      assert path[..|parent|] == path[..|parent| + 1][..|parent|];
      assert path[|parent|] == path[..|parent| + 1][|parent|];
    }
  }

  /** No element is printed twice. */
  lemma {:induction false} WalkDistinct(db: Table, k: nat, j: nat, parent: seq<Name>, base: int, pos: int)
    requires WellFormed(db) && k < |db| && j <= |db[k].elements| && LaidOut(db, k)
    requires pos == base + Offset(db, db[k].elements, j)
    ensures Distinct(WalkFrom(db, k, j, parent, pos))
    decreases k, |db[k].elements| - j
  {
    hide WellFormed, LaidOut, Packed, Offset, Extent, Resolve;
    var es := db[k].elements;
    if j < |es| {
      var e := es[j];
      WalkStep(db, k, j, parent, pos);
      Below(db, k, j);
      WalkDistinct(db, k, j + 1, parent, base, pos + Extent(db, e));
      var here := WalkElement(db, k, e, parent, pos);
      var rest := WalkFrom(db, k, j + 1, parent, pos + Extent(db, e));
      if e.typ >= STRUCT_BASE {
        Laid(db, e.typ - STRUCT_BASE);
        OffsetZero(db, e.typ - STRUCT_BASE);
        WalkDistinct(db, e.typ - STRUCT_BASE, 0, parent + [e.name], pos, pos);
      }
      forall v | v in here ensures v !in rest {
        WalkShows(db, k, j + 1, parent, base, pos + Extent(db, e), v);
        if e.typ >= STRUCT_BASE {
          WalkShows(db, e.typ - STRUCT_BASE, 0, parent + [e.name], pos, pos, v);
        }
        StartsWith(db, k, j, parent, e, v);
      }
      DistinctAppend(here, rest);
    }
  }

  lemma {:induction false} StartsWith(db: Table, k: nat, j: nat, parent: seq<Name>, e: Element, v: Visit)
    requires k < |db| && LaidOut(db, k) && j < |db[k].elements| && e == db[k].elements[j]
    ensures FindElement(db[k].elements, e.name) == j
    ensures |v.path| > |parent| && v.path[..|parent| + 1] == parent + [e.name] ==> v.path[|parent|] == e.name
  {
    hide Packed, Offset;
    assert FindElement(db[k].elements, e.name) == j;
    if |v.path| > |parent| && v.path[..|parent| + 1] == parent + [e.name] {
      assert v.path[|parent|] == v.path[..|parent| + 1][|parent|];
    }
  }

  lemma {:induction false} DistinctAppend<T>(a: seq<T>, b: seq<T>)
    requires Distinct(a) && Distinct(b) && forall x :: x in a ==> x !in b
    ensures Distinct(a + b)
  {
    var s := a + b;
    forall i, j | 0 <= i < j < |s| ensures s[i] != s[j] {
      assert i < |a| ==> s[i] in a;
      assert j >= |a| ==> s[j] in b;
    }
  }

  /** Path p names an element declared before the one q names: at the first structure in which
      they part, p's member comes first. */
  predicate Earlier(db: Table, k: nat, p: seq<Name>, q: seq<Name>)
    requires WellFormed(db) && k < |db|
    decreases |p|
  {
    && p != [] && q != []
    && var es := db[k].elements;
       var i, j := FindElement(es, p[0]), FindElement(es, q[0]);
       || i < j
       || (i == j < |es| && es[i].typ >= STRUCT_BASE
           && (assert LaidOut(db, k); Earlier(db, es[i].typ - STRUCT_BASE, p[1..], q[1..])))
  }

  /** What comes below the parent. */
  function Tail(v: Visit, parent: seq<Name>): seq<Name> {
    if |parent| <= |v.path| then v.path[|parent|..] else []
  }

  lemma {:induction false} EarlierBelow(db: Table, k: nat, j: nat, parent: seq<Name>, u: Visit, v: Visit, base: int)
    requires WellFormed(db) && k < |db| && LaidOut(db, k) && j < |db[k].elements|
    requires db[k].elements[j].typ >= STRUCT_BASE
    requires var sub, below := db[k].elements[j].typ - STRUCT_BASE, parent + [db[k].elements[j].name];
             && sub < k && Shown(db, sub, 0, below, base, u) && Shown(db, sub, 0, below, base, v)
             && Earlier(db, sub, Tail(u, below), Tail(v, below))
    ensures Earlier(db, k, Tail(u, parent), Tail(v, parent))
  {
    hide WellFormed, LaidOut, Resolve;
    var e := db[k].elements[j];
    StartsWith(db, k, j, parent, e, u);
    StartsWith(db, k, j, parent, e, v);
    assert Tail(u, parent)[1..] == Tail(u, parent + [e.name]);
    assert Tail(v, parent)[1..] == Tail(v, parent + [e.name]);
  }

  predicate Ordered(db: Table, k: nat, parent: seq<Name>, vs: seq<Visit>)
    requires WellFormed(db) && k < |db|
  {
    forall a, b :: 0 <= a < b < |vs| ==> Earlier(db, k, Tail(vs[a], parent), Tail(vs[b], parent))
  }

  lemma {:induction false} ElementOrdered(db: Table, k: nat, j: nat, parent: seq<Name>, pos: int)
    requires WellFormed(db) && k < |db| && LaidOut(db, k) && j < |db[k].elements|
    requires var e := db[k].elements[j]; ValidType(k, e.typ) && e.typ >= STRUCT_BASE
    requires var e := db[k].elements[j];
             Ordered(db, e.typ - STRUCT_BASE, parent + [e.name],
                     WalkFrom(db, e.typ - STRUCT_BASE, 0, parent + [e.name], pos))
    ensures Ordered(db, k, parent, WalkElement(db, k, db[k].elements[j], parent, pos))
  {
    hide WellFormed, LaidOut, Packed, Offset, Extent, Resolve, Earlier, WalkFrom, Shown;
    var e := db[k].elements[j];
    var sub, below := e.typ - STRUCT_BASE, parent + [e.name];
    Laid(db, sub);
    OffsetZero(db, sub);
    var vs := WalkFrom(db, sub, 0, below, pos);
    forall a, b | 0 <= a < b < |vs| ensures Earlier(db, k, Tail(vs[a], parent), Tail(vs[b], parent)) {
      WalkShows(db, sub, 0, below, pos, pos, vs[a]);
      WalkShows(db, sub, 0, below, pos, pos, vs[b]);
      EarlierBelow(db, k, j, parent, vs[a], vs[b], pos);
    }
  }

  lemma {:induction false} WalkOrdered(db: Table, k: nat, j: nat, parent: seq<Name>, base: int, pos: int)
    requires WellFormed(db) && k < |db| && j <= |db[k].elements| && LaidOut(db, k)
    requires pos == base + Offset(db, db[k].elements, j)
    ensures Ordered(db, k, parent, WalkFrom(db, k, j, parent, pos))
    decreases k, |db[k].elements| - j
  {
    hide WellFormed, LaidOut, Packed, Offset, Extent, Resolve;
    var es := db[k].elements;
    if j < |es| {
      var e := es[j];
      WalkStep(db, k, j, parent, pos);
      Below(db, k, j);
      var after := pos + Extent(db, e);
      WalkOrdered(db, k, j + 1, parent, base, after);
      var here, rest := WalkElement(db, k, e, parent, pos), WalkFrom(db, k, j + 1, parent, after);
      if e.typ >= STRUCT_BASE {
        Laid(db, e.typ - STRUCT_BASE);
        OffsetZero(db, e.typ - STRUCT_BASE);
        WalkOrdered(db, e.typ - STRUCT_BASE, 0, parent + [e.name], pos, pos);
        ElementOrdered(db, k, j, parent, pos);
      }
      forall u, v | u in here && v in rest ensures Earlier(db, k, Tail(u, parent), Tail(v, parent)) {
        WalkShows(db, k, j + 1, parent, base, after, v);
        if e.typ >= STRUCT_BASE {
          WalkShows(db, e.typ - STRUCT_BASE, 0, parent + [e.name], pos, pos, u);
        }
        StartsWith(db, k, j, parent, e, u);
      }
      OrderedAppend(db, k, parent, here, rest);
    }
  }

  lemma {:induction false} OrderedAppend(db: Table, k: nat, parent: seq<Name>, a: seq<Visit>, b: seq<Visit>)
    requires WellFormed(db) && k < |db| && Ordered(db, k, parent, a) && Ordered(db, k, parent, b)
    requires forall u, v :: u in a && v in b ==> Earlier(db, k, Tail(u, parent), Tail(v, parent))
    ensures Ordered(db, k, parent, a + b)
  {
    hide WellFormed, Earlier;
    var s := a + b;
    forall i, j | 0 <= i < j < |s| ensures Earlier(db, k, Tail(s[i], parent), Tail(s[j], parent)) {
      if i < |a| <= j {
        assert s[i] in a && s[j] in b;
      }
    }
  }

  /** Printing a whole structure prints every built-in element that a path reaches, once,
      read from where the path resolves to, in the order of declaration, and nothing else. */
  lemma {:induction false} PrintedExactly(db: Table, root: nat, v: Visit)
    requires WellFormed(db) && root < |db|
    ensures var out := WalkFrom(db, root, 0, [], 0);
            && Distinct(out)
            && (forall a, b :: 0 <= a < b < |out| ==> Earlier(db, root, out[a].path, out[b].path))
            && (v in out <==>
                v.path != [] && Resolve(db, root, v.path) == Some(Found(v.off, v.e)) && v.e.typ < STRUCT_BASE)
  {
    hide WellFormed, LaidOut, Packed, Offset, Extent, Resolve, Earlier;
    Laid(db, root);
    OffsetZero(db, root);
    WalkDistinct(db, root, 0, [], 0, 0);
    WalkShows(db, root, 0, [], 0, 0, v);
    WalkOrdered(db, root, 0, [], 0, 0);
    assert v.path[0..] == v.path;
    var out := WalkFrom(db, root, 0, [], 0);
    forall a, b | 0 <= a < b < |out| ensures Earlier(db, root, out[a].path, out[b].path) {
      assert Tail(out[a], []) == out[a].path && Tail(out[b], []) == out[b].path;
    }
  }
}
