/** Reference-counted device address lists, and their synchronisation from a
    device to the device below it. */
module DevAddr {
  import opened Util

  type Addr = seq<int>

  /** struct dev_addr_list; the length of addr is da_addrlen. */
  datatype Entry = Entry(addr: Addr, users: int, gusers: int, synced: bool)

  predicate Addressed(l: seq<Entry>, a: Addr) {
    exists k :: 0 <= k < |l| && l[k].addr == a
  }

  /** Position of the first entry for address a; the length of the list if none. */
  function Find(l: seq<Entry>, a: Addr): (k: nat)
    ensures k <= |l|
    ensures k < |l| ==> l[k].addr == a
    ensures forall j :: 0 <= j < k ==> l[j].addr != a
  {
    First(l, (e: Entry) => e.addr == a)
  }

  /** __dev_addr_add; `mem` says whether an allocation would succeed. */
  function Add(l: seq<Entry>, a: Addr, glbl: bool, mem: bool): (seq<Entry>, int) {
    var k := Find(l, a);
    if k < |l| then
      var e := l[k];
      if glbl && e.gusers != 0 then (l[k := e.(gusers := 1)], 0)
      else if glbl then (l[k := e.(gusers := 1, users := e.users + 1)], 0)
      else (l[k := e.(users := e.users + 1)], 0)
    else if !mem then (l, -ENOMEM)
    else ([Entry(a, 1, if glbl then 1 else 0, false)] + l, 0)
  }

  /** __dev_addr_delete. */
  function Delete(l: seq<Entry>, a: Addr, glbl: bool): (seq<Entry>, int) {
    var k := Find(l, a);
    if k == |l| then (l, -ENOENT) else
    var e := if glbl then l[k].(gusers := 0) else l[k];
    if glbl && l[k].gusers == 0 then (l[k := e], -ENOENT)
    else if e.users - 1 != 0 then (l[k := e.(users := e.users - 1)], 0)
    else (l[..k] + l[k + 1..], 0)
  }

  /** Addresses are listed once, every entry has a user. */
  predicate Good(l: seq<Entry>) {
    && (forall i, j :: 0 <= i < j < |l| ==> l[i].addr != l[j].addr)
    && (forall i :: 0 <= i < |l| ==> l[i].users >= 1)
  }

  lemma FindAt(l: seq<Entry>, i: nat)
    requires Good(l) && i < |l|
    ensures Find(l, l[i].addr) == i
  {
  }

  lemma AddGood(l: seq<Entry>, a: Addr, glbl: bool, mem: bool)
    requires Good(l)
    ensures Good(Add(l, a, glbl, mem).0)
  {
  }

  lemma DeleteGood(l: seq<Entry>, a: Addr, glbl: bool)
    requires Good(l)
    ensures Good(Delete(l, a, glbl).0)
  {
  }

  // ----- synchronisation -------------------------------------------------------------

  /** __dev_addr_sync from entry i of `from` on; mem(t) says whether an allocation
      in the t-th turn succeeds.  Returns both lists and the error. */
  function Sync(to: seq<Entry>, from: seq<Entry>, i: nat, mem: nat -> bool, t: nat):
      (seq<Entry>, seq<Entry>, int)
    requires Good(from) && i <= |from|
    decreases |from| - i
  {
    if i == |from| then (to, from, 0) else
    var da := from[i];
    if !da.synced then
      var (to1, err) := Add(to, da.addr, false, mem(t));
      if err < 0 then (to1, from, err)
      else Sync(to1, from[i := da.(synced := true, users := da.users + 1)], i + 1, mem, t + 1)
    else if da.users == 1 then
      DeleteGood(from, da.addr, false);
      FindAt(from, i);
      Sync(Delete(to, da.addr, false).0, Delete(from, da.addr, false).0, i, mem, t + 1)
    else Sync(to, from, i + 1, mem, t + 1)
  }

  /** __dev_addr_unsync from entry i of `from` on. */
  function Unsync(to: seq<Entry>, from: seq<Entry>, i: nat): (seq<Entry>, seq<Entry>)
    requires Good(from) && i <= |from|
    decreases |from| - i
  {
    if i == |from| then (to, from) else
    var da := from[i];
    if da.synced then
      var from1 := from[i := da.(synced := false)];
      DeleteGood(from1, da.addr, false);
      FindAt(from1, i);
      var from2 := Delete(from1, da.addr, false).0;
      Unsync(Delete(to, da.addr, false).0, from2, if |from2| < |from| then i else i + 1)
    else Unsync(to, from, i + 1)
  }

  // ----- undoing a synchronisation -----------------------------------------------------

  function AddAll(l: seq<Entry>, xs: seq<Addr>): seq<Entry>
    decreases |xs|
  {
    if xs == [] then l else AddAll(Add(l, xs[0], false, true).0, xs[1..])
  }

  function Dropped(l: seq<Entry>, k: nat): seq<Entry>
    requires k < |l|
  {
    if l[k].users != 1 then l[k := l[k].(users := l[k].users - 1)] else l[..k] + l[k + 1..]
  }

  function Bumped(l: seq<Entry>, k: nat): seq<Entry>
    requires k < |l|
  {
    l[k := l[k].(users := l[k].users + 1)]
  }

  lemma DeleteAt(l: seq<Entry>, k: nat)
    requires Good(l) && k < |l|
    ensures Delete(l, l[k].addr, false) == (Dropped(l, k), 0)
  {
    FindAt(l, k);
  }

  lemma AddAt(l: seq<Entry>, k: nat, mem: bool)
    requires Good(l) && k < |l|
    ensures Add(l, l[k].addr, false, mem) == (Bumped(l, k), 0)
  {
    FindAt(l, k);
  }

  lemma AddNew(l: seq<Entry>, b: Addr)
    requires !Addressed(l, b)
    ensures Add(l, b, false, true) == ([Entry(b, 1, 0, false)] + l, 0)
  {
    assert Find(l, b) == |l|;
  }

  /** Deleting what was just added restores the list, order included. */
  lemma AddThenDelete(l: seq<Entry>, a: Addr)
    requires Good(l)
    ensures Delete(Add(l, a, false, true).0, a, false) == (l, 0)
  {
    hide Find, Add, Delete;
    var l1 := Add(l, a, false, true).0;
    AddGood(l, a, false, true);
    if Addressed(l, a) {
      var k :| 0 <= k < |l| && l[k].addr == a;
      AddAt(l, k, true);
      DeleteAt(l1, k);
      assert Dropped(l1, k) == l;
    } else {
      AddNew(l, a);
      DeleteAt(l1, 0);
      assert Dropped(l1, 0) == l;
    }
  }

  /** Additions and deletions of different addresses commute. */
  lemma AddDeleteCommute(l: seq<Entry>, k: nat, b: Addr)
    requires Good(l) && k < |l| && l[k].addr != b
    ensures Delete(Add(l, b, false, true).0, l[k].addr, false).0
         == Add(Delete(l, l[k].addr, false).0, b, false, true).0
  {
    hide Good, Find, Add, Delete, Dropped, Bumped;
    AddGood(l, b, false, true);
    DeleteGood(l, l[k].addr, false);
    DeleteAt(l, k);
    if Addressed(l, b) {
      var m :| 0 <= m < |l| && l[m].addr == b;
      AddAt(l, m, true);
      DropBump(l, k, m);
      DeleteAt(Bumped(l, m), k);
      AddAt(Dropped(l, k), AfterDrop(l, k, m), true);
    } else {
      AddNew(l, b);
      DropPush(l, k, Entry(b, 1, 0, false));
      DeleteAt([Entry(b, 1, 0, false)] + l, k + 1);
      DropUnlisted(l, k, b);
      AddNew(Dropped(l, k), b);
    }
  }

  /** Where entry m is once entry k has been dropped. */
  function AfterDrop(l: seq<Entry>, k: nat, m: nat): int
    requires k < |l|
  {
    if l[k].users != 1 || m < k then m else m - 1
  }

  lemma DropBump(l: seq<Entry>, k: nat, m: nat)
    requires k < |l| && m < |l| && k != m
    ensures |Bumped(l, m)| == |l| && Bumped(l, m)[k] == l[k]
    ensures 0 <= AfterDrop(l, k, m) < |Dropped(l, k)| && Dropped(l, k)[AfterDrop(l, k, m)] == l[m]
    ensures Dropped(Bumped(l, m), k) == Bumped(Dropped(l, k), AfterDrop(l, k, m))
  {
  }

  lemma DropPush(l: seq<Entry>, k: nat, e: Entry)
    requires k < |l|
    ensures Dropped([e] + l, k + 1) == [e] + Dropped(l, k)
  {
    if l[k].users == 1 {
      assert ([e] + l)[..k + 1] == [e] + l[..k];
      assert ([e] + l)[k + 2..] == l[k + 1..];
    } else {
      var x := l[k].(users := l[k].users - 1);
      assert ([e] + l)[k + 1 := x] == [e] + l[k := x];
    }
  }

  lemma DropUnlisted(l: seq<Entry>, k: nat, b: Addr)
    requires k < |l| && !Addressed(l, b)
    ensures !Addressed(Dropped(l, k), b)
  {
  }

  predicate AllDiffer(xs: seq<Addr>, a: Addr) {
    forall k :: 0 <= k < |xs| ==> xs[k] != a
  }

  lemma {:induction false} DeleteThroughAdds(l: seq<Entry>, xs: seq<Addr>, k: nat)
    requires Good(l) && k < |l| && AllDiffer(xs, l[k].addr)
    ensures Delete(AddAll(l, xs), l[k].addr, false).0 == AddAll(Delete(l, l[k].addr, false).0, xs)
    decreases |xs|
  {
    if xs != [] {
      var l1 := Add(l, xs[0], false, true).0;
      AddGood(l, xs[0], false, true);
      AddDeleteCommute(l, k, xs[0]);
      DeleteThroughAdds(l1, xs[1..], if Find(l, xs[0]) < |l| then k else k + 1);
    }
  }

  function Marked(e: Entry): Entry {
    e.(synced := true, users := e.users + 1)
  }

  /** The list with entries i up to n marked as synchronised. */
  function Mark(l: seq<Entry>, i: nat, n: nat): (r: seq<Entry>)
    ensures |r| == |l|
    ensures forall k :: 0 <= k < |l| ==> r[k] == if i <= k < n then Marked(l[k]) else l[k]
  {
    seq(|l|, k requires 0 <= k < |l| => if i <= k < n then Marked(l[k]) else l[k])
  }

  function Addrs(l: seq<Entry>): (r: seq<Addr>)
    ensures |r| == |l|
    ensures forall k :: 0 <= k < |l| ==> r[k] == l[k].addr
  {
    seq(|l|, k requires 0 <= k < |l| => l[k].addr)
  }

  predicate NoneSynced(l: seq<Entry>, i: nat) {
    forall k :: i <= k < |l| ==> !l[k].synced
  }

  lemma AddrsFrom(l: seq<Entry>, i: nat, n: nat)
    requires i < n <= |l|
    ensures Addrs(l[i..n]) != [] && Addrs(l[i..n])[0] == l[i].addr
    ensures Addrs(l[i..n])[1..] == Addrs(l[i + 1..n])
  {
  }

  /** From unsynchronised entries, synchronising adds a prefix of the addresses to
      the other list and marks them: all of them, or those before the first
      allocation that fails. */
  lemma {:induction false} SyncMarks(to: seq<Entry>, from: seq<Entry>, i: nat, mem: nat -> bool, t: nat)
    returns (n: nat)
    requires Good(from) && i <= |from| && NoneSynced(from, i)
    ensures i <= n <= |from|
    ensures var (to1, from1, err) := Sync(to, from, i, mem, t);
            to1 == AddAll(to, Addrs(from[i..n])) && from1 == Mark(from, i, n) && (err == 0 <==> n == |from|)
    decreases |from| - i
  {
    if i == |from| {
      n := i;
    } else {
      var (to1, err) := Add(to, from[i].addr, false, mem(t));
      if err < 0 {
        n := i;
      } else {
        assert to1 == Add(to, from[i].addr, false, true).0;
        hide Add, Find;
        var from1 := from[i := Marked(from[i])];
        n := SyncMarks(to1, from1, i + 1, mem, t + 1);
        AddrsFrom(from, i, n);
        assert Addrs(from1[i + 1..n]) == Addrs(from[i + 1..n]);
        assert Mark(from1, i + 1, n) == Mark(from, i, n);
      }
    }
  }

  lemma {:induction false} UnsyncNothing(to: seq<Entry>, from: seq<Entry>, i: nat)
    requires Good(from) && i <= |from| && NoneSynced(from, i)
    ensures Unsync(to, from, i) == (to, from)
    decreases |from| - i
  {
    if i < |from| {
      UnsyncNothing(to, from, i + 1);
    }
  }

  lemma MarkGood(l: seq<Entry>, i: nat, n: nat)
    requires Good(l)
    ensures Good(Mark(l, i, n))
  {
  }

  /** Taking the first of several additions back. */
  lemma DeleteFirstAdded(to: seq<Entry>, a: Addr, rest: seq<Addr>)
    requires Good(to) && AllDiffer(rest, a)
    ensures Delete(AddAll(to, [a] + rest), a, false).0 == AddAll(to, rest)
  {
    assert ([a] + rest)[1..] == rest;
    var to1 := Add(to, a, false, true).0;
    AddGood(to, a, false, true);
    AddThenDelete(to, a);
    DeleteThroughAdds(to1, rest, if Find(to, a) < |to| then Find(to, a) else 0);
  }

  lemma UnmarkOne(from: seq<Entry>, i: nat, n: nat)
    requires Good(from) && i < n <= |from| && NoneSynced(from, i)
    ensures var from1 := Mark(from, i, n);
            Good(from1[i := from1[i].(synced := false)])
    ensures var from1 := Mark(from, i, n);
            Delete(from1[i := from1[i].(synced := false)], from[i].addr, false).0 == Mark(from, i + 1, n)
  {
    MarkGood(from, i, n);
    var from1 := Mark(from, i, n);
    var from2 := from1[i := from1[i].(synced := false)];
    DeleteAt(from2, i);
    hide Good;
    assert Dropped(from2, i) == Mark(from, i + 1, n);
  }

  lemma {:induction false} UnsyncUnmarks(to: seq<Entry>, from: seq<Entry>, i: nat, n: nat)
    requires Good(to) && Good(from) && i <= n <= |from| && NoneSynced(from, i)
    ensures Good(Mark(from, i, n))
    ensures Unsync(AddAll(to, Addrs(from[i..n])), Mark(from, i, n), i) == (to, from)
    decreases n - i
  {
    MarkGood(from, i, n);
    if i == n {
      assert Mark(from, i, n) == from;
      assert from[i..n] == [];
      UnsyncNothing(to, from, i);
    } else {
      AddrsFrom(from, i, n);
      var a, rest := from[i].addr, Addrs(from[i + 1..n]);
      assert AllDiffer(rest, a);
      assert Addrs(from[i..n]) == [a] + rest;
      hide Good, Add, Find, Delete, AddAll, Mark, Addrs, AllDiffer;
      DeleteFirstAdded(to, a, rest);
      UnmarkOne(from, i, n);
      UnsyncUnmarks(to, from, i + 1, n);
    }
  }

  /** Synchronising a list without synchronised entries, even if memory runs out
      half way, and then unsynchronising it, restores both lists exactly. */
  lemma SyncUnsyncRestores(to: seq<Entry>, from: seq<Entry>, mem: nat -> bool)
    requires Good(to) && Good(from) && NoneSynced(from, 0)
    ensures var (to1, from1, err) := Sync(to, from, 0, mem, 0);
            Good(from1) && Unsync(to1, from1, 0) == (to, from)
  {
    var n := SyncMarks(to, from, 0, mem, 0);
    UnsyncUnmarks(to, from, 0, n);
  }

  // ----- reference counts over whole runs ------------------------------------------------

  /** Users of address a; 0 if it is not listed. */
  function Users(l: seq<Entry>, a: Addr): int {
    var k := Find(l, a);
    if k < |l| then l[k].users else 0
  }

  predicate Global(l: seq<Entry>, a: Addr) {
    var k := Find(l, a);
    k < |l| && l[k].gusers != 0
  }

  predicate Synced(l: seq<Entry>, a: Addr) {
    var k := Find(l, a);
    k < |l| && l[k].synced
  }

  /** A list seen from address a: its user count and flags. */
  predicate Sees(l: seq<Entry>, a: Addr, users: int, glob: bool, synced: bool) {
    Users(l, a) == users && Global(l, a) == glob && Synced(l, a) == synced
  }

  lemma SeenAt(l: seq<Entry>, k: nat)
    requires Good(l) && k < |l|
    ensures Sees(l, l[k].addr, l[k].users, l[k].gusers != 0, l[k].synced)
  {
    FindAt(l, k);
  }

  lemma SeenNot(l: seq<Entry>, a: Addr)
    requires !Addressed(l, a)
    ensures Sees(l, a, 0, false, false)
  {
  }

  lemma AddKeepsEntry(l: seq<Entry>, a: Addr, glbl: bool, mem: bool, k: nat)
    requires k < |l| && l[k].addr != a
    ensures var l' := Add(l, a, glbl, mem).0; |l'| >= |l| && l'[k + |l'| - |l|] == l[k]
  {
  }

  lemma AddKeepsAbsent(l: seq<Entry>, a: Addr, glbl: bool, mem: bool, x: Addr)
    requires x != a && !Addressed(l, x)
    ensures !Addressed(Add(l, a, glbl, mem).0, x)
  {
  }

  lemma AddOther(l: seq<Entry>, a: Addr, glbl: bool, mem: bool, x: Addr)
    requires Good(l) && x != a
    ensures Sees(Add(l, a, glbl, mem).0, x, Users(l, x), Global(l, x), Synced(l, x))
  {
    hide Add, Find, Good, Users, Global, Synced;
    var l' := Add(l, a, glbl, mem).0;
    AddGood(l, a, glbl, mem);
    if Addressed(l, x) {
      var k :| 0 <= k < |l| && l[k].addr == x;
      AddKeepsEntry(l, a, glbl, mem, k);
      SeenAt(l, k);
      SeenAt(l', k + |l'| - |l|);
    } else {
      AddKeepsAbsent(l, a, glbl, mem, x);
      SeenNot(l, x);
      SeenNot(l', x);
    }
  }

  lemma AddSeen(l: seq<Entry>, a: Addr, glbl: bool, mem: bool, x: Addr)
    requires Good(l)
    ensures var (l', err) := Add(l, a, glbl, mem);
            var hit := x == a && err == 0;
            && (err == 0 || err == -ENOMEM)
            && Sees(l', x, Users(l, x) + One(hit && !(glbl && Global(l, a))),
                    Global(l, x) || (hit && glbl), Synced(l, x))
  {
    var (l', err) := Add(l, a, glbl, mem);
    if x != a {
      AddOther(l, a, glbl, mem, x);
    } else {
      AddGood(l, a, glbl, mem);
      var k := Find(l, a);
      if k < |l| {
        SeenAt(l', k);
      } else if mem {
        SeenAt(l', 0);
      }
    }
  }

  lemma DeleteKeepsEntry(l: seq<Entry>, a: Addr, glbl: bool, k: nat) returns (k': nat)
    requires k < |l| && l[k].addr != a
    ensures var l' := Delete(l, a, glbl).0; k' < |l'| && l'[k'] == l[k]
  {
    k' := if k < Find(l, a) then k else k + |Delete(l, a, glbl).0| - |l|;
  }

  lemma DeleteKeepsAbsent(l: seq<Entry>, a: Addr, glbl: bool, x: Addr)
    requires x != a && !Addressed(l, x)
    ensures !Addressed(Delete(l, a, glbl).0, x)
  {
  }

  lemma DeleteOther(l: seq<Entry>, a: Addr, glbl: bool, x: Addr)
    requires Good(l) && x != a
    ensures Sees(Delete(l, a, glbl).0, x, Users(l, x), Global(l, x), Synced(l, x))
  {
    hide Delete, Find, Good, Users, Global, Synced;
    var l' := Delete(l, a, glbl).0;
    DeleteGood(l, a, glbl);
    if Addressed(l, x) {
      var k :| 0 <= k < |l| && l[k].addr == x;
      var k' := DeleteKeepsEntry(l, a, glbl, k);
      SeenAt(l, k);
      SeenAt(l', k');
    } else {
      DeleteKeepsAbsent(l, a, glbl, x);
      SeenNot(l, x);
      SeenNot(l', x);
    }
  }

  lemma DeleteSeen(l: seq<Entry>, a: Addr, glbl: bool, x: Addr)
    requires Good(l)
    ensures var (l', err) := Delete(l, a, glbl);
            && (err == 0 <==> Find(l, a) < |l| && (glbl ==> Global(l, a)))
            && Users(l', x) == Users(l, x) - One(x == a && err == 0)
            && (x != a ==> Sees(l', x, Users(l, x), Global(l, x), Synced(l, x)))
            && (err != 0 || Users(l, a) >= 2 ==>
                  Sees(l', a, Users(l', a), Global(l, a) && !glbl, Synced(l, a)))
            && (err == 0 && Users(l, a) == 1 ==> Sees(l', a, 0, false, false))
  {
    var (l', err) := Delete(l, a, glbl);
    if x != a {
      DeleteOther(l, a, glbl, x);
    }
    DeleteGood(l, a, glbl);
    var k := Find(l, a);
    if k < |l| {
      SeenAt(l, k);
      if |l'| == |l| {
        SeenAt(l', k);
      } else {
        assert !Addressed(l', a);
        SeenNot(l', a);
      }
    }
  }

  /** The references held by others than the synchronisation, kept apart from the lists: how
      many plain additions are outstanding, and whether a global one is, on the lower and the
      upper list. */
  datatype Refs = Refs(own: Addr -> nat, glob: Addr -> bool, ownFrom: Addr -> nat, globFrom: Addr -> bool)

  /** The users of an address are exactly the plain references, the global one, and one for
      the synchronisation while it lasts, and the flag tells of the global one, on both lists. */
  predicate BalancedAt(to: seq<Entry>, from: seq<Entry>, r: Refs, a: Addr) {
    && Users(to, a) == r.own(a) + One(r.glob(a)) + One(Synced(from, a))
    && Users(from, a) == r.ownFrom(a) + One(r.globFrom(a)) + One(Synced(from, a))
    && Global(to, a) == r.glob(a) && Global(from, a) == r.globFrom(a)
  }

  ghost predicate Balanced(to: seq<Entry>, from: seq<Entry>, r: Refs) {
    && Good(to) && Good(from)
    && (forall a :: BalancedAt(to, from, r, a))
  }

  lemma ListedIffUsed(l: seq<Entry>, a: Addr)
    requires Good(l)
    ensures Users(l, a) >= 1 <==> Find(l, a) < |l|
    ensures Users(l, a) >= 0
  {
  }

  lemma UpdateSeen(l: seq<Entry>, k: nat, e: Entry, x: Addr)
    requires Good(l) && k < |l| && e.addr == l[k].addr && e.users >= 1
    ensures Good(l[k := e])
    ensures x != e.addr ==> Sees(l[k := e], x, Users(l, x), Global(l, x), Synced(l, x))
    ensures Sees(l[k := e], e.addr, e.users, e.gusers != 0, e.synced)
  {
    var l' := l[k := e];
    SeenAt(l', k);
    hide Users, Global, Synced, Find;
    if Addressed(l, x) {
      var m :| 0 <= m < |l| && l[m].addr == x;
      SeenAt(l, m);
      SeenAt(l', m);
    } else {
      assert !Addressed(l', x);
      SeenNot(l, x);
      SeenNot(l', x);
    }
  }

  lemma SyncOneBalanced(to: seq<Entry>, from: seq<Entry>, i: nat, mem: bool, r: Refs)
    requires Balanced(to, from, r) && i < |from| && !from[i].synced
    requires Add(to, from[i].addr, false, mem).1 == 0
    ensures Balanced(Add(to, from[i].addr, false, mem).0, from[i := Marked(from[i])], r)
  {
    hide Add, Find, Users, Global, Synced;
    var a := from[i].addr;
    var to1, from1 := Add(to, a, false, mem).0, from[i := Marked(from[i])];
    AddGood(to, a, false, mem);
    UpdateSeen(from, i, Marked(from[i]), a);
    SeenAt(from, i);
    forall x ensures BalancedAt(to1, from1, r, x) {
      assert BalancedAt(to, from, r, x);
      AddSeen(to, a, false, mem, x);
      UpdateSeen(from, i, Marked(from[i]), x);
    }
  }

  lemma PurgeBalanced(to: seq<Entry>, from: seq<Entry>, i: nat, r: Refs)
    requires Balanced(to, from, r) && i < |from| && from[i].synced && from[i].users == 1
    ensures Balanced(Delete(to, from[i].addr, false).0, Delete(from, from[i].addr, false).0, r)
  {
    hide Delete, Find, Users, Global, Synced;
    var a := from[i].addr;
    var to1, from1 := Delete(to, a, false).0, Delete(from, a, false).0;
    DeleteGood(to, a, false);
    DeleteGood(from, a, false);
    SeenAt(from, i);
    assert BalancedAt(to, from, r, a);
    ListedIffUsed(to, a);
    ListedIffUsed(from, a);
    forall x ensures BalancedAt(to1, from1, r, x) {
      assert BalancedAt(to, from, r, x);
      DeleteSeen(to, a, false, x);
      DeleteSeen(from, a, false, x);
    }
  }

  lemma UnsyncOneBalanced(to: seq<Entry>, from: seq<Entry>, i: nat, r: Refs)
    requires Balanced(to, from, r) && i < |from| && from[i].synced
    ensures var from1 := from[i := from[i].(synced := false)];
            && Good(from1)
            && Balanced(Delete(to, from[i].addr, false).0, Delete(from1, from[i].addr, false).0, r)
  {
    hide Delete, Find, Users, Global, Synced;
    var a, e := from[i].addr, from[i].(synced := false);
    var from1 := from[i := e];
    var to1, from2 := Delete(to, a, false).0, Delete(from1, a, false).0;
    UpdateSeen(from, i, e, a);
    DeleteGood(to, a, false);
    DeleteGood(from1, a, false);
    SeenAt(from, i);
    assert BalancedAt(to, from, r, a);
    ListedIffUsed(to, a);
    ListedIffUsed(from1, a);
    forall x ensures BalancedAt(to1, from2, r, x) {
      assert BalancedAt(to, from, r, x);
      UpdateSeen(from, i, e, x);
      DeleteSeen(to, a, false, x);
      DeleteSeen(from1, a, false, x);
    }
  }

  /** Synchronising keeps every reference accounted for, wherever it stops. */
  lemma {:induction false} SyncBalanced(to: seq<Entry>, from: seq<Entry>, i: nat, mem: nat -> bool, t: nat,
                                        r: Refs)
    requires Balanced(to, from, r) && i <= |from|
    ensures var (to1, from1, err) := Sync(to, from, i, mem, t); Balanced(to1, from1, r)
    decreases |from| - i
  {
    hide Add, BalancedAt;
    if i < |from| {
      var da := from[i];
      if !da.synced {
        AddSeen(to, da.addr, false, mem(t), da.addr);
        var (to1, err) := Add(to, da.addr, false, mem(t));
        if err < 0 {
          AddFails(to, da.addr, mem(t));
        } else {
          SyncOneBalanced(to, from, i, mem(t), r);
          SyncBalanced(to1, from[i := Marked(da)], i + 1, mem, t + 1, r);
        }
      } else if da.users == 1 {
        PurgeBalanced(to, from, i, r);
        DeleteGood(from, da.addr, false);
        FindAt(from, i);
        SyncBalanced(Delete(to, da.addr, false).0, Delete(from, da.addr, false).0, i, mem, t + 1, r);
      } else {
        SyncBalanced(to, from, i + 1, mem, t + 1, r);
      }
    }
  }

  lemma AddFails(l: seq<Entry>, a: Addr, mem: bool)
    requires Add(l, a, false, mem).1 < 0
    ensures Add(l, a, false, mem).0 == l
  {
  }

  /** Unsynchronising releases every reference the synchronisation held, and no
      other: no entry is left marked. */
  lemma {:induction false} UnsyncBalanced(to: seq<Entry>, from: seq<Entry>, i: nat,
                                          r: Refs)
    requires Balanced(to, from, r) && i <= |from|
    requires forall k :: 0 <= k < i ==> !from[k].synced
    ensures var (to1, from1) := Unsync(to, from, i);
            Balanced(to1, from1, r) && NoneSynced(from1, 0)
    decreases |from| - i
  {
    hide BalancedAt;
    if i < |from| {
      var da := from[i];
      if da.synced {
        UnsyncOneBalanced(to, from, i, r);
        var from1 := from[i := da.(synced := false)];
        DeleteGood(from1, da.addr, false);
        FindAt(from1, i);
        var from2 := Delete(from1, da.addr, false).0;
        UnsyncBalanced(Delete(to, da.addr, false).0, from2, if |from2| < |from| then i else i + 1, r);
      } else {
        UnsyncBalanced(to, from, i + 1, r);
      }
    }
  }

  // ----- runs ------------------------------------------------------------------------------

  datatype Op =
    | AddTo(a: Addr, glbl: bool, mem: bool) | AddFrom(a: Addr, glbl: bool, mem: bool)
    | DeleteTo(a: Addr, glbl: bool) | DeleteFrom(a: Addr, glbl: bool)
    | SyncOp(grants: nat -> bool) | UnsyncOp

  /** Both lists, and the references others hold. */
  datatype Devs = Devs(to: seq<Entry>, from: seq<Entry>, refs: Refs)

  function Plus(f: Addr -> nat, a: Addr, n: nat): Addr -> nat {
    x => if x == a then f(x) + n else f(x)
  }

  function Minus(f: Addr -> nat, a: Addr): Addr -> nat {
    x => if x == a && f(x) > 0 then f(x) - 1 else f(x)
  }

  function Flag(f: Addr -> bool, a: Addr, b: bool): Addr -> bool {
    x => if x == a then b else f(x)
  }

  function Step(d: Devs, op: Op): Devs
    requires Good(d.to) && Good(d.from)
  {
    var r := d.refs;
    match op
    case AddTo(a, glbl, mem) =>
      var (l, err) := Add(d.to, a, glbl, mem);
      d.(to := l, refs := if err != 0 then r
                          else if glbl then r.(glob := Flag(r.glob, a, true))
                          else r.(own := Plus(r.own, a, 1)))
    case AddFrom(a, glbl, mem) =>
      var (l, err) := Add(d.from, a, glbl, mem);
      d.(from := l, refs := if err != 0 then r
                            else if glbl then r.(globFrom := Flag(r.globFrom, a, true))
                            else r.(ownFrom := Plus(r.ownFrom, a, 1)))
    case DeleteTo(a, glbl) =>
      d.(to := Delete(d.to, a, glbl).0, refs := if glbl then r.(glob := Flag(r.glob, a, false))
                                                else r.(own := Minus(r.own, a)))
    case DeleteFrom(a, glbl) =>
      d.(from := Delete(d.from, a, glbl).0, refs := if glbl then r.(globFrom := Flag(r.globFrom, a, false))
                                                    else r.(ownFrom := Minus(r.ownFrom, a)))
    case SyncOp(grants) =>
      var (to1, from1, err) := Sync(d.to, d.from, 0, grants, 0);
      d.(to := to1, from := from1)
    case UnsyncOp =>
      var (to1, from1) := Unsync(d.to, d.from, 0);
      d.(to := to1, from := from1)
  }

  ghost predicate Accounted(d: Devs) {
    Balanced(d.to, d.from, d.refs)
  }

  lemma AddToAccounted(d: Devs, a: Addr, glbl: bool, mem: bool)
    requires Accounted(d)
    ensures Accounted(Step(d, AddTo(a, glbl, mem)))
  {
    hide Add, Find, Users, Global, Synced;
    AddGood(d.to, a, glbl, mem);
    var t := Step(d, AddTo(a, glbl, mem));
    forall x ensures BalancedAt(t.to, t.from, t.refs, x) {
      assert BalancedAt(d.to, d.from, d.refs, x);
      AddSeen(d.to, a, glbl, mem, x);
    }
  }

  lemma AddFromAccounted(d: Devs, a: Addr, glbl: bool, mem: bool)
    requires Accounted(d)
    ensures Accounted(Step(d, AddFrom(a, glbl, mem)))
  {
    hide Add, Find, Users, Global, Synced;
    AddGood(d.from, a, glbl, mem);
    var f := Step(d, AddFrom(a, glbl, mem));
    forall x ensures BalancedAt(f.to, f.from, f.refs, x) {
      assert BalancedAt(d.to, d.from, d.refs, x);
      AddSeen(d.from, a, glbl, mem, x);
    }
  }

  /** A plain deletion takes back a plain addition that is still outstanding, or else nobody
      refers to the address: no global user, and not the synchronisation. */
  predicate Matched(d: Devs, op: Op) {
    match op
    case DeleteTo(a, glbl) => glbl || d.refs.own(a) > 0 || (!d.refs.glob(a) && !Synced(d.from, a))
    case DeleteFrom(a, glbl) => glbl || d.refs.ownFrom(a) > 0 || (!d.refs.globFrom(a) && !Synced(d.from, a))
    case _ => true
  }

  lemma DeleteToAccounted(d: Devs, a: Addr, glbl: bool)
    requires Accounted(d)
    ensures Accounted(Step(d, DeleteTo(a, glbl))) <==> Matched(d, DeleteTo(a, glbl))
  {
    hide Delete, Find, Users, Global, Synced;
    DeleteGood(d.to, a, glbl);
    assert BalancedAt(d.to, d.from, d.refs, a);
    ListedIffUsed(d.to, a);
    GlobalListed(d.to, a);
    var t := Step(d, DeleteTo(a, glbl));
    DeleteSeen(d.to, a, glbl, a);
    if Matched(d, DeleteTo(a, glbl)) {
      forall x ensures BalancedAt(t.to, t.from, t.refs, x) {
        assert BalancedAt(d.to, d.from, d.refs, x);
        DeleteSeen(d.to, a, glbl, x);
      }
    } else {
      assert !BalancedAt(t.to, t.from, t.refs, a);
    }
  }

  lemma DeleteFromAccounted(d: Devs, a: Addr, glbl: bool)
    requires Accounted(d)
    ensures Accounted(Step(d, DeleteFrom(a, glbl))) <==> Matched(d, DeleteFrom(a, glbl))
  {
    hide Delete, Find, Users, Global, Synced;
    DeleteGood(d.from, a, glbl);
    assert BalancedAt(d.to, d.from, d.refs, a);
    ListedIffUsed(d.from, a);
    GlobalListed(d.from, a);
    var f := Step(d, DeleteFrom(a, glbl));
    DeleteSeen(d.from, a, glbl, a);
    if Matched(d, DeleteFrom(a, glbl)) {
      forall x ensures BalancedAt(f.to, f.from, f.refs, x) {
        assert BalancedAt(d.to, d.from, d.refs, x);
        DeleteSeen(d.from, a, glbl, x);
      }
    } else {
      assert !BalancedAt(f.to, f.from, f.refs, a);
    }
  }

  lemma GlobalListed(l: seq<Entry>, a: Addr)
    ensures Global(l, a) || Synced(l, a) ==> Find(l, a) < |l|
  {
  }

  /** A request keeps all references accounted for if and only if it is matched. */
  lemma StepAccounted(d: Devs, op: Op)
    requires Accounted(d)
    ensures Accounted(Step(d, op)) <==> Matched(d, op)
  {
    hide Synced;
    match op
    case AddTo(a, glbl, mem) => AddToAccounted(d, a, glbl, mem);
    case AddFrom(a, glbl, mem) => AddFromAccounted(d, a, glbl, mem);
    case DeleteTo(a, glbl) => DeleteToAccounted(d, a, glbl);
    case DeleteFrom(a, glbl) => DeleteFromAccounted(d, a, glbl);
    case SyncOp(grants) => SyncBalanced(d.to, d.from, 0, grants, 0, d.refs);
    case UnsyncOp => UnsyncBalanced(d.to, d.from, 0, d.refs);
  }

  ghost predicate AllMatched(d: Devs, ops: seq<Op>)
    requires Accounted(d)
    decreases |ops|
  {
    ops == [] ||
    (Matched(d, ops[0]) && (StepAccounted(d, ops[0]); AllMatched(Step(d, ops[0]), ops[1..])))
  }

  ghost function Run(d: Devs, ops: seq<Op>): Devs
    requires Accounted(d) && AllMatched(d, ops)
    decreases |ops|
  {
    if ops == [] then d else
    StepAccounted(d, ops[0]);
    Run(Step(d, ops[0]), ops[1..])
  }

  /** In every run of matched requests all references stay accounted for: a list never holds
      an address twice nor without a user, and an address is on either list exactly while
      someone refers to it there. */
  lemma {:induction false} RunAccounted(d: Devs, ops: seq<Op>, a: Addr)
    requires Accounted(d) && AllMatched(d, ops)
    ensures var e := Run(d, ops);
            && Accounted(e)
            && (Find(e.to, a) < |e.to| <==>
                  e.refs.own(a) > 0 || e.refs.glob(a) || Synced(e.from, a))
            && (Find(e.from, a) < |e.from| <==>
                  e.refs.ownFrom(a) > 0 || e.refs.globFrom(a) || Synced(e.from, a))
    decreases |ops|
  {
    if ops != [] {
      StepAccounted(d, ops[0]);
      hide Step, Accounted, Matched;
      RunAccounted(Step(d, ops[0]), ops[1..], a);
    } else {
      assert BalancedAt(d.to, d.from, d.refs, a);
      ListedIffUsed(d.to, a);
      ListedIffUsed(d.from, a);
    }
  }

  /** Nobody refers to anything. */
  function Nobody(): Refs {
    Refs(_ => 0, _ => false, _ => 0, _ => false)
  }

  lemma EmptyAccounted()
    ensures Accounted(Devs([], [], Nobody()))
  {
    forall a ensures BalancedAt([], [], Nobody(), a) {
      assert Find([], a) == 0;
    }
  }

  /** A global user adds an address to a fresh list, and someone else deletes it: the address
      is gone although the global user still refers to it. */
  lemma GlobalLost()
    ensures var d := Step(Devs([], [], Nobody()), AddTo([1], true, true));
            var e := Step(d, DeleteTo([1], false));
            && Accounted(d) && d.to == [Entry([1], 1, 1, false)]
            && e.to == [] && e.refs.glob([1]) && !Accounted(e)
  {
    EmptyAccounted();
    var d0 := Devs([], [], Nobody());
    AddToAccounted(d0, [1], true, true);
    assert Find(d0.to, [1]) == 0;
    var d := Step(d0, AddTo([1], true, true));
    assert d.to == [Entry([1], 1, 1, false)];
    assert Find(d.to, [1]) == 0;
    DeleteToAccounted(d, [1], false);
  }

  /** Deleting an address nobody added oneself, while it is synchronised: the lower device
      loses it although the upper one still has it. */
  lemma UnmatchedDelete(grants: nat -> bool)
    requires grants(0)
    ensures var d := Step(Step(Devs([], [], Nobody()), AddFrom([1], false, true)), SyncOp(grants));
            && Accounted(d) && d.to == [Entry([1], 1, 0, false)] && d.from == [Entry([1], 2, 0, true)]
            && var e := Step(d, DeleteTo([1], false)); e.to == [] && !Accounted(e)
  {
    hide Accounted, Sync, Users, Global;
    EmptyAccounted();
    var d0 := Devs([], [], Nobody());
    StepAccounted(d0, AddFrom([1], false, true));
    assert Find(d0.from, [1]) == 0;
    var d1 := Step(d0, AddFrom([1], false, true));
    assert d1.from == [Entry([1], 1, 0, false)] && d1.to == [];
    StepAccounted(d1, SyncOp(grants));
    SyncSingle([1], grants);
    var d := Step(d1, SyncOp(grants));
    assert Find(d.to, [1]) == 0 && Find(d.from, [1]) == 0;
    StepAccounted(d, DeleteTo([1], false));
  }

  lemma SyncSingle(a: Addr, grants: nat -> bool)
    requires grants(0)
    ensures Good([Entry(a, 1, 0, false)])
    ensures Sync([], [Entry(a, 1, 0, false)], 0, grants, 0)
         == ([Entry(a, 1, 0, false)], [Entry(a, 2, 0, true)], 0)
  {
    var from, to1 := [Entry(a, 1, 0, false)], [Entry(a, 1, 0, false)];
    assert Find([], a) == 0;
    assert [Entry(a, 1, 0, false)] + [] == to1;
    assert Add([], a, false, true) == (to1, 0);
    var marked := from[0 := Entry(a, 2, 0, true)];
    assert marked == [Entry(a, 2, 0, true)];
    assert Sync(to1, marked, 1, grants, 1) == (to1, marked, 0);
  }

  // ----- what a synchronisation is for -------------------------------------------------------

  /** One turn of the synchronisation. */
  lemma {:induction false} SyncTurn(to: seq<Entry>, from: seq<Entry>, i: nat, mem: nat -> bool, t: nat)
    requires Good(from) && i < |from|
    ensures Good(from[i := Marked(from[i])]) && (from[i].users == 1 ==> Good(Dropped(from, i)))
    ensures Sync(to, from, i, mem, t) ==
            var da := from[i];
            var (to1, err) := Add(to, da.addr, false, mem(t));
            if !da.synced then
              if err < 0 then (to1, from, err) else Sync(to1, from[i := Marked(da)], i + 1, mem, t + 1)
            else if da.users == 1 then Sync(Delete(to, da.addr, false).0, Dropped(from, i), i, mem, t + 1)
            else Sync(to, from, i + 1, mem, t + 1)
  {
    hide Add, Find;
    var da := from[i];
    if da.users == 1 {
      DeleteGood(from, da.addr, false);
      DeleteAt(from, i);
    }
    hide Delete;
  }

  /** The first n entries are marked and held by someone else. */
  predicate AllHeld(l: seq<Entry>, n: nat) {
    n <= |l| && forall k :: 0 <= k < n ==> l[k].synced && l[k].users >= 2
  }

  lemma HeldOneMore(from: seq<Entry>, i: nat)
    requires Good(from) && i < |from| && AllHeld(from, i)
    ensures AllHeld(from[i := Marked(from[i])], i + 1)
    ensures from[i].users == 1 ==> AllHeld(Dropped(from, i), i)
    ensures from[i].synced && from[i].users != 1 ==> AllHeld(from, i + 1)
  {
  }

  /** A synchronisation that runs to its end leaves every entry marked and held by someone else. */
  lemma {:induction false} SyncAll(to: seq<Entry>, from: seq<Entry>, i: nat, mem: nat -> bool, t: nat)
    requires Good(from) && AllHeld(from, i)
    ensures var (to1, from1, err) := Sync(to, from, i, mem, t); err == 0 ==> AllHeld(from1, |from1|)
    decreases |from| - i
  {
    if i < |from| {
      hide Add, Delete, Sync, Good, AllHeld;
      SyncTurn(to, from, i, mem, t);
      HeldOneMore(from, i);
      var da := from[i];
      if !da.synced {
        var (to1, err) := Add(to, da.addr, false, mem(t));
        if err >= 0 {
          SyncAll(to1, from[i := Marked(da)], i + 1, mem, t + 1);
        }
      } else if da.users == 1 {
        SyncAll(Delete(to, da.addr, false).0, Dropped(from, i), i, mem, t + 1);
      } else {
        SyncAll(to, from, i + 1, mem, t + 1);
      }
    }
  }

  /** After a synchronisation that succeeds, from any accounted state, an address is marked
      exactly while the upper list's users refer to it, and the lower list holds exactly the
      addresses that users of either list refer to. */
  lemma SyncMirrors(to: seq<Entry>, from: seq<Entry>, mem: nat -> bool, r: Refs, a: Addr)
    requires Balanced(to, from, r)
    ensures var (to1, from1, err) := Sync(to, from, 0, mem, 0);
            err == 0 ==>
              && (Synced(from1, a) <==> r.ownFrom(a) > 0 || r.globFrom(a))
              && (Find(from1, a) < |from1| <==> r.ownFrom(a) > 0 || r.globFrom(a))
              && (Find(to1, a) < |to1| <==> r.own(a) > 0 || r.glob(a) || r.ownFrom(a) > 0 || r.globFrom(a))
  {
    SyncBalanced(to, from, 0, mem, 0, r);
    SyncAll(to, from, 0, mem, 0);
    hide Sync;
    var (to1, from1, err) := Sync(to, from, 0, mem, 0);
    if err == 0 {
      assert BalancedAt(to1, from1, r, a);
      ListedIffUsed(to1, a);
      ListedIffUsed(from1, a);
    }
  }
}
