/** Device address lists in place: an intrusive list with its element count, and
    the loops of the four operations. */
module DevAddrList {
  import opened Util
  import opened DevAddr

  class AddrList {
    var list: seq<Entry>
    var count: int

    ghost predicate Valid()
      reads this
    {
      Good(list) && count == |list|
    }

    constructor ()
      ensures Valid() && list == []
    {
      list, count := [], 0;
    }

    /** The search both operations start with. */
    method Search(a: Addr) returns (k: nat)
      ensures k == Find(list, a)
    {
      k := 0;
      while k < |list| && list[k].addr != a
        invariant k <= |list|
        invariant forall j :: 0 <= j < k ==> list[j].addr != a
      {
        k := k + 1;
      }
      assert Find(list, a) == k;
    }

    /** __dev_addr_add. */
    method AddAddr(a: Addr, glbl: bool, mem: bool) returns (err: int)
      requires Valid()
      modifies this
      ensures Valid() && (list, err) == Add(old(list), a, glbl, mem)
    {
      AddGood(list, a, glbl, mem);
      var k := Search(a);
      if k < |list| {
        var da := list[k];
        if glbl {
          list := list[k := da.(gusers := 1)];
          if da.gusers != 0 {
            return 0;
          }
        }
        list := list[k := list[k].(users := list[k].users + 1)];
        assert list == old(list)[k := list[k]];
        return 0;
      }
      if !mem {
        return -ENOMEM;
      }
      list := [Entry(a, 1, if glbl then 1 else 0, false)] + list;
      count := count + 1;
      err := 0;
    }

    /** __dev_addr_delete. */
    method DeleteAddr(a: Addr, glbl: bool) returns (err: int)
      requires Valid()
      modifies this
      ensures Valid() && (list, err) == Delete(old(list), a, glbl)
    {
      DeleteGood(list, a, glbl);
      var k := Search(a);
      if k < |list| {
        var da := list[k];
        if glbl {
          list := list[k := da.(gusers := 0)];
          if da.gusers == 0 {
            return -ENOENT;
          }
        }
        var left := list[k].users - 1;
        if left != 0 {
          list := list[k := list[k].(users := left)];
          assert list == old(list)[k := list[k]];
          return 0;
        }
        list := list[..k] + list[k + 1..];
        assert list == old(list)[..k] + old(list)[k + 1..];
        count := count - 1;
        return 0;
      }
      err := -ENOENT;
    }
  }

  lemma AddError(l: seq<Entry>, a: Addr, mem: bool)
    ensures Add(l, a, false, mem).1 <= 0
  {
  }

  lemma MarkOneGood(l: seq<Entry>, i: nat)
    requires Good(l) && i < |l|
    ensures Good(l[i := l[i].(synced := true, users := l[i].users + 1)])
  {
  }

  lemma DeleteLast(l: seq<Entry>, i: nat)
    requires Good(l) && i < |l| && l[i].users == 1
    ensures |Delete(l, l[i].addr, false).0| == |l| - 1
  {
    FindAt(l, i);
  }

  /** __dev_addr_sync: the current entry is removed from the list it is on when
      only the synchronisation still refers to it. */
  method SyncLists(to: AddrList, from: AddrList, mem: nat -> bool) returns (err: int)
    requires to != from && to.Valid() && from.Valid()
    modifies to, from
    ensures to.Valid() && from.Valid()
    ensures (to.list, from.list, err) == Sync(old(to.list), old(from.list), 0, mem, 0)
  {
    hide Add, Delete, Find, Good;
    err := 0;
    var i, t := 0, 0;
    while i < |from.list|
      invariant to.Valid() && from.Valid() && i <= |from.list| && err == 0
      invariant Sync(to.list, from.list, i, mem, t) == Sync(old(to.list), old(from.list), 0, mem, 0)
      decreases |from.list| - i
    {
      var da := from.list[i];
      if !da.synced {
        AddError(to.list, da.addr, mem(t));
        MarkOneGood(from.list, i);
        err := to.AddAddr(da.addr, false, mem(t));
        if err < 0 {
          break;
        }
        from.list := from.list[i := da.(synced := true, users := da.users + 1)];
        i := i + 1;
      } else if da.users == 1 {
        DeleteLast(from.list, i);
        var _ := to.DeleteAddr(da.addr, false);
        var _ := from.DeleteAddr(da.addr, false);
      } else {
        i := i + 1;
      }
      t := t + 1;
    }
  }

  /** __dev_addr_unsync. */
  method UnsyncLists(to: AddrList, from: AddrList)
    requires to != from && to.Valid() && from.Valid()
    modifies to, from
    ensures to.Valid() && from.Valid()
    ensures (to.list, from.list) == Unsync(old(to.list), old(from.list), 0)
  {
    var i := 0;
    while i < |from.list|
      invariant to.Valid() && from.Valid() && i <= |from.list|
      invariant Unsync(to.list, from.list, i) == Unsync(old(to.list), old(from.list), 0)
      decreases |from.list| - i
    {
      var da := from.list[i];
      if da.synced {
        var n := |from.list|;
        var _ := to.DeleteAddr(da.addr, false);
        from.list := from.list[i := da.(synced := false)];
        FindAt(from.list, i);
        var _ := from.DeleteAddr(da.addr, false);
        i := if |from.list| < n then i else i + 1;
      } else {
        i := i + 1;
      }
    }
  }

  /** A synchronisation undone leaves both lists and both counts as they were. */
  method SyncThenUnsync(to: AddrList, from: AddrList, mem: nat -> bool)
    requires to != from && to.Valid() && from.Valid() && NoneSynced(from.list, 0)
    modifies to, from
    ensures to.list == old(to.list) && from.list == old(from.list)
    ensures to.count == old(to.count) && from.count == old(from.count)
  {
    SyncUnsyncRestores(to.list, from.list, mem);
    var _ := SyncLists(to, from, mem);
    UnsyncLists(to, from);
  }
}
