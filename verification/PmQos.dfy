/** PM QoS parameters: a list of named requirements and a cached aggregate, the
    extreme of the default and all requirements.  A request edits the list in one
    critical section and recomputes the aggregate in a second one, and tells the
    watchers outside any; requests of different threads interleave. */
module PmQos {
  import opened Util

  const DEFAULT_VALUE: int := -1

  datatype Req = Req(name: string, value: int)

  /** min_compare and max_compare. */
  datatype Kind = Smallest | Largest

  function Compare(kind: Kind, a: int, b: int): int {
    match kind
    case Smallest => if a < b then a else b
    case Largest => if a > b then a else b
  }

  /** The aggregate, as the loop of update_target computes it. */
  function Extreme(kind: Kind, default: int, reqs: seq<Req>): int {
    if reqs == [] then default
    else Compare(kind, Extreme(kind, default, reqs[..|reqs| - 1]), reqs[|reqs| - 1].value)
  }

  // ----- what the aggregate means ------------------------------------------------------

  predicate Beats(kind: Kind, a: int, b: int) {
    match kind
    case Smallest => a <= b
    case Largest => a >= b
  }

  /** v is one of the default and the requirements, and none of them is stricter. */
  predicate IsExtreme(kind: Kind, default: int, reqs: seq<Req>, v: int) {
    && (v == default || exists k :: 0 <= k < |reqs| && reqs[k].value == v)
    && Beats(kind, v, default)
    && (forall k :: 0 <= k < |reqs| ==> Beats(kind, v, reqs[k].value))
  }

  lemma {:induction false} ExtremeIs(kind: Kind, default: int, reqs: seq<Req>)
    ensures IsExtreme(kind, default, reqs, Extreme(kind, default, reqs))
  {
    if reqs != [] {
      var n := |reqs| - 1;
      ExtremeIs(kind, default, reqs[..n]);
      var v := Extreme(kind, default, reqs[..n]);
      if v != default {
        var k :| 0 <= k < n && reqs[..n][k].value == v;
        assert reqs[k].value == v;
      }
      assert forall k :: 0 <= k < n ==> reqs[..n][k] == reqs[k];
    }
  }

  lemma ExtremeUnique(kind: Kind, default: int, reqs: seq<Req>, v: int, w: int)
    requires IsExtreme(kind, default, reqs, v) && IsExtreme(kind, default, reqs, w)
    ensures v == w
  {
  }

  /** The aggregate does not depend on the order of the list. */
  lemma OrderIrrelevant(kind: Kind, default: int, a: seq<Req>, b: seq<Req>)
    requires multiset(a) == multiset(b)
    ensures Extreme(kind, default, a) == Extreme(kind, default, b)
  {
    ExtremeIs(kind, default, a);
    ExtremeIs(kind, default, b);
    var v := Extreme(kind, default, a);
    assert forall r :: r in a <==> r in multiset(a);
    assert forall r :: r in b <==> r in multiset(b);
    if v != default {
      var k :| 0 <= k < |a| && a[k].value == v;
      assert a[k] in b;
    }
    forall k | 0 <= k < |b| ensures Beats(kind, v, b[k].value) {
      assert b[k] in a;
    }
    assert IsExtreme(kind, default, b, v);
    ExtremeUnique(kind, default, b, v, Extreme(kind, default, b));
  }

  // ----- edits of the list -------------------------------------------------------------

  function Value(default: int, v: int): int {
    if v == DEFAULT_VALUE then default else v
  }

  /** Position of the first requirement of that name. */
  function Named(reqs: seq<Req>, name: string): (k: nat)
    ensures k <= |reqs|
    ensures k < |reqs| ==> reqs[k].name == name
    ensures forall j :: 0 <= j < k ==> reqs[j].name != name
  {
    First(reqs, (r: Req) => r.name == name)
  }

  datatype Request =
    | AddReq(name: string, value: int, mem: bool)
    | UpdateReq(name: string, value: int)
    | RemoveReq(name: string)

  /** The first critical section: the new list, and whether an update is due. */
  function Edit(default: int, reqs: seq<Req>, r: Request): (seq<Req>, bool) {
    match r
    case AddReq(name, v, mem) =>
      if mem then ([Req(name, Value(default, v))] + reqs, true) else (reqs, false)
    case UpdateReq(name, v) =>
      var k := Named(reqs, name);
      if k < |reqs| then (reqs[k := Req(name, Value(default, v))], true) else (reqs, false)
    case RemoveReq(name) =>
      var k := Named(reqs, name);
      if k < |reqs| then (reqs[..k] + reqs[k + 1..], true) else (reqs, false)
  }

  /** The values required under a name, the latest first. */
  function Values(reqs: seq<Req>, name: string): seq<int> {
    if reqs == [] then [] else
    var rest := Values(reqs[1..], name);
    if reqs[0].name == name then [reqs[0].value] + rest else rest
  }

  lemma {:induction false} ValuesConcat(a: seq<Req>, b: seq<Req>, name: string)
    ensures Values(a + b, name) == Values(a, name) + Values(b, name)
  {
    if a == [] {
      assert a + b == b;
    } else {
      ValuesConcat(a[1..], b, name);
      assert (a + b)[1..] == a[1..] + b;
    }
  }

  lemma {:induction false} NoValues(reqs: seq<Req>, name: string)
    requires forall j :: 0 <= j < |reqs| ==> reqs[j].name != name
    ensures Values(reqs, name) == []
  {
    if reqs != [] {
      NoValues(reqs[1..], name);
    }
  }

  /** The values of a list around its first requirement of some name. */
  lemma ValuesAround(reqs: seq<Req>, k: nat, mid: seq<Req>, name: string)
    requires k < |reqs| && |mid| <= 1
    ensures Values(reqs[..k] + mid + reqs[k + 1..], name)
         == Values(reqs[..k], name)
            + (if mid != [] && mid[0].name == name then [mid[0].value] else [])
            + Values(reqs[k + 1..], name)
  {
    hide Values;
    ValuesConcat(reqs[..k] + mid, reqs[k + 1..], name);
    ValuesConcat(reqs[..k], mid, name);
    ValuesOfOne(mid, name);
  }

  lemma ValuesOfOne(mid: seq<Req>, name: string)
    requires |mid| <= 1
    ensures Values(mid, name) == if mid != [] && mid[0].name == name then [mid[0].value] else []
  {
    assert mid != [] ==> Values(mid[1..], name) == [];
  }

  /** Each name is a stack of values: adding pushes one, updating replaces the top,
      removing pops it, and a name nobody requires is left alone.  No request
      touches another name, and a recomputation is due exactly if the request
      found something to do. */
  lemma EditStacks(default: int, reqs: seq<Req>, r: Request, name: string)
    ensures var (after, due) := Edit(default, reqs, r);
            var old', new' := Values(reqs, name), Values(after, name);
            && (r.name != name ==> new' == old')
            && (r.name == name ==>
                  match r
                  case AddReq(_, v, mem) =>
                    && due == mem
                    && new' == if mem then [if v == DEFAULT_VALUE then default else v] + old' else old'
                  case UpdateReq(_, v) =>
                    && due == (old' != [])
                    && new' == if due then [if v == DEFAULT_VALUE then default else v] + old'[1..] else old'
                  case RemoveReq(_) =>
                    due == (old' != []) && new' == if due then old'[1..] else old')
  {
    hide Values;
    match r
    case AddReq(n, v, mem) =>
      ValuesConcat([Req(n, Value(default, v))], reqs, name);
      ValuesOfOne([Req(n, Value(default, v))], name);
    case UpdateReq(n, v) =>
      var k, q := Named(reqs, n), Req(n, Value(default, v));
      EditAround(reqs, n, [q], name);
      assert k < |reqs| ==> reqs[k := q] == reqs[..k] + [q] + reqs[k + 1..];
    case RemoveReq(n) =>
      var k := Named(reqs, n);
      EditAround(reqs, n, [], name);
      assert k < |reqs| ==> reqs[..k] + reqs[k + 1..] == reqs[..k] + [] + reqs[k + 1..];
  }

  lemma EditAround(reqs: seq<Req>, n: string, mid: seq<Req>, name: string)
    requires |mid| <= 1 && (mid != [] ==> mid[0].name == n)
    ensures var k, old' := Named(reqs, n), Values(reqs, name);
            if k == |reqs| then n == name ==> old' == []
            else if n != name then Values(reqs[..k] + mid + reqs[k + 1..], name) == old'
            else && old' != []
                 && Values(reqs[..k] + mid + reqs[k + 1..], name)
                    == (if mid != [] then [mid[0].value] else []) + old'[1..]
  {
    hide Values;
    var k := Named(reqs, n);
    if k < |reqs| {
      ValuesAround(reqs, k, mid, name);
      ValuesAround(reqs, k, [reqs[k]], name);
      assert reqs == reqs[..k] + [reqs[k]] + reqs[k + 1..];
      if n == name {
        NoValues(reqs[..k], name);
      }
    } else if n == name {
      NoValues(reqs, name);
    }
  }

  /** Removing takes one requirement off the list, the latest of that name. */
  lemma RemoveTakesOne(default: int, reqs: seq<Req>, name: string)
    requires Values(reqs, name) != []
    ensures multiset(reqs) == multiset(Edit(default, reqs, RemoveReq(name)).0)
                              + multiset{Req(name, Values(reqs, name)[0])}
  {
    hide Values;
    var k := LatestAt(reqs, name);
    assert reqs == reqs[..k] + [reqs[k]] + reqs[k + 1..];
    OneApart(reqs[..k], reqs[k], reqs[k + 1..]);
  }

  lemma LatestAt(reqs: seq<Req>, name: string) returns (k: nat)
    requires Values(reqs, name) != []
    ensures k == Named(reqs, name) < |reqs| && reqs[k] == Req(name, Values(reqs, name)[0])
  {
    hide Values;
    EditAround(reqs, name, [], name);
    k := Named(reqs, name);
    ValuesAround(reqs, k, [reqs[k]], name);
    NoValues(reqs[..k], name);
    assert reqs == reqs[..k] + [reqs[k]] + reqs[k + 1..];
  }

  lemma OneApart<T>(a: seq<T>, x: T, b: seq<T>)
    ensures multiset(a + [x] + b) == multiset(a + b) + multiset{x}
  {
  }

  /** Adding a requirement and removing it restores the list and the aggregate. */
  lemma AddRemove(kind: Kind, default: int, reqs: seq<Req>, name: string, v: int)
    ensures var added := Edit(default, reqs, AddReq(name, v, true)).0;
            var (after, due) := Edit(default, added, RemoveReq(name));
            due && after == reqs && Extreme(kind, default, after) == Extreme(kind, default, reqs)
  {
    var added := Edit(default, reqs, AddReq(name, v, true)).0;
    assert added[0].name == name && Named(added, name) == 0;
    assert added[..0] + added[1..] == reqs;
  }

  /** A requirement of the default value leaves the aggregate alone. */
  lemma DefaultNeutral(kind: Kind, default: int, reqs: seq<Req>, name: string)
    ensures Extreme(kind, default, Edit(default, reqs, AddReq(name, DEFAULT_VALUE, true)).0)
         == Extreme(kind, default, reqs)
  {
    var after := Edit(default, reqs, AddReq(name, DEFAULT_VALUE, true)).0;
    var v := Extreme(kind, default, reqs);
    ExtremeIs(kind, default, reqs);
    ExtremeIs(kind, default, after);
    assert IsExtreme(kind, default, after, v) by {
      assert forall k :: 0 < k < |after| ==> after[k] == reqs[k - 1];
      if v != default {
        var k :| 0 <= k < |reqs| && reqs[k].value == v;
        assert after[k + 1].value == v;
      }
    }
    ExtremeUnique(kind, default, after, v, Extreme(kind, default, after));
  }

  // ----- interleaved threads -----------------------------------------------------------

  /** Where a thread is: outside, between its edit and its recomputation, or about
      to tell the watchers a new value. */
  datatype Pc = Idle | Edited | Notify(value: int)

  /** One parameter and the threads working on it.  `changes` lists the values the
      aggregate was set to, `told` those announced to the watchers. */
  datatype State = State(
    kind: Kind, default: int, reqs: seq<Req>, target: int,
    pcs: seq<Pc>, changes: seq<int>, told: seq<int>)

  datatype Action = Begin(t: nat, r: Request) | Recompute(t: nat) | Tell(t: nat)

  /** One atomic section of one thread; one that is not due changes nothing. */
  function Step(s: State, a: Action): State {
    if a.t >= |s.pcs| then s else
    match a
    case Begin(t, r) =>
      if !s.pcs[t].Idle? then s else
      var (reqs, due) := Edit(s.default, s.reqs, r);
      s.(reqs := reqs, pcs := s.pcs[t := if due then Edited else Idle])
    case Recompute(t) =>
      if !s.pcs[t].Edited? then s else
      var v := Extreme(s.kind, s.default, s.reqs);
      if s.target != v then s.(target := v, pcs := s.pcs[t := Notify(v)], changes := s.changes + [v])
      else s.(pcs := s.pcs[t := Idle])
    case Tell(t) =>
      if !s.pcs[t].Notify? then s else
      s.(pcs := s.pcs[t := Idle], told := s.told + [s.pcs[t].value])
  }

  function Own(pc: Pc): multiset<int> {
    if pc.Notify? then multiset{pc.value} else multiset{}
  }

  /** Values changed to and not yet announced. */
  function Outstanding(pcs: seq<Pc>): multiset<int> {
    if pcs == [] then multiset{}
    else Outstanding(pcs[..|pcs| - 1]) + Own(pcs[|pcs| - 1])
  }

  lemma {:induction false} OutstandingUpdate(pcs: seq<Pc>, t: nat, pc: Pc)
    requires t < |pcs|
    ensures Outstanding(pcs[t := pc]) + Own(pcs[t]) == Outstanding(pcs) + Own(pc)
  {
    hide Own;
    var n := |pcs| - 1;
    if t == n {
      assert pcs[t := pc][..n] == pcs[..n];
    } else {
      assert pcs[t := pc][..n] == pcs[..n][t := pc];
      OutstandingUpdate(pcs[..n], t, pc);
      Shuffle(Outstanding(pcs[..n][t := pc]), Own(pcs[t]), Outstanding(pcs[..n]), Own(pc), Own(pcs[n]));
    }
  }

  lemma Shuffle(a: multiset<int>, b: multiset<int>, c: multiset<int>, d: multiset<int>, e: multiset<int>)
    requires a + b == c + d
    ensures a + e + b == c + e + d
  {
    assert a + e + b == (a + b) + e && c + e + d == (c + d) + e;
  }

  lemma OutstandingCases(pcs: seq<Pc>, t: nat, pc: Pc)
    requires t < |pcs|
    ensures !pcs[t].Notify? && !pc.Notify? ==> Outstanding(pcs[t := pc]) == Outstanding(pcs)
    ensures !pcs[t].Notify? && pc.Notify? ==>
              Outstanding(pcs[t := pc]) == Outstanding(pcs) + multiset{pc.value}
    ensures pcs[t].Notify? && !pc.Notify? ==>
              Outstanding(pcs) == Outstanding(pcs[t := pc]) + multiset{pcs[t].value}
  {
    OutstandingUpdate(pcs, t, pc);
    hide Outstanding;
    assert forall m: multiset<int> :: m + multiset{} == m;
  }

  function Last(changes: seq<int>, default: int): int {
    if changes == [] then default else changes[|changes| - 1]
  }

  /** Some thread still owes a recomputation. */
  predicate Pending(s: State) {
    exists t :: 0 <= t < |s.pcs| && s.pcs[t].Edited?
  }

  /** Every change has been announced or is about to be. */
  predicate Announced(s: State) {
    multiset(s.changes) == multiset(s.told) + Outstanding(s.pcs)
  }

  predicate Inv(s: State) {
    && (s.target == Extreme(s.kind, s.default, s.reqs) || Pending(s))
    && s.target == Last(s.changes, s.default)
    && Announced(s)
    && (forall k :: 0 < k < |s.changes| ==> s.changes[k] != s.changes[k - 1])
  }

  lemma EditKeeps(default: int, reqs: seq<Req>, r: Request)
    ensures var (reqs', due) := Edit(default, reqs, r); !due ==> reqs' == reqs
  {
  }

  lemma Regroup(a: multiset<int>, b: multiset<int>, v: int)
    ensures a + (b + multiset{v}) == (a + b) + multiset{v} == (a + multiset{v}) + b
  {
  }

  lemma BeginAnnounces(s: State, t: nat, r: Request)
    requires Announced(s) && t < |s.pcs| && s.pcs[t].Idle?
    ensures Announced(Step(s, Begin(t, r)))
  {
    OutstandingCases(s.pcs, t, Edited);
    OutstandingCases(s.pcs, t, Idle);
    hide Outstanding, Edit;
  }

  lemma RecomputeAnnounces(s: State, t: nat)
    requires Announced(s) && t < |s.pcs| && s.pcs[t].Edited?
    ensures Announced(Step(s, Recompute(t)))
  {
    hide Outstanding, Extreme;
    var v := Extreme(s.kind, s.default, s.reqs);
    OutstandingCases(s.pcs, t, Notify(v));
    OutstandingCases(s.pcs, t, Idle);
    Regroup(multiset(s.told), Outstanding(s.pcs), v);
    assert multiset(s.changes + [v]) == multiset(s.changes) + multiset{v};
  }

  lemma TellAnnounces(s: State, t: nat)
    requires Announced(s) && t < |s.pcs| && s.pcs[t].Notify?
    ensures Announced(Step(s, Tell(t)))
  {
    hide Outstanding;
    var v := s.pcs[t].value;
    OutstandingCases(s.pcs, t, Idle);
    Regroup(multiset(s.told), Outstanding(s.pcs[t := Idle]), v);
    assert multiset(s.told + [v]) == multiset(s.told) + multiset{v};
  }

  lemma BeginKeeps(s: State, t: nat, r: Request)
    requires Inv(s) && t < |s.pcs| && s.pcs[t].Idle?
    ensures Inv(Step(s, Begin(t, r)))
  {
    var s' := Step(s, Begin(t, r));
    EditKeeps(s.default, s.reqs, r);
    BeginAnnounces(s, t, r);
    hide Edit, Extreme, Announced;
    assert s'.pcs[t].Edited? ==> Pending(s');
    if Pending(s) {
      var w :| 0 <= w < |s.pcs| && s.pcs[w].Edited?;
      assert s'.pcs[w].Edited?;
    }
  }

  lemma RecomputeKeeps(s: State, t: nat)
    requires Inv(s) && t < |s.pcs| && s.pcs[t].Edited?
    ensures Inv(Step(s, Recompute(t)))
  {
    RecomputeAnnounces(s, t);
    hide Extreme, Announced;
  }

  lemma TellKeeps(s: State, t: nat)
    requires Inv(s) && t < |s.pcs| && s.pcs[t].Notify?
    ensures Inv(Step(s, Tell(t)))
  {
    var s' := Step(s, Tell(t));
    TellAnnounces(s, t);
    hide Extreme, Announced;
    if Pending(s) {
      var w :| 0 <= w < |s.pcs| && s.pcs[w].Edited?;
      assert s'.pcs[w].Edited?;
    }
  }

  lemma StepKeeps(s: State, a: Action)
    requires Inv(s)
    ensures Inv(Step(s, a))
  {
    hide Inv;
    if a.t < |s.pcs| {
      match a
      case Begin(t, r) => if s.pcs[t].Idle? { BeginKeeps(s, t, r); }
      case Recompute(t) => if s.pcs[t].Edited? { RecomputeKeeps(s, t); }
      case Tell(t) => if s.pcs[t].Notify? { TellKeeps(s, t); }
    }
  }

  function Run(s: State, actions: seq<Action>): State
    decreases |actions|
  {
    if actions == [] then s else Run(Step(s, actions[0]), actions[1..])
  }

  lemma {:induction false} RunKeeps(s: State, actions: seq<Action>)
    requires Inv(s)
    ensures Inv(Run(s, actions))
    decreases |actions|
  {
    if actions != [] {
      StepKeeps(s, actions[0]);
      RunKeeps(Step(s, actions[0]), actions[1..]);
    }
  }

  /** No requirements, nobody at work, the aggregate at its default. */
  function Initial(kind: Kind, default: int, threads: nat): State {
    State(kind, default, [], default, seq(threads, _ => Idle), [], [])
  }

  lemma {:induction false} NothingOutstanding(pcs: seq<Pc>)
    requires forall t :: 0 <= t < |pcs| ==> !pcs[t].Notify?
    ensures Outstanding(pcs) == multiset{}
  {
    if pcs != [] {
      NothingOutstanding(pcs[..|pcs| - 1]);
    }
  }

  /** Under every interleaving: the aggregate is the extreme of the default and
      the requirements unless some thread is between its edit and its
      recomputation; every value it is set to is announced exactly once, and all
      of them have been once no thread is about to. */
  lemma QuiescentConsistency(kind: Kind, default: int, threads: nat, actions: seq<Action>)
    ensures var s := Run(Initial(kind, default, threads), actions);
            && (!Pending(s) ==> IsExtreme(s.kind, s.default, s.reqs, s.target))
            && s.target == Last(s.changes, s.default)
            && multiset(s.told) <= multiset(s.changes)
            && ((forall t :: 0 <= t < |s.pcs| ==> !s.pcs[t].Notify?) ==>
                  multiset(s.told) == multiset(s.changes))
  {
    var s0 := Initial(kind, default, threads);
    NothingOutstanding(s0.pcs);
    RunKeeps(s0, actions);
    var s := Run(s0, actions);
    hide Run;
    ExtremeIs(s.kind, s.default, s.reqs);
    if forall t :: 0 <= t < |s.pcs| ==> !s.pcs[t].Notify? {
      NothingOutstanding(s.pcs);
    }
  }

  // ----- a thread's own edit -------------------------------------------------------------------

  /** The list after these requests. */
  function Edits(default: int, reqs: seq<Req>, rs: seq<Request>): seq<Req>
    decreases |rs|
  {
    if rs == [] then reqs else Edits(default, Edit(default, reqs, rs[0]).0, rs[1..])
  }

  /** The requests whose first section runs among these actions. */
  function Begun(s: State, actions: seq<Action>): seq<Request>
    decreases |actions|
  {
    if actions == [] then [] else
    var a := actions[0];
    var rest := Begun(Step(s, a), actions[1..]);
    if a.Begin? && a.t < |s.pcs| && s.pcs[a.t].Idle? then [a.r] + rest else rest
  }

  /** The list only changes by requests, and a thread waits while the others go on. */
  lemma {:induction false} OthersRun(s: State, t: nat, actions: seq<Action>)
    requires t < |s.pcs| && s.pcs[t].Edited? && forall a :: a in actions ==> a.t != t
    ensures var e := Run(s, actions);
            && t < |e.pcs| && e.pcs[t].Edited? && e.kind == s.kind && e.default == s.default
            && e.reqs == Edits(s.default, s.reqs, Begun(s, actions))
    decreases |actions|
  {
    if actions != [] {
      hide Edit, Extreme;
      var a := actions[0];
      assert a in actions;
      var rest := Begun(Step(s, a), actions[1..]);
      OthersRun(Step(s, a), t, actions[1..]);
      if a.Begin? && a.t < |s.pcs| && s.pcs[a.t].Idle? {
        assert ([a.r] + rest)[1..] == rest;
      }
    }
  }

  /** The request does not touch requirements of this name that are there already. */
  predicate Spares(r: Request, name: string) {
    r.AddReq? || r.name != name
  }

  lemma EditSpares(default: int, reqs: seq<Req>, r: Request, q: Req)
    requires q in reqs && Spares(r, q.name)
    ensures q in Edit(default, reqs, r).0
  {
    var k :| 0 <= k < |reqs| && reqs[k] == q;
    var after := Edit(default, reqs, r).0;
    match r
    case AddReq(_, _, mem) =>
      if mem {
        assert after[k + 1] == q;
      }
    case UpdateReq(name, _) =>
      assert after[k] == q;
    case RemoveReq(name) =>
      var n := Named(reqs, name);
      if n < |reqs| {
        assert after[if k < n then k else k - 1] == q;
      }
  }

  lemma {:induction false} EditsSpare(default: int, reqs: seq<Req>, rs: seq<Request>, q: Req)
    requires q in reqs && forall r :: r in rs ==> Spares(r, q.name)
    ensures q in Edits(default, reqs, rs)
    decreases |rs|
  {
    hide Edit;
    if rs != [] {
      assert rs[0] in rs;
      EditSpares(default, reqs, rs[0], q);
      EditsSpare(default, Edit(default, reqs, rs[0]).0, rs[1..], q);
    }
  }

  /** From a thread's edit to its recomputation, whatever the other threads do in between: the
      list recomputed over is its own edit followed by theirs, and a value it added or updated
      that none of them updated or removed is met by the new aggregate. */
  lemma OwnEditCounts(s: State, t: nat, r: Request, actions: seq<Action>)
    requires t < |s.pcs| && s.pcs[t].Idle? && Edit(s.default, s.reqs, r).1
    requires forall a :: a in actions ==> a.t != t
    ensures var s1 := Step(s, Begin(t, r));
            var e := Step(Run(s1, actions), Recompute(t));
            var others := Begun(s1, actions);
            && e.reqs == Edits(s.default, Edit(s.default, s.reqs, r).0, others)
            && IsExtreme(s.kind, s.default, e.reqs, e.target)
            && (!r.RemoveReq? && (forall o :: o in others ==> Spares(o, r.name)) ==>
                  Beats(s.kind, e.target, Value(s.default, r.value)))
  {
    var s1 := Step(s, Begin(t, r));
    OthersRun(s1, t, actions);
    var before := Run(s1, actions);
    ExtremeIs(s.kind, s.default, before.reqs);
    hide Run, Extreme;
    var others := Begun(s1, actions);
    if !r.RemoveReq? && forall o :: o in others ==> Spares(o, r.name) {
      var q := Req(r.name, Value(s.default, r.value));
      assert s1.reqs[if r.AddReq? then 0 else Named(s.reqs, r.name)] == q;
      EditsSpare(s.default, s1.reqs, others, q);
      var k :| 0 <= k < |before.reqs| && before.reqs[k] == q;
    }
  }

  /** Two requests that each tighten the minimum, both recomputed and neither announced. */
  lemma BothRecomputed(default: int, a: int, b: int)
    requires b < a < default && a != DEFAULT_VALUE && b != DEFAULT_VALUE
    ensures var s1 := Step(Initial(Smallest, default, 2), Begin(0, AddReq("a", a, true)));
            var s3 := Step(Step(s1, Recompute(0)), Begin(1, AddReq("b", b, true)));
            var s := Step(s3, Recompute(1));
            s.target == b && s.pcs == [Notify(a), Notify(b)] && s.changes == [a, b] && s.told == []
  {
    var s1 := Step(Initial(Smallest, default, 2), Begin(0, AddReq("a", a, true)));
    var s2 := Step(s1, Recompute(0));
    ExtremeIs(Smallest, default, s1.reqs);
    assert s1.reqs[0].value == a;
    assert s2.target == a;
    var s3 := Step(s2, Begin(1, AddReq("b", b, true)));
    ExtremeIs(Smallest, default, s3.reqs);
    assert s3.reqs[0].value == b && s3.reqs[1].value == a;
    hide Extreme;
  }

  /** The order of announcements need not be that of the changes: everyone is done, the
      aggregate is the smaller requirement, and the watchers were last told the larger one. */
  lemma LeftBehind(default: int, a: int, b: int)
    requires b < a < default && a != DEFAULT_VALUE && b != DEFAULT_VALUE
    ensures var s := Run(Initial(Smallest, default, 2),
                         [Begin(0, AddReq("a", a, true)), Recompute(0),
                          Begin(1, AddReq("b", b, true)), Recompute(1), Tell(1), Tell(0)]);
            && s.pcs == [Idle, Idle] && s.told == [b, a]
            && s.target == b && IsExtreme(s.kind, s.default, s.reqs, b)
            && Last(s.told, s.default) != s.target
  {
    hide Step, Run, Extreme, IsExtreme;
    BothRecomputed(default, a, b);
    var s0 := Initial(Smallest, default, 2);
    var first := [Begin(0, AddReq("a", a, true)), Recompute(0), Begin(1, AddReq("b", b, true)), Recompute(1)];
    var s := Step(Step(Step(Step(s0, first[0]), first[1]), first[2]), first[3]);
    RunFour(s0, first, [Tell(1), Tell(0)]);
    TellTwo(s);
    var all := [Begin(0, AddReq("a", a, true)), Recompute(0), Begin(1, AddReq("b", b, true)), Recompute(1),
                Tell(1), Tell(0)];
    assert first + [Tell(1), Tell(0)] == all;
    QuiescentConsistency(Smallest, default, 2, all);
  }

  lemma RunFour(s: State, a: seq<Action>, rest: seq<Action>)
    requires |a| == 4
    ensures Run(s, a + rest) == Run(Step(Step(Step(Step(s, a[0]), a[1]), a[2]), a[3]), rest)
  {
    hide Step, Run;
    assert a + rest == [a[0]] + ([a[1]] + ([a[2]] + ([a[3]] + rest)));
    RunOne(s, a[0], [a[1]] + ([a[2]] + ([a[3]] + rest)));
    RunOne(Step(s, a[0]), a[1], [a[2]] + ([a[3]] + rest));
    RunOne(Step(Step(s, a[0]), a[1]), a[2], [a[3]] + rest);
    RunOne(Step(Step(Step(s, a[0]), a[1]), a[2]), a[3], rest);
  }

  lemma RunOne(s: State, a: Action, rest: seq<Action>)
    ensures Run(s, [a] + rest) == Run(Step(s, a), rest)
  {
    hide Step;
    assert ([a] + rest)[0] == a && ([a] + rest)[1..] == rest;
  }

  lemma TellTwo(s: State)
    requires |s.pcs| == 2 && s.pcs[0].Notify? && s.pcs[1].Notify?
    ensures Run(s, [Tell(1), Tell(0)])
         == s.(pcs := [Idle, Idle], told := s.told + [s.pcs[1].value, s.pcs[0].value])
  {
    assert [Tell(1), Tell(0)][1..] == [Tell(0)] && [Tell(0)][1..] == [];
    var s1 := Step(s, Tell(1));
    var s2 := Step(s1, Tell(0));
    assert s2.pcs == [Idle, Idle];
    assert Run(s, [Tell(1), Tell(0)]) == Run(s1, [Tell(0)]) == Run(s2, []) == s2;
  }

  // ----- when the watchers keep up ---------------------------------------------------------

  /** No thread is about to tell the watchers. */
  predicate Quiet(pcs: seq<Pc>) {
    forall t :: 0 <= t < |pcs| ==> !pcs[t].Notify?
  }

  /** Thread t is the only one about to. */
  predicate Calling(pcs: seq<Pc>, t: nat) {
    t < |pcs| && pcs[t].Notify? && forall u :: 0 <= u < |pcs| && u != t ==> !pcs[u].Notify?
  }

  // ----- the calls that are left, in any order -----------------------------------------------

  /** The threads about to tell the watchers, each once, in some order. */
  predicate Callers(pcs: seq<Pc>, order: seq<nat>) {
    && Distinct(order)
    && (forall t :: t in order ==> t < |pcs| && pcs[t].Notify?)
    && (forall t: nat :: t < |pcs| && pcs[t].Notify? ==> t in order)
  }

  function Tells(order: seq<nat>): (r: seq<Action>)
    ensures |r| == |order|
  {
    seq(|order|, k requires 0 <= k < |order| => Tell(order[k]))
  }

  /** After all of them the watchers have last heard the value of the last caller. */
  lemma {:induction false} LastCaller(s: State, order: seq<nat>)
    requires Callers(s.pcs, order) && order != []
    ensures order[|order| - 1] in order && order[|order| - 1] < |s.pcs|
    ensures var e := Run(s, Tells(order));
            && Quiet(e.pcs) && e.target == s.target && e.reqs == s.reqs && e.default == s.default
            && Last(e.told, s.default) == s.pcs[order[|order| - 1]].value
    decreases |order|
  {
    var t, rest := order[0], order[1..];
    var s1 := Step(s, Tell(t));
    assert Tells(order)[0] == Tell(t) && Tells(order)[1..] == Tells(rest);
    assert t in order;
    assert order == [t] + rest;
    if rest == [] {
      assert Run(s1, Tells(rest)) == s1;
      assert forall u: nat :: u < |s.pcs| && s.pcs[u].Notify? ==> u in order;
    } else {
      FewerCallers(s.pcs, order);
      assert rest[|rest| - 1] == order[|order| - 1] && order[|order| - 1] in order;
      assert t != order[|order| - 1];
      LastCaller(s1, rest);
    }
  }

  lemma FewerCallers(pcs: seq<Pc>, order: seq<nat>)
    requires Callers(pcs, order) && order != []
    ensures order[0] < |pcs| && Callers(pcs[order[0] := Idle], order[1..])
  {
    var t, rest := order[0], order[1..];
    assert t in order;
    assert order == [t] + rest;
    forall u | u in rest ensures u < |pcs| && pcs[t := Idle][u].Notify? {
      assert u in order;
      var k :| 0 <= k < |rest| && rest[k] == u;
      assert order[k + 1] == u;
    }
  }

  /** The callers of the first n threads, without thread t. */
  function Others(pcs: seq<Pc>, n: nat, t: nat): seq<nat>
    requires n <= |pcs|
  {
    if n == 0 then []
    else if pcs[n - 1].Notify? && n - 1 != t then Others(pcs, n - 1, t) + [n - 1]
    else Others(pcs, n - 1, t)
  }

  lemma {:induction false} OthersAre(pcs: seq<Pc>, n: nat, t: nat)
    requires n <= |pcs|
    ensures Distinct(Others(pcs, n, t))
    ensures forall u: nat :: u in Others(pcs, n, t) <==> u < n && pcs[u].Notify? && u != t
  {
    if n > 0 {
      OthersAre(pcs, n - 1, t);
    }
  }

  /** Thread t can be the last to call. */
  lemma CanBeLast(pcs: seq<Pc>, t: nat)
    requires t < |pcs| && pcs[t].Notify?
    ensures Callers(pcs, Others(pcs, |pcs|, t) + [t])
  {
    OthersAre(pcs, |pcs|, t);
  }

  /** With calls outstanding, the watchers end up knowing the aggregate whatever the order of
      the calls, if and only if every outstanding value is the aggregate. */
  lemma KeepUpIff(s: State)
    requires !Quiet(s.pcs)
    ensures (forall order :: Callers(s.pcs, order) ==> Last(Run(s, Tells(order)).told, s.default) == s.target)
            <==> (forall t :: 0 <= t < |s.pcs| && s.pcs[t].Notify? ==> s.pcs[t].value == s.target)
  {
    hide Run, Tells;
    if forall t :: 0 <= t < |s.pcs| && s.pcs[t].Notify? ==> s.pcs[t].value == s.target {
      forall order | Callers(s.pcs, order)
        ensures Last(Run(s, Tells(order)).told, s.default) == s.target
      {
        var t :| 0 <= t < |s.pcs| && s.pcs[t].Notify?;
        assert t in order;
        assert order[|order| - 1] in order;
        LastCaller(s, order);
      }
    } else {
      var t: nat :| t < |s.pcs| && s.pcs[t].Notify? && s.pcs[t].value != s.target;
      CanBeLast(s.pcs, t);
      LastCaller(s, Others(s.pcs, |s.pcs|, t) + [t]);
    }
  }

  // ----- runs in which the calls wait for each other -------------------------------------------

  /** The watchers have been told every change in order, but for at most the last one. */
  ghost predicate InOrder(s: State) {
    || (Quiet(s.pcs) && s.told == s.changes)
    || (exists t: nat :: Calling(s.pcs, t) && s.told + [s.pcs[t].value] == s.changes)
  }

  /** No thread recomputes while another is still about to tell the watchers. */
  predicate Serialised(s: State, actions: seq<Action>)
    decreases |actions|
  {
    actions == [] ||
    ((actions[0].Recompute? ==> Quiet(s.pcs)) && Serialised(Step(s, actions[0]), actions[1..]))
  }

  lemma StepInOrder(s: State, a: Action)
    requires InOrder(s) && (a.Recompute? ==> Quiet(s.pcs))
    ensures InOrder(Step(s, a))
  {
    hide Extreme, Edit;
    var s' := Step(s, a);
    if a.t < |s.pcs| {
      if Quiet(s.pcs) {
        assert s'.pcs[a.t].Notify? ==> Calling(s'.pcs, a.t);
      } else {
        var t: nat :| Calling(s.pcs, t) && s.told + [s.pcs[t].value] == s.changes;
        if a == Tell(t) {
          assert Quiet(s'.pcs);
        } else {
          assert Calling(s'.pcs, t);
        }
      }
    }
  }

  lemma {:induction false} RunInOrder(s: State, actions: seq<Action>)
    requires InOrder(s) && Serialised(s, actions)
    ensures InOrder(Run(s, actions))
    decreases |actions|
  {
    hide InOrder, Step;
    if actions != [] {
      StepInOrder(s, actions[0]);
      RunInOrder(Step(s, actions[0]), actions[1..]);
    }
  }

  /** If recomputations wait for the call before them, the watchers hear every change in
      order, and whenever no call is outstanding the last value they heard is the aggregate. */
  lemma WatchersKeepUp(kind: Kind, default: int, threads: nat, actions: seq<Action>)
    requires Serialised(Initial(kind, default, threads), actions)
    ensures var s := Run(Initial(kind, default, threads), actions);
            && s.told <= s.changes && |s.changes| <= |s.told| + 1
            && (Quiet(s.pcs) ==> s.told == s.changes && s.target == Last(s.told, s.default))
  {
    var s0 := Initial(kind, default, threads);
    RunInOrder(s0, actions);
    QuiescentConsistency(kind, default, threads, actions);
    hide Run;
  }
}
