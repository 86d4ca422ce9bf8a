/** How the two round-robin lists share the link.  Flows that stay backlogged
    get the same number of quanta to within one, and no flow, however it leaves
    and re-enters the lists, can starve a backlogged one. */
module FqCodelFairness {
  import opened Util
  import opened FqCodelModel
  import opened FqCodelInvariants
  import opened FqCodelRuns

  function SentBytes(s: State, i: nat): nat {
    Bytes(Sends(s.log, i))
  }

  // ----- what one turn does to credits and lists --------------------------------------

  datatype Kind = Refill | Retire | Serve(pkt: Packet)

  predicate IsSuffix(a: seq<Packet>, b: seq<Packet>) {
    |a| <= |b| && a == b[|b| - |a|..]
  }

  function GrantOf(kind: Kind, quantum: int): int {
    match kind
    case Refill => quantum
    case Retire => 0
    case Serve(p) => 0 - p.len
  }

  /** Turn `kind` on the head flow took s to t: list movement. */
  predicate ListEffect(s: State, t: State, kind: Kind)
    requires HasListed(s)
  {
    match kind
    case Refill => t.newFlows == RotateHead(s).newFlows && t.oldFlows == RotateHead(s).oldFlows
    case Retire => t.newFlows == RetireHead(s).newFlows && t.oldFlows == RetireHead(s).oldFlows
    case Serve(_) => t.newFlows == s.newFlows && t.oldFlows == s.oldFlows
  }

  /** ... and what flow j sees of it. */
  predicate FlowEffect(s: State, t: State, kind: Kind, j: nat)
    requires Shaped(s) && HasListed(s) && j < |s.flows| == |t.flows|
  {
    var mine := j == Head(s);
    && Refills(t.log, j) == Refills(s.log, j) + (if mine && kind.Refill? then 1 else 0)
    && Activations(t.log, j) == Activations(s.log, j)
    && SentBytes(t, j) == SentBytes(s, j) + (if mine && kind.Serve? then kind.pkt.len else 0)
    && t.flows[j].deficit == s.flows[j].deficit + (if mine then GrantOf(kind, s.quantum) else 0)
    && IsSuffix(t.flows[j].queue, s.flows[j].queue)
  }

  predicate Effect(s: State, t: State, kind: Kind) {
    && Shaped(s) && HasListed(s) && |t.flows| == |s.flows| && t.quantum == s.quantum
    && ListEffect(s, t, kind)
    && (forall j :: 0 <= j < |s.flows| ==> FlowEffect(s, t, kind, j))
    && (kind.Refill? <==> s.flows[Head(s)].deficit <= 0)
    && (kind.Serve? ==> kind.pkt in s.flows[Head(s)].queue)
  }

  lemma BytesOne(a: seq<Packet>, p: Packet)
    ensures Bytes(a + [p]) == Bytes(a) + p.len
  {
    assert (a + [p])[..|a|] == a;
  }

  lemma RefillFlow(s: State, j: nat)
    requires Shaped(s) && HasListed(s) && j < |s.flows|
    ensures |RefillHead(s).flows| == |s.flows| && FlowEffect(s, RefillHead(s), Refill, j)
  {
    hide Arrivals, Departures, Sends, Refills, Activations, Bytes;
    LogOne(s.log, Refilled(Head(s), s.quantum), j);
  }

  lemma RefillEffect(s: State)
    requires Shaped(s) && HasListed(s) && s.flows[Head(s)].deficit <= 0
    ensures Effect(s, RefillHead(s), Refill)
  {
    hide FlowEffect;
    var t := RefillHead(s);
    forall j: nat | j < |s.flows| ensures FlowEffect(s, t, Refill, j) {
      RefillFlow(s, j);
    }
  }

  lemma RetireEffect(s: State, k: nat, s1: State)
    requires Shaped(s) && HasListed(s) && s.flows[Head(s)].deficit > 0
    requires Served(s, Head(s), k, s1, None)
    ensures Effect(s, RetireHead(s1), Retire)
  {
    var i, t := Head(s), RetireHead(s1);
    forall j: nat | j < |s.flows| ensures FlowEffect(s, t, Retire, j) {
      LogDrops(s.log, i, s.flows[i].queue[..k], j);
    }
  }

  /** The log of a turn that drops the packets q and sends p. */
  lemma ServeLog(a: seq<Event>, i: nat, q: seq<Packet>, p: Packet, j: nat)
    ensures var log := a + Drops(i, q) + [Sent(i, p)];
            && Refills(log, j) == Refills(a, j) && Activations(log, j) == Activations(a, j)
            && Bytes(Sends(log, j)) == Bytes(Sends(a, j)) + (if j == i then p.len else 0)
  {
    hide Drops, Arrivals, Departures, Sends, Refills, Activations, Bytes;
    LogDrops(a, i, q, j);
    LogOne(a + Drops(i, q), Sent(i, p), j);
    BytesOne(Sends(a, j), p);
  }

  lemma ServeFlow(s: State, k: nat, s1: State, p: Packet, j: nat)
    requires Shaped(s) && HasListed(s) && j < |s.flows|
    requires Served(s, Head(s), k, s1, Some(p))
    ensures |s1.flows| == |s.flows| && FlowEffect(s, Deliver(s1, Head(s), p), Serve(p), j)
  {
    hide Drops, Sends, Refills, Activations, Bytes, Shaped;
    var i := Head(s);
    ServeLog(s.log, i, s.flows[i].queue[..k], p, j);
  }

  lemma ServeEffect(s: State, k: nat, s1: State, p: Packet)
    requires Shaped(s) && HasListed(s) && s.flows[Head(s)].deficit > 0
    requires Served(s, Head(s), k, s1, Some(p))
    ensures Effect(s, Deliver(s1, Head(s), p), Serve(p))
  {
    hide FlowEffect, Bytes, Drops;
    var t := Deliver(s1, Head(s), p);
    forall j: nat | j < |s.flows| ensures FlowEffect(s, t, Serve(p), j) {
      ServeFlow(s, k, s1, p, j);
    }
  }

  lemma TurnEffect(clock: Clock, s: State) returns (kind: Kind)
    requires Shaped(s) && HasListed(s)
    ensures !OneTurn(clock, s).Idle? && Effect(s, OneTurn(clock, s).next, kind)
    ensures kind.Serve? <==> OneTurn(clock, s).Done?
  {
    hide CodelDequeue, Effect, Served, RefillHead, RetireHead, Deliver;
    var i := Head(s);
    if s.flows[i].deficit <= 0 {
      RefillEffect(s);
      kind := Refill;
    } else {
      var (s1, skb) := CodelDequeue(clock, s, i);
      var k := CodelEffect(clock, s, i);
      match skb {
        case None =>
          RetireEffect(s, k, s1);
          kind := Retire;
        case Some(p) =>
          ServeEffect(s, k, s1, p);
          kind := Serve(p);
      }
    }
  }

  // ----- order on the old list ---------------------------------------------------------

  predicate Before(list: seq<nat>, i: nat, j: nat) {
    exists a, b :: 0 <= a < b < |list| && list[a] == i && list[b] == j
  }

  lemma BeforeAppend(list: seq<nat>, x: nat, i: nat, j: nat)
    requires i != x && j != x
    ensures Before(list + [x], i, j) <==> Before(list, i, j)
  {
    var l := list + [x];
    if Before(list, i, j) {
      var a, b :| 0 <= a < b < |list| && list[a] == i && list[b] == j;
      assert l[a] == i && l[b] == j;
    }
    if Before(l, i, j) {
      var a, b :| 0 <= a < b < |l| && l[a] == i && l[b] == j;
      assert list[a] == i && list[b] == j;
    }
  }

  lemma BeforeTail(list: seq<nat>, i: nat, j: nat)
    requires list != [] && i != list[0] && j != list[0]
    ensures Before(list[1..], i, j) <==> Before(list, i, j)
  {
    var l := list[1..];
    if Before(list, i, j) {
      var a, b :| 0 <= a < b < |list| && list[a] == i && list[b] == j;
      assert l[a - 1] == i && l[b - 1] == j;
    }
    if Before(l, i, j) {
      var a, b :| 0 <= a < b < |l| && l[a] == i && l[b] == j;
      assert list[a + 1] == i && list[b + 1] == j;
    }
  }

  lemma BeforeEnds(list: seq<nat>, j: nat)
    requires Distinct(list) && list != [] && j in list && j != list[0]
    ensures Before(list, list[0], j) && !Before(list, j, list[0])
    ensures var l := list[1..] + [list[0]]; Before(l, j, list[0]) && !Before(l, list[0], j)
  {
    var b :| 0 <= b < |list| && list[b] == j;
    assert list[0] == list[0] && list[b] == j;
    var l := list[1..] + [list[0]];
    assert l[b - 1] == j && l[|list| - 1] == list[0];
    assert forall a :: 0 <= a < |list| - 1 ==> l[a] == list[a + 1] != list[0];
  }

  /** How many quanta flow i can still get before flow j gets its next one. */
  function Rank(s: State, i: nat, j: nat): int {
    if i in s.newFlows then 1 else if Before(s.oldFlows, j, i) then 2 else 0
  }

  /** Quanta handed to flow i, on activation or by refill. */
  function Grants(s: State, i: nat): nat {
    Activations(s.log, i) + Refills(s.log, i)
  }

  /** From s to t flow i got at most two quanta for each of flow j's, up to the
      difference of their standing. */
  predicate Shares(s: State, t: State, i: nat, j: nat) {
    Grants(t, i) - Grants(s, i) <=
      2 * (Refills(t.log, j) - Refills(s.log, j)) + Rank(t, i, j) - Rank(s, i, j)
  }

  /** From s to t the two flows were refilled equally often, up to their order. */
  predicate Even(s: State, t: State, i: nat, j: nat) {
    (Refills(t.log, i) - Refills(s.log, i)) - (Refills(t.log, j) - Refills(s.log, j))
      == One(Before(s.oldFlows, i, j)) - One(Before(t.oldFlows, i, j))
  }

  /** The lists after one turn, seen by a flow j of the old list. */
  lemma TurnLists(s: State, t: State, kind: Kind, j: nat)
    requires Effect(s, t, kind) && Distinct(s.newFlows + s.oldFlows)
    ensures j in s.oldFlows && OnList(t, j) ==> j in t.oldFlows
    ensures !OnList(s, j) ==> !OnList(t, j)
  {
    OldNotNew(s, j);
    if s.newFlows != [] {
      assert s.newFlows == [s.newFlows[0]] + s.newFlows[1..];
    } else {
      assert s.oldFlows == [s.oldFlows[0]] + s.oldFlows[1..];
    }
  }

  lemma OldNotNew(s: State, j: nat)
    requires Distinct(s.newFlows + s.oldFlows)
    ensures j in s.oldFlows ==> j !in s.newFlows
    ensures Distinct(s.oldFlows)
  {
    var a := s.newFlows + s.oldFlows;
    assert forall b :: 0 <= b < |s.oldFlows| ==> s.oldFlows[b] == a[|s.newFlows| + b];
    assert forall c :: 0 <= c < |s.newFlows| ==> s.newFlows[c] == a[c];
  }

  lemma TurnEven(s: State, t: State, kind: Kind, i: nat, j: nat)
    requires Effect(s, t, kind) && Distinct(s.newFlows + s.oldFlows) && i != j
    requires i in s.oldFlows && j in s.oldFlows && i in t.oldFlows && j in t.oldFlows
    requires i < |s.flows| && j < |s.flows|
    ensures Even(s, t, i, j)
  {
    OldNotNew(s, i);
    OldNotNew(s, j);
    assert FlowEffect(s, t, kind, i) && FlowEffect(s, t, kind, j);
    if s.newFlows != [] {
      BeforeAppend(s.oldFlows, s.newFlows[0], i, j);
    } else {
      var old', h := s.oldFlows, s.oldFlows[0];
      if h == i {
        BeforeEnds(old', j);
      } else if h == j {
        BeforeEnds(old', i);
      } else {
        BeforeTail(old', i, j);
        BeforeAppend(old'[1..], h, i, j);
      }
    }
  }

  lemma TurnShares(s: State, t: State, kind: Kind, i: nat, j: nat)
    requires Effect(s, t, kind) && Distinct(s.newFlows + s.oldFlows) && i != j
    requires j in s.oldFlows && j in t.oldFlows
    requires i < |s.flows| && j < |s.flows|
    ensures Shares(s, t, i, j)
  {
    OldNotNew(s, i);
    OldNotNew(s, j);
    assert FlowEffect(s, t, kind, i) && FlowEffect(s, t, kind, j);
    if kind.Serve? {
    } else if s.newFlows != [] {
      NewHeadShares(s, t, kind, i, j);
    } else {
      OldHeadShares(s, t, kind, i, j);
    }
  }

  lemma NewHeadShares(s: State, t: State, kind: Kind, i: nat, j: nat)
    requires Effect(s, t, kind) && Distinct(s.newFlows + s.oldFlows) && i != j
    requires j in s.oldFlows && s.newFlows != [] && !kind.Serve?
    requires i < |s.flows| && j < |s.flows|
    ensures Shares(s, t, i, j)
  {
    var h := s.newFlows[0];
    OldNotNew(s, j);
    assert FlowEffect(s, t, kind, i) && FlowEffect(s, t, kind, j);
    if h == i {
      assert Before(t.oldFlows, j, i) by {
        var b :| 0 <= b < |s.oldFlows| && s.oldFlows[b] == j;
        assert t.oldFlows[b] == j && t.oldFlows[|s.oldFlows|] == i;
      }
      assert i !in s.newFlows[1..] by {
        assert forall k :: 0 <= k < |s.newFlows| ==> (s.newFlows + s.oldFlows)[k] == s.newFlows[k];
      }
    } else {
      BeforeAppend(s.oldFlows, h, j, i);
      assert s.newFlows == [h] + s.newFlows[1..];
    }
  }

  lemma OldHeadShares(s: State, t: State, kind: Kind, i: nat, j: nat)
    requires Effect(s, t, kind) && Distinct(s.newFlows + s.oldFlows) && i != j
    requires j in s.oldFlows && j in t.oldFlows && s.newFlows == [] && !kind.Serve?
    requires i < |s.flows| && j < |s.flows|
    ensures Shares(s, t, i, j)
  {
    var old', h := s.oldFlows, s.oldFlows[0];
    assert FlowEffect(s, t, kind, i) && FlowEffect(s, t, kind, j);
    OldNotNew(s, j);
    if h == i {
      BeforeEnds(old', j);
      BeforeTailGone(old', j);
    } else if h == j {
      if i in old' {
        BeforeEnds(old', i);
      } else {
        assert i !in t.oldFlows;
      }
    } else {
      BeforeTail(old', j, i);
      BeforeAppend(old'[1..], h, j, i);
    }
  }

  lemma BeforeTailGone(list: seq<nat>, j: nat)
    requires Distinct(list) && list != []
    ensures !Before(list[1..], j, list[0])
  {
    assert forall a :: 0 <= a < |list| - 1 ==> list[1..][a] == list[a + 1] != list[0];
  }

  // ----- one dequeue --------------------------------------------------------------------

  /** A flow off the lists stays off them while packets are taken out, and a
      flow of the old list that is still listed afterwards never left it. */
  lemma {:induction false} DequeueLists(clock: Clock, s: State, j: nat)
    requires Consistent(s)
    ensures var t := Dequeue(clock, s).0;
            && (!OnList(s, j) ==> !OnList(t, j))
            && (j in s.oldFlows && OnList(t, j) ==> j in t.oldFlows)
    decreases Work(s)
  {
    TurnLowersWork(clock, s);
    TurnKeeps(clock, s);
    if HasListed(s) {
      var kind := TurnEffect(clock, s);
      var turn := OneTurn(clock, s);
      TurnLists(s, turn.next, kind, j);
      hide OneTurn, Work, Effect, Counted, Recorded;
      if turn.Again? {
        DequeueLists(clock, turn.next, j);
      }
    }
  }

  lemma {:induction false} DequeueShares(clock: Clock, s: State, i: nat, j: nat)
    requires Consistent(s) && i != j && i < |s.flows| && j < |s.flows|
    requires j in s.oldFlows && j in Dequeue(clock, s).0.oldFlows
    ensures Shares(s, Dequeue(clock, s).0, i, j)
    decreases Work(s)
  {
    hide OneTurn, Work, Effect, Counted, Recorded, Grants, Rank;
    TurnLowersWork(clock, s);
    TurnKeeps(clock, s);
    var kind := TurnEffect(clock, s);
    EffectFrame(s, OneTurn(clock, s).next, kind);
    var turn := OneTurn(clock, s);
    TurnLists(s, turn.next, kind, j);
    if turn.Again? {
      DequeueLists(clock, turn.next, j);
      DequeueShares(clock, turn.next, i, j);
    }
    TurnShares(s, turn.next, kind, i, j);
  }

  lemma EffectFrame(s: State, t: State, kind: Kind)
    requires Effect(s, t, kind)
    ensures |t.flows| == |s.flows| && t.quantum == s.quantum
  {
  }

  lemma {:induction false} DequeueEven(clock: Clock, s: State, i: nat, j: nat)
    requires Consistent(s) && i != j && i < |s.flows| && j < |s.flows|
    requires i in s.oldFlows && i in Dequeue(clock, s).0.oldFlows
    requires j in s.oldFlows && j in Dequeue(clock, s).0.oldFlows
    ensures Even(s, Dequeue(clock, s).0, i, j)
    decreases Work(s)
  {
    hide OneTurn, Work, Effect, Counted, Recorded, Before;
    TurnLowersWork(clock, s);
    TurnKeeps(clock, s);
    var kind := TurnEffect(clock, s);
    EffectFrame(s, OneTurn(clock, s).next, kind);
    var turn := OneTurn(clock, s);
    TurnLists(s, turn.next, kind, i);
    TurnLists(s, turn.next, kind, j);
    if turn.Again? {
      DequeueLists(clock, turn.next, i);
      DequeueLists(clock, turn.next, j);
      DequeueEven(clock, turn.next, i, j);
    }
    TurnEven(s, turn.next, kind, i, j);
  }

  // ----- credit ---------------------------------------------------------------------------

  /** What flow i has been given, less what it has spent and still holds; only
      a fresh activation can raise it. */
  function Books(s: State, i: nat, q: int): int
    requires i < |s.flows|
  {
    SentBytes(s, i) + s.flows[i].deficit - q * Refills(s.log, i)
  }

  lemma TurnBooks(s: State, t: State, kind: Kind, i: nat)
    requires Effect(s, t, kind) && i < |s.flows|
    ensures Books(t, i, s.quantum) == Books(s, i, s.quantum)
    ensures Activations(t.log, i) == Activations(s.log, i)
  {
    hide Bytes;
    assert FlowEffect(s, t, kind, i);
    var q := s.quantum;
    if i == Head(s) && kind.Refill? {
      assert q * (Refills(s.log, i) + 1) == q * Refills(s.log, i) + q;
    }
  }

  lemma {:induction false} DequeueBooks(clock: Clock, s: State, i: nat)
    requires Shaped(s) && i < |s.flows|
    ensures var t := Dequeue(clock, s).0;
            && |t.flows| == |s.flows| && t.quantum == s.quantum
            && Books(t, i, s.quantum) == Books(s, i, s.quantum)
            && Activations(t.log, i) == Activations(s.log, i)
    decreases Work(s)
  {
    TurnLowersWork(clock, s);
    if HasListed(s) {
      var kind := TurnEffect(clock, s);
      EffectFrame(s, OneTurn(clock, s).next, kind);
      TurnBooks(s, OneTurn(clock, s).next, kind, i);
      hide OneTurn, Work, Effect, Books;
      if OneTurn(clock, s).Again? {
        DequeueBooks(clock, OneTurn(clock, s).next, i);
      }
    }
  }

  // ----- one enqueue ------------------------------------------------------------------------

  /** What an enqueue to flow k shows of itself to flow i. */
  predicate Offered(s: State, t: State, k: nat, p: Packet, i: nat)
    requires i < |s.flows| == |t.flows|
  {
    var joins := i == k && !OnList(s, k);
    && Refills(t.log, i) == Refills(s.log, i)
    && Activations(t.log, i) == Activations(s.log, i) + One(joins)
    && Sends(t.log, i) == Sends(s.log, i)
    && t.flows[i].deficit == (if joins then s.quantum else s.flows[i].deficit)
    && (forall x :: x in t.flows[i].queue ==> x in s.flows[i].queue || x.len == p.len)
  }

  lemma AppendOffered(clock: Clock, s: State, k: nat, p: Packet, i: nat)
    requires Shaped(s) && k < |s.flows| && i < |s.flows|
    ensures Offered(s, Append(clock, s, k, p), k, p, i)
  {
    hide Arrivals, Departures, Sends, Refills, Activations, Bytes;
    var e := Arrived(k, p.(stamp := clock(s.tick)));
    LogOne(s.log, e, i);
    LogOne(s.log + [e], Activated(k, s.quantum), i);
  }

  lemma EnqueueOffered(clock: Clock, s: State, k: nat, p: Packet, i: nat)
    requires Shaped(s) && k < |s.flows| && i < |s.flows| && CanDrop(Append(clock, s, k, p))
    ensures var t := EnqueueTo(clock, s, k, p).0;
            && |t.flows| == |s.flows| && t.quantum == s.quantum && t.oldFlows == s.oldFlows
            && t.newFlows == (if OnList(s, k) then s.newFlows else s.newFlows + [k])
            && Offered(s, t, k, p, i)
  {
    hide Fattest, Arrivals, Departures, Sends, Refills, Activations, Bytes;
    AppendOffered(clock, s, k, p, i);
    var s1 := Append(clock, s, k, p);
    var f := Fattest(s1.backlogs);
    LogOne(s1.log, OverlimitDropped(f, s1.flows[f].queue[0]), i);
  }

  // ----- the drain loop ------------------------------------------------------------------------

  lemma {:induction false} DrainLists(clock: Clock, s: State, j: nat)
    requires Consistent(s)
    ensures var t := Drain(clock, s);
            && (!OnList(s, j) ==> !OnList(t, j))
            && (j in s.oldFlows && OnList(t, j) ==> j in t.oldFlows)
    decreases s.qlen
  {
    hide Dequeue, Counted, Scheduled, Recorded;
    if s.qlen > s.limit {
      DequeueKeeps(clock, s);
      DequeueLists(clock, s, j);
      var s1 := Dequeue(clock, s).0;
      BooksOnly(s1, 0, s1.dropCount + 1);
      DrainLists(clock, DrainOne(clock, s), j);
    }
  }

  lemma {:induction false} DrainShares(clock: Clock, s: State, i: nat, j: nat)
    requires Consistent(s) && i != j && i < |s.flows| && j < |s.flows|
    requires j in s.oldFlows && j in Drain(clock, s).oldFlows
    ensures Shares(s, Drain(clock, s), i, j)
    decreases s.qlen
  {
    hide Dequeue, Counted, Scheduled, Recorded, Before;
    if s.qlen > s.limit {
      DequeueKeeps(clock, s);
      DequeueFrame(clock, s);
      var s1 := Dequeue(clock, s).0;
      BooksOnly(s1, 0, s1.dropCount + 1);
      DequeueLists(clock, s, j);
      DrainLists(clock, DrainOne(clock, s), j);
      DrainShares(clock, DrainOne(clock, s), i, j);
      DequeueShares(clock, s, i, j);
    }
  }

  lemma {:induction false} DrainEven(clock: Clock, s: State, i: nat, j: nat)
    requires Consistent(s) && i != j && i < |s.flows| && j < |s.flows|
    requires i in s.oldFlows && i in Drain(clock, s).oldFlows
    requires j in s.oldFlows && j in Drain(clock, s).oldFlows
    ensures Even(s, Drain(clock, s), i, j)
    decreases s.qlen
  {
    hide Dequeue, Counted, Scheduled, Recorded, Before;
    if s.qlen > s.limit {
      DequeueKeeps(clock, s);
      DequeueFrame(clock, s);
      var s1 := Dequeue(clock, s).0;
      BooksOnly(s1, 0, s1.dropCount + 1);
      DequeueLists(clock, s, i);
      DequeueLists(clock, s, j);
      DrainLists(clock, DrainOne(clock, s), i);
      DrainLists(clock, DrainOne(clock, s), j);
      DrainEven(clock, DrainOne(clock, s), i, j);
      DequeueEven(clock, s, i, j);
    }
  }

  lemma {:induction false} DrainBooks(clock: Clock, s: State, i: nat)
    requires Consistent(s) && i < |s.flows|
    ensures var t := Drain(clock, s);
            && |t.flows| == |s.flows| && t.quantum == s.quantum
            && Books(t, i, s.quantum) == Books(s, i, s.quantum)
            && Activations(t.log, i) == Activations(s.log, i)
    decreases s.qlen
  {
    hide Dequeue, Counted, Scheduled, Recorded;
    if s.qlen > s.limit {
      DequeueKeeps(clock, s);
      DequeueBooks(clock, s, i);
      var s1 := Dequeue(clock, s).0;
      BooksOnly(s1, 0, s1.dropCount + 1);
      DrainBooks(clock, DrainOne(clock, s), i);
    }
  }

  // ----- one request ------------------------------------------------------------------------

  lemma StepShares(clock: Clock, s: State, op: Op, i: nat, j: nat)
    requires Good(s) && Legal(op, |s.flows|) && i != j && i < |s.flows| && j < |s.flows|
    requires j in s.oldFlows && j in Step(clock, s, op).oldFlows
    ensures Shares(s, Step(clock, s, op), i, j)
  {
    hide Dequeue, Drain, EnqueueTo, Append, Counted, Recorded, Fattest;
    match op
    case Offer(Refused(_), _) =>
    case Offer(Assigned(k), p) =>
      EnqueueKeeps(clock, s, k, p);
      EnqueueOffered(clock, s, k, p, i);
      EnqueueOffered(clock, s, k, p, j);
      if i == k && !OnList(s, k) {
        assert !Before(s.oldFlows, j, i);
      }
    case Fetch =>
      DequeueShares(clock, s, i, j);
    case Configure(o) =>
      if o.flows.None? {
        ReconfigureKeeps(s, o);
        DrainShares(clock, Reconfigure(s, o), i, j);
      }
  }

  lemma StepEven(clock: Clock, s: State, op: Op, i: nat, j: nat)
    requires Good(s) && Legal(op, |s.flows|) && i != j && i < |s.flows| && j < |s.flows|
    requires i in s.oldFlows && i in Step(clock, s, op).oldFlows
    requires j in s.oldFlows && j in Step(clock, s, op).oldFlows
    ensures Even(s, Step(clock, s, op), i, j)
  {
    hide Dequeue, Drain, EnqueueTo, Append, Counted, Recorded, Fattest, Before;
    match op
    case Offer(Refused(_), _) =>
    case Offer(Assigned(k), p) =>
      EnqueueKeeps(clock, s, k, p);
      EnqueueOffered(clock, s, k, p, i);
      EnqueueOffered(clock, s, k, p, j);
    case Fetch =>
      DequeueEven(clock, s, i, j);
    case Configure(o) =>
      if o.flows.None? {
        ReconfigureKeeps(s, o);
        DrainEven(clock, Reconfigure(s, o), i, j);
      }
  }

  /** The books of a flow change only when it is activated, and then by at most one
      quantum. */
  ghost predicate BooksKept(s: State, t: State, i: nat)
    requires i < |s.flows|
  {
    var acts := Activations(t.log, i) - Activations(s.log, i);
    && |t.flows| == |s.flows| && acts >= 0
    && (i in s.oldFlows ==> acts == 0)
    && if acts == 0 then Books(t, i, s.quantum) == Books(s, i, s.quantum)
       else Books(t, i, s.quantum) <= Books(s, i, s.quantum) + s.quantum * acts
  }

  lemma OfferBooks(clock: Clock, s: State, k: nat, p: Packet, i: nat)
    requires Good(s) && k < |s.flows| && i < |s.flows|
    ensures CanDrop(Append(clock, s, k, p)) && BooksKept(s, EnqueueTo(clock, s, k, p).0, i)
  {
    hide EnqueueTo, Append, Counted, Recorded, Fattest, Bytes;
    EnqueueKeeps(clock, s, k, p);
    EnqueueOffered(clock, s, k, p, i);
  }

  lemma ConfigureBooks(clock: Clock, s: State, o: Options, i: nat)
    requires Good(s) && i < |s.flows| && o.flows.None? && Reconfigure(s, o).quantum == s.quantum
    ensures Consistent(Reconfigure(s, o)) && BooksKept(s, Drain(clock, Reconfigure(s, o)), i)
  {
    hide Drain, Counted, Recorded, Bytes;
    ReconfigureKeeps(s, o);
    DrainFrame(clock, Reconfigure(s, o));
    DrainBooks(clock, Reconfigure(s, o), i);
  }

  lemma FetchBooks(clock: Clock, s: State, i: nat)
    requires Good(s) && i < |s.flows|
    ensures BooksKept(s, Dequeue(clock, s).0, i)
  {
    hide Dequeue, Counted, Recorded, Scheduled, Books, Activations;
    DequeueBooks(clock, s, i);
  }

  /** While the quantum stands, an operation keeps the books. */
  lemma StepBooks(clock: Clock, s: State, op: Op, i: nat)
    requires Good(s) && Legal(op, |s.flows|) && i < |s.flows|
    requires Step(clock, s, op).quantum == s.quantum
    ensures BooksKept(s, Step(clock, s, op), i)
  {
    hide BooksKept, EnqueueTo, Append, Dequeue, Drain, Counted, Recorded, Scheduled, Fattest;
    match op
    case Offer(Refused(_), _) =>
      SameBooks(s, i);
    case Offer(Assigned(k), p) =>
      OfferBooks(clock, s, k, p, i);
      ParentBooks(s, EnqueueTo(clock, s, k, p).0, Step(clock, s, op), i);
    case Fetch =>
      FetchBooks(clock, s, i);
      ParentBooks(s, Dequeue(clock, s).0, Step(clock, s, op), i);
    case Configure(o) =>
      if o.flows.None? {
        ConfigureQuantum(clock, s, o);
        ConfigureBooks(clock, s, o, i);
        ParentBooks(s, Drain(clock, Reconfigure(s, o)), Step(clock, s, op), i);
      } else {
        SameBooks(s, i);
      }
  }

  lemma ParentBooks(s: State, t: State, t': State, i: nat)
    requires i < |s.flows| && BooksKept(s, t, i) && t'.flows == t.flows && t'.log == t.log
    ensures BooksKept(s, t', i)
  {
  }

  lemma SameBooks(s: State, i: nat)
    requires i < |s.flows|
    ensures BooksKept(s, s, i)
  {
  }

  lemma ConfigureQuantum(clock: Clock, s: State, o: Options)
    requires Good(s) && o.flows.None?
    ensures Consistent(Reconfigure(s, o)) && Drain(clock, Reconfigure(s, o)).quantum == Reconfigure(s, o).quantum
  {
    hide Drain, Counted, Recorded, Bytes;
    ReconfigureKeeps(s, o);
    DrainFrame(clock, Reconfigure(s, o));
  }

  // ----- bounds on a flow's credit ---------------------------------------------------------

  predicate FlowBounded(f: Flow, quantum: int, maxLen: int) {
    && 1 - maxLen <= f.deficit <= quantum
    && (forall x :: x in f.queue ==> x.len <= maxLen)
  }

  /** No quantum above `quantum` and no packet above `maxLen` has been seen; then
      a flow never overdraws by more than a packet nor saves more than a quantum. */
  predicate Bounded(s: State, quantum: int, maxLen: int) {
    && s.quantum <= quantum && maxLen >= 1
    && (forall i :: 0 <= i < |s.flows| ==> FlowBounded(s.flows[i], quantum, maxLen))
  }

  lemma TurnBounded(s: State, t: State, kind: Kind, quantum: int, maxLen: int)
    requires Effect(s, t, kind) && Bounded(s, quantum, maxLen)
    ensures Bounded(t, quantum, maxLen)
  {
    forall i: nat | i < |s.flows| ensures FlowBounded(t.flows[i], quantum, maxLen) {
      assert FlowEffect(s, t, kind, i) && FlowBounded(s.flows[i], quantum, maxLen);
      hide Bytes, Refills, Activations, Sends;
    }
  }

  lemma {:induction false} DequeueBounded(clock: Clock, s: State, quantum: int, maxLen: int)
    requires Shaped(s) && Bounded(s, quantum, maxLen)
    ensures Bounded(Dequeue(clock, s).0, quantum, maxLen)
    decreases Work(s)
  {
    TurnLowersWork(clock, s);
    if HasListed(s) {
      var kind := TurnEffect(clock, s);
      TurnBounded(s, OneTurn(clock, s).next, kind, quantum, maxLen);
      hide OneTurn, Work, Effect, Bounded;
      if OneTurn(clock, s).Again? {
        DequeueBounded(clock, OneTurn(clock, s).next, quantum, maxLen);
      }
    }
  }

  lemma {:induction false} DrainBounded(clock: Clock, s: State, quantum: int, maxLen: int)
    requires Consistent(s) && Bounded(s, quantum, maxLen)
    ensures Bounded(Drain(clock, s), quantum, maxLen)
    decreases s.qlen
  {
    hide Dequeue, Counted, Scheduled, Recorded;
    if s.qlen > s.limit {
      DequeueKeeps(clock, s);
      DequeueBounded(clock, s, quantum, maxLen);
      var s1 := Dequeue(clock, s).0;
      BooksOnly(s1, 0, s1.dropCount + 1);
      DrainBounded(clock, DrainOne(clock, s), quantum, maxLen);
    }
  }

  /** The request brings no larger packet and sets no larger quantum. */
  predicate Within(op: Op, quantum: int, maxLen: int) {
    match op
    case Offer(_, p) => p.len <= maxLen
    case Fetch => true
    case Configure(o) => o.quantum.Some? ==> o.quantum.value <= quantum && 256 <= quantum
  }

  lemma StepBounded(clock: Clock, s: State, op: Op, quantum: int, maxLen: int)
    requires Good(s) && Legal(op, |s.flows|) && Within(op, quantum, maxLen)
    requires Bounded(s, quantum, maxLen)
    ensures Bounded(Step(clock, s, op), quantum, maxLen)
  {
    hide Dequeue, Drain, EnqueueTo, Append, Counted, Recorded, Fattest, Bytes;
    match op
    case Offer(Refused(_), _) =>
    case Offer(Assigned(k), p) =>
      EnqueueKeeps(clock, s, k, p);
      EnqueueBounded(clock, s, k, p, quantum, maxLen);
    case Fetch =>
      DequeueBounded(clock, s, quantum, maxLen);
    case Configure(o) =>
      if o.flows.None? {
        ReconfigureKeeps(s, o);
        DrainBounded(clock, Reconfigure(s, o), quantum, maxLen);
      }
  }

  lemma EnqueueBounded(clock: Clock, s: State, k: nat, p: Packet, quantum: int, maxLen: int)
    requires Shaped(s) && k < |s.flows| && CanDrop(Append(clock, s, k, p))
    requires Bounded(s, quantum, maxLen) && p.len <= maxLen
    ensures Bounded(EnqueueTo(clock, s, k, p).0, quantum, maxLen)
  {
    hide EnqueueTo, Append, Fattest;
    var t := EnqueueTo(clock, s, k, p).0;
    EnqueueOffered(clock, s, k, p, k);
    forall i: nat | i < |s.flows| ensures FlowBounded(t.flows[i], quantum, maxLen) {
      EnqueueOffered(clock, s, k, p, i);
    }
  }

  // ----- whole runs -----------------------------------------------------------------------

  predicate AllWithin(ops: seq<Op>, quantum: int, maxLen: int) {
    forall k :: 0 <= k < |ops| ==> Within(ops[k], quantum, maxLen)
  }

  /** Before and after each request flow j is on the old list and the quantum is q. */
  predicate Steady(clock: Clock, s: State, ops: seq<Op>, j: nat, q: int)
    requires Good(s) && AllLegal(ops, |s.flows|)
    decreases |ops|
  {
    && j in s.oldFlows && s.quantum == q
    && (ops == [] ||
        (StepGood(clock, s, ops[0]); Steady(clock, Step(clock, s, ops[0]), ops[1..], j, q)))
  }

  lemma {:induction false} RunBounded(clock: Clock, s: State, ops: seq<Op>, quantum: int, maxLen: int)
    requires Good(s) && AllLegal(ops, |s.flows|) && AllWithin(ops, quantum, maxLen)
    requires Bounded(s, quantum, maxLen)
    ensures Bounded(Run(clock, s, ops), quantum, maxLen)
    decreases |ops|
  {
    hide Step, Bounded, Consistent;
    if ops != [] {
      StepGood(clock, s, ops[0]);
      StepBounded(clock, s, ops[0], quantum, maxLen);
      RunBounded(clock, Step(clock, s, ops[0]), ops[1..], quantum, maxLen);
    }
  }

  lemma {:induction false} RunEven(clock: Clock, s: State, ops: seq<Op>, i: nat, j: nat, q: int)
    requires Good(s) && AllLegal(ops, |s.flows|) && i != j && i < |s.flows| && j < |s.flows|
    requires Steady(clock, s, ops, i, q) && Steady(clock, s, ops, j, q)
    ensures Even(s, Run(clock, s, ops), i, j)
    decreases |ops|
  {
    hide Step, Consistent, Before;
    if ops != [] {
      StepGood(clock, s, ops[0]);
      var s1 := Step(clock, s, ops[0]);
      RunEven(clock, s1, ops[1..], i, j, q);
      StepEven(clock, s, ops[0], i, j);
    }
  }

  lemma {:induction false} RunShares(clock: Clock, s: State, ops: seq<Op>, i: nat, j: nat, q: int)
    requires Good(s) && AllLegal(ops, |s.flows|) && i != j && i < |s.flows| && j < |s.flows|
    requires Steady(clock, s, ops, j, q)
    ensures Shares(s, Run(clock, s, ops), i, j)
    decreases |ops|
  {
    hide Step, Consistent, Before;
    if ops != [] {
      StepGood(clock, s, ops[0]);
      var s1 := Step(clock, s, ops[0]);
      RunShares(clock, s1, ops[1..], i, j, q);
      StepShares(clock, s, ops[0], i, j);
    }
  }

  /** Service equals quanta granted, up to the change of the flow's credit. */
  lemma {:induction false} RunBooks(clock: Clock, s: State, ops: seq<Op>, i: nat, j: nat, q: int)
    requires Good(s) && AllLegal(ops, |s.flows|) && i < |s.flows|
    requires Steady(clock, s, ops, j, q)
    ensures var t := Run(clock, s, ops); var acts := Activations(t.log, i) - Activations(s.log, i);
            && |t.flows| == |s.flows| && acts >= 0
            && (i == j ==> Books(t, i, q) == Books(s, i, q))
            && Books(t, i, q) <= Books(s, i, q) + q * acts
    decreases |ops|
  {
    hide Step, Consistent, Books;
    if ops != [] {
      StepGood(clock, s, ops[0]);
      var s1 := Step(clock, s, ops[0]);
      RunBooks(clock, s1, ops[1..], i, j, q);
      StepBooks(clock, s, ops[0], i);
      var t := Run(clock, s, ops);
      var a, b := Activations(s1.log, i) - Activations(s.log, i), Activations(t.log, i) - Activations(s1.log, i);
      assert q * (a + b) == q * a + q * b;
    }
  }

  /** Deficit round robin is fair: over any stretch of a run during which two
      flows stay on the old list and the quantum is q, they are refilled equally
      often to within one, exactly accounted for by their order, and the bytes
      they get differ by at most q + 2 (quantum + maxLen - 1). */
  lemma BackloggedFair(clock: Clock, s: State, ops: seq<Op>, i: nat, j: nat, q: int,
                       quantum: int, maxLen: int)
    requires Good(s) && AllLegal(ops, |s.flows|) && i != j && i < |s.flows| && j < |s.flows|
    requires Bounded(s, quantum, maxLen) && AllWithin(ops, quantum, maxLen)
    requires Steady(clock, s, ops, i, q) && Steady(clock, s, ops, j, q)
    ensures var t := Run(clock, s, ops);
            var ri, rj := Refills(t.log, i) - Refills(s.log, i), Refills(t.log, j) - Refills(s.log, j);
            var bi, bj := SentBytes(t, i) - SentBytes(s, i), SentBytes(t, j) - SentBytes(s, j);
            && ri - rj == One(Before(s.oldFlows, i, j)) - One(Before(t.oldFlows, i, j))
            && -1 <= ri - rj <= 1
            && -(q + 2 * (quantum + maxLen - 1)) <= bi - bj <= q + 2 * (quantum + maxLen - 1)
  {
    hide Run, Steady, Consistent, Bytes, Refills, Before, Sends, Legal, Within;
    RunEven(clock, s, ops, i, j, q);
    RunBooks(clock, s, ops, i, i, q);
    RunBooks(clock, s, ops, j, j, q);
    RunBounded(clock, s, ops, quantum, maxLen);
    var t := Run(clock, s, ops);
    assert FlowBounded(s.flows[i], quantum, maxLen) && FlowBounded(s.flows[j], quantum, maxLen);
    assert FlowBounded(t.flows[i], quantum, maxLen) && FlowBounded(t.flows[j], quantum, maxLen);
    SteadyQuantum(clock, s, ops, i, q);
    var ri, rj := Refills(t.log, i) - Refills(s.log, i), Refills(t.log, j) - Refills(s.log, j);
    Scaled(q, Refills(t.log, i), Refills(s.log, i));
    Scaled(q, Refills(t.log, j), Refills(s.log, j));
    QuantaDiffer(q, ri, rj);
  }

  lemma SteadyQuantum(clock: Clock, s: State, ops: seq<Op>, j: nat, q: int)
    requires Good(s) && AllLegal(ops, |s.flows|) && Steady(clock, s, ops, j, q)
    ensures q == s.quantum >= 1
  {
  }

  lemma Scaled(q: int, a: int, b: int)
    ensures q * a - q * b == q * (a - b)
  {
  }

  lemma QuantaDiffer(q: int, a: int, b: int)
    requires q >= 0 && -1 <= a - b <= 1
    ensures -q <= q * a - q * b <= q
  {
    assert q * a - q * b == q * (a - b);
    if a - b == 1 {
      assert q * (a - b) == q;
    } else if a - b == -1 {
      assert q * (a - b) == -q;
    } else {
      assert q * (a - b) == 0;
    }
  }

  /** No starvation: while flow j stays backlogged, any other flow, whether it
      stays, leaves and returns as a new flow, or never empties, gets at most two
      quanta for each of j's plus two, so at most twice j's bytes and a constant. */
  lemma NoStarvation(clock: Clock, s: State, ops: seq<Op>, i: nat, j: nat, q: int,
                     quantum: int, maxLen: int)
    requires Good(s) && AllLegal(ops, |s.flows|) && i != j && i < |s.flows| && j < |s.flows|
    requires Bounded(s, quantum, maxLen) && AllWithin(ops, quantum, maxLen)
    requires Steady(clock, s, ops, j, q)
    ensures var t := Run(clock, s, ops);
            && Grants(t, i) - Grants(s, i) <= 2 * (Refills(t.log, j) - Refills(s.log, j)) + 2
            && SentBytes(t, i) - SentBytes(s, i)
               <= 2 * (SentBytes(t, j) - SentBytes(s, j)) + 2 * q + 3 * (quantum + maxLen - 1)
  {
    hide Run, Steady, Consistent, Bytes, Refills, Activations, Before, Sends, Legal, Within;
    RunShares(clock, s, ops, i, j, q);
    RunBooks(clock, s, ops, i, j, q);
    RunBooks(clock, s, ops, j, j, q);
    RunBounded(clock, s, ops, quantum, maxLen);
    var t := Run(clock, s, ops);
    assert FlowBounded(s.flows[i], quantum, maxLen) && FlowBounded(s.flows[j], quantum, maxLen);
    assert FlowBounded(t.flows[i], quantum, maxLen) && FlowBounded(t.flows[j], quantum, maxLen);
    SteadyQuantum(clock, s, ops, j, q);
    var ri, rj := Refills(t.log, i) - Refills(s.log, i), Refills(t.log, j) - Refills(s.log, j);
    var ai := Activations(t.log, i) - Activations(s.log, i);
    Scaled(q, Refills(t.log, i), Refills(s.log, i));
    Scaled(q, Refills(t.log, j), Refills(s.log, j));
    Scaled(q, ai + ri, ri);
    GrantsBound(q, ai + ri, rj);
  }

  lemma GrantsBound(q: int, g: int, r: int)
    requires q >= 0 && g <= 2 * r + 2
    ensures q * g <= 2 * (q * r) + 2 * q
  {
    assert q * g <= q * (2 * r + 2);
  }

  // ----- from the start ------------------------------------------------------------------------

  lemma InitialBounded(flows: pos, q: pos, limit: nat, params: CodelParams, quantum: int, maxLen: int)
    requires q <= quantum && 1 <= maxLen
    ensures Bounded(Initial(flows, q, limit, params), quantum, maxLen)
  {
  }

  /** In every reachable state no flow has overdrawn by more than a packet nor saved more than
      the largest quantum. */
  lemma ReachedBounded(clock: Clock, flows: pos, q: pos, limit: nat, params: CodelParams, ops: seq<Op>,
                       quantum: int, maxLen: int)
    requires AllLegal(ops, flows) && AllWithin(ops, quantum, maxLen) && q <= quantum && 1 <= maxLen
    ensures Bounded(Reached(clock, flows, q, limit, params, ops), quantum, maxLen)
  {
    hide Bounded, Run, Good;
    InitialGood(flows, q, limit, params);
    InitialBounded(flows, q, limit, params, quantum, maxLen);
    RunBounded(clock, Initial(flows, q, limit, params), ops, quantum, maxLen);
  }

  /** Both bounds for any stretch of any run from the start, in terms of the requests alone. */
  lemma FairFromStart(clock: Clock, flows: pos, q0: pos, limit: nat, params: CodelParams,
                      before: seq<Op>, ops: seq<Op>, i: nat, j: nat, q: int, quantum: int, maxLen: int)
    requires AllLegal(before, flows) && AllWithin(before, quantum, maxLen) && q0 <= quantum && 1 <= maxLen
    requires AllLegal(ops, flows) && AllWithin(ops, quantum, maxLen) && i != j && i < flows && j < flows
    requires Steady(clock, Reached(clock, flows, q0, limit, params, before), ops, j, q)
    ensures var s := Reached(clock, flows, q0, limit, params, before);
            var t := Run(clock, s, ops);
            var bi, bj := SentBytes(t, i) - SentBytes(s, i), SentBytes(t, j) - SentBytes(s, j);
            && bi <= 2 * bj + 2 * q + 3 * (quantum + maxLen - 1)
            && (Steady(clock, s, ops, i, q) ==>
                  -(q + 2 * (quantum + maxLen - 1)) <= bi - bj <= q + 2 * (quantum + maxLen - 1))
  {
    hide Bounded, Run, Steady, SentBytes, Reached, Good, AllWithin, AllLegal;
    var s := Reached(clock, flows, q0, limit, params, before);
    ReachedBounded(clock, flows, q0, limit, params, before, quantum, maxLen);
    NoStarvation(clock, s, ops, i, j, q, quantum, maxLen);
    if Steady(clock, s, ops, i, q) {
      BackloggedFair(clock, s, ops, i, j, q, quantum, maxLen);
    }
  }
}
