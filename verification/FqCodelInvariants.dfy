/** What every operation of the queueing discipline keeps: the redundant
    counters agree with the queues, the two lists hold every backlogged flow
    once, each flow is a FIFO, and the ancestors' packet counter is right. */
module FqCodelInvariants {
  import opened Util
  import opened FqCodelModel

  // ----- reading the history ----------------------------------------------------

  predicate Departs(e: Event) {
    e.Sent? || e.CodelDropped? || e.OverlimitDropped?
  }

  /** The packets that entered flow i, in order. */
  function Arrivals(log: seq<Event>, i: nat): seq<Packet> {
    if log == [] then [] else
    var e, before := log[|log| - 1], Arrivals(log[..|log| - 1], i);
    if e.Arrived? && e.flow == i then before + [e.pkt] else before
  }

  /** The packets that left flow i, sent or dropped, in order. */
  function Departures(log: seq<Event>, i: nat): seq<Packet> {
    if log == [] then [] else
    var e, before := log[|log| - 1], Departures(log[..|log| - 1], i);
    if Departs(e) && e.flow == i then before + [e.pkt] else before
  }

  /** The packets flow i got onto the wire, in order. */
  function Sends(log: seq<Event>, i: nat): seq<Packet> {
    if log == [] then [] else
    var e, before := log[|log| - 1], Sends(log[..|log| - 1], i);
    if e.Sent? && e.flow == i then before + [e.pkt] else before
  }

  /** How often flow i got a quantum while it was listed. */
  function Refills(log: seq<Event>, i: nat): nat {
    if log == [] then 0 else
    var e := log[|log| - 1];
    Refills(log[..|log| - 1], i) + if e.Refilled? && e.flow == i then 1 else 0
  }

  /** How often flow i was listed afresh, with a full quantum. */
  function Activations(log: seq<Event>, i: nat): nat {
    if log == [] then 0 else
    var e := log[|log| - 1];
    Activations(log[..|log| - 1], i) + if e.Activated? && e.flow == i then 1 else 0
  }

  lemma LogOne(a: seq<Event>, e: Event, i: nat)
    ensures Arrivals(a + [e], i) ==
              if e.Arrived? && e.flow == i then Arrivals(a, i) + [e.pkt] else Arrivals(a, i)
    ensures Departures(a + [e], i) ==
              if Departs(e) && e.flow == i then Departures(a, i) + [e.pkt] else Departures(a, i)
    ensures Sends(a + [e], i) ==
              if e.Sent? && e.flow == i then Sends(a, i) + [e.pkt] else Sends(a, i)
    ensures Refills(a + [e], i) == Refills(a, i) + if e.Refilled? && e.flow == i then 1 else 0
    ensures Activations(a + [e], i) == Activations(a, i) + if e.Activated? && e.flow == i then 1 else 0
  {
    assert (a + [e])[..|a|] == a;
  }

  lemma {:induction false} LogDrops(a: seq<Event>, k: nat, q: seq<Packet>, i: nat)
    ensures Arrivals(a + Drops(k, q), i) == Arrivals(a, i)
    ensures Departures(a + Drops(k, q), i) == if i == k then Departures(a, i) + q else Departures(a, i)
    ensures Sends(a + Drops(k, q), i) == Sends(a, i)
    ensures Refills(a + Drops(k, q), i) == Refills(a, i)
    ensures Activations(a + Drops(k, q), i) == Activations(a, i)
  {
    hide Arrivals, Departures, Sends, Refills, Activations;
    if q == [] {
      assert a + Drops(k, q) == a;
    } else {
      var n := |q| - 1;
      LogDrops(a, k, q[..n], i);
      assert a + Drops(k, q) == (a + Drops(k, q[..n])) + [CodelDropped(k, q[n])];
      LogOne(a + Drops(k, q[..n]), CodelDropped(k, q[n]), i);
      assert q == q[..n] + [q[n]];
    }
  }

  lemma SplitQueue<T>(d: seq<T>, q: seq<T>, k: nat)
    requires k <= |q|
    ensures d + q == d + q[..k] + q[k..]
    ensures k < |q| ==> d + q == d + q[..k] + [q[k]] + q[k + 1..]
  {
  }

  lemma {:induction false} BytesSplit(q: seq<Packet>, n: nat)
    requires n <= |q|
    ensures Bytes(q) == Bytes(q[..n]) + Bytes(q[n..])
  {
    if n < |q| {
      var m := |q| - 1;
      BytesSplit(q[..m], n);
      assert q[..m][..n] == q[..n];
      assert q[n..][..m - n] == q[..m][n..];
    } else {
      assert q[..n] == q;
    }
  }

  // ----- the invariant ------------------------------------------------------------

  function Lengths(flows: seq<Flow>): seq<int> {
    seq(|flows|, k requires 0 <= k < |flows| => |flows[k].queue|)
  }

  /** The per-flow and global counters agree with the queues. */
  predicate Counted(s: State) {
    && |s.backlogs| == |s.flows|
    && (forall i :: 0 <= i < |s.flows| ==> s.backlogs[i] == Bytes(s.flows[i].queue))
    && s.qlen == Sum(Lengths(s.flows))
    && s.backlog == Sum(s.backlogs)
  }

  /** No flow is listed twice, every backlogged flow is listed, and an unlisted
      flow owes nothing. */
  predicate Scheduled(s: State) {
    && Distinct(s.newFlows + s.oldFlows)
    && (forall i :: 0 <= i < |s.flows| && !OnList(s, i) ==>
          s.flows[i].queue == [] && s.flows[i].deficit >= 0)
  }

  /** Each flow is a FIFO: what came in is what went out, then what is queued. */
  predicate Recorded(s: State) {
    forall i :: 0 <= i < |s.flows| ==>
      Arrivals(s.log, i) == Departures(s.log, i) + s.flows[i].queue
  }

  predicate Consistent(s: State) {
    Shaped(s) && Counted(s) && Scheduled(s) && Recorded(s)
  }

  /** Packets the ancestors count beyond those queued or still to be reported. */
  function Surplus(s: State): int {
    s.parent - s.qlen - s.dropCount
  }

  /** Emptiness is the same by packets, by bytes and flow by flow. */
  lemma EmptyIff(s: State)
    requires Counted(s)
    ensures s.qlen >= 0 && s.backlog >= 0
    ensures s.qlen == 0 <==> s.backlog == 0
    ensures s.qlen == 0 <==> forall i :: 0 <= i < |s.flows| ==> s.flows[i].queue == []
  {
    var ls := Lengths(s.flows);
    SumZero(ls);
    SumZero(s.backlogs);
    forall i | 0 <= i < |s.flows|
      ensures ls[i] == 0 <==> s.flows[i].queue == []
      ensures s.backlogs[i] == 0 <==> s.flows[i].queue == []
    {
    }
  }

  /** An overlimit drop always finds a packet, and it takes it from a flow with
      the largest backlog. */
  lemma FattestHasPacket(s: State)
    requires Shaped(s) && Counted(s) && s.qlen > 0
    ensures CanDrop(s)
    ensures forall j :: 0 <= j < |s.flows| ==>
              Bytes(s.flows[j].queue) <= Bytes(s.flows[Fattest(s.backlogs)].queue)
  {
    EmptyIff(s);
    var j :| 0 <= j < |s.flows| && s.flows[j].queue != [];
    assert s.backlogs[j] > 0;
  }

  // ----- taking packets off a queue -------------------------------------------------

  lemma LengthsUpdate(flows: seq<Flow>, i: nat, f: Flow)
    requires i < |flows|
    ensures Sum(Lengths(flows[i := f])) == Sum(Lengths(flows)) - |flows[i].queue| + |f.queue|
  {
    assert Lengths(flows[i := f]) == Lengths(flows)[i := |f.queue|];
    SumUpdate(Lengths(flows), i, |f.queue|);
  }

  /** One flow changes and the counters move with it. */
  lemma CountedUpdate(s: State, i: nat, t: State)
    requires Counted(s) && i < |s.flows| == |t.flows| && t.flows == s.flows[i := t.flows[i]]
    requires |t.backlogs| == |s.backlogs| && t.backlogs == s.backlogs[i := Bytes(t.flows[i].queue)]
    requires t.qlen == s.qlen - |s.flows[i].queue| + |t.flows[i].queue|
    requires t.backlog == s.backlog - s.backlogs[i] + t.backlogs[i]
    ensures Counted(t)
  {
    hide Bytes;
    LengthsUpdate(s.flows, i, t.flows[i]);
    SumUpdate(s.backlogs, i, t.backlogs[i]);
  }

  lemma ServedCounts(s: State, i: nat, k: nat, t: State, skb: Option<Packet>)
    requires Counted(s) && Served(s, i, k, t, skb)
    ensures Counted(t)
  {
    BytesSplit(s.flows[i].queue, Taken(k, skb));
    CountedUpdate(s, i, t);
  }

  lemma ServedRecords(s: State, i: nat, k: nat, t: State, skb: Option<Packet>, j: nat)
    requires Recorded(s) && Served(s, i, k, t, skb) && j < |s.flows|
    ensures |t.flows| == |s.flows| && i < |s.flows|
    ensures Arrivals(t.log, j) ==
            if skb.Some? && j == i then Departures(t.log, j) + [skb.value] + t.flows[j].queue
            else Departures(t.log, j) + t.flows[j].queue
  {
    hide Arrivals, Departures, Drops;
    var q := s.flows[i].queue;
    LogDrops(s.log, i, q[..k], j);
    if j == i {
      SplitQueue(Departures(s.log, i), q, k);
    }
  }

  lemma EmptiedRecords(s: State, i: nat, k: nat, t: State)
    requires Recorded(s) && Served(s, i, k, t, None)
    ensures Recorded(t)
  {
    forall j: nat | j < |s.flows|
      ensures Arrivals(t.log, j) == Departures(t.log, j) + t.flows[j].queue
    {
      ServedRecords(s, i, k, t, None, j);
    }
  }

  // ----- one turn of fq_codel_dequeue ---------------------------------------------

  lemma Rotated(s: State, i: nat)
    requires Shaped(s) && HasListed(s) && Distinct(s.newFlows + s.oldFlows)
    ensures var t := RotateHead(s);
            Distinct(t.newFlows + t.oldFlows) && (OnList(t, i) <==> OnList(s, i))
  {
    var t := RotateHead(s);
    var a := s.newFlows + s.oldFlows;
    assert t.newFlows + t.oldFlows == a[1..] + [a[0]];
    assert OnList(s, i) <==> i in a;
    assert OnList(t, i) <==> i in a[1..] + [a[0]];
    assert a == [a[0]] + a[1..];
  }

  lemma Unlisted(s: State, i: nat)
    requires Shaped(s) && HasListed(s) && Distinct(s.newFlows + s.oldFlows)
    ensures var t := RetireHead(s);
            Distinct(t.newFlows + t.oldFlows) && (OnList(t, i) || i == Head(s) <==> OnList(s, i))
  {
    var t := RetireHead(s);
    var a := s.newFlows + s.oldFlows;
    assert OnList(s, i) <==> i in a;
    assert a == [a[0]] + a[1..];
    if s.newFlows != [] && s.oldFlows != [] {
      Rotated(s, i);
      assert Head(s) in a && i in a <==> OnList(s, i);
    } else {
      assert t.newFlows + t.oldFlows == a[1..];
      assert OnList(t, i) <==> i in a[1..];
    }
  }

  lemma RefillKeeps(s: State)
    requires Consistent(s) && HasListed(s) && s.flows[Head(s)].deficit <= 0
    ensures Consistent(RefillHead(s))
  {
    hide Work, Bytes;
    var i, t := Head(s), RefillHead(s);
    RefillLowersWork(s);
    assert Counted(t) by {
      LengthsUpdate(s.flows, i, t.flows[i]);
    }
    assert Recorded(t) by {
      forall j: nat | j < |s.flows|
        ensures Arrivals(t.log, j) == Departures(t.log, j) + t.flows[j].queue
      {
        LogOne(s.log, Refilled(i, s.quantum), j);
      }
    }
    assert Scheduled(t) by {
      forall j: nat | j < |s.flows| ensures OnList(t, j) <==> OnList(s, j) {
        Rotated(s, j);
      }
      Rotated(s, i);
      assert OnList(s, i);
    }
  }

  lemma RetireSchedules(s: State)
    requires Shaped(s) && HasListed(s) && Scheduled(s)
    requires s.flows[Head(s)].queue == [] && s.flows[Head(s)].deficit > 0
    ensures Scheduled(RetireHead(s))
  {
    var t := RetireHead(s);
    forall j: nat | j < |s.flows|
      ensures !OnList(t, j) ==> t.flows[j].queue == [] && t.flows[j].deficit >= 0
    {
      Unlisted(s, j);
    }
    Unlisted(s, Head(s));
  }

  lemma RetireKeeps(s: State, i: nat, k: nat, s1: State)
    requires Consistent(s) && HasListed(s) && i == Head(s) && s.flows[i].deficit > 0
    requires Served(s, i, k, s1, None) && (s.flows[i].queue != [] ==> s1.backlog > 0)
    ensures var t := RetireHead(s1);
            && Consistent(t) && Surplus(t) == Surplus(s) && t.dropCount >= s.dropCount
            && t.qlen <= s.qlen && (t.qlen == 0 <==> s.qlen == 0)
  {
    hide Work, Bytes, Drops, Distinct;
    var t := RetireHead(s1);
    RetireLowersWork(s, i, k, s1);
    assert Counted(s1) && (t.qlen == 0 <==> s.qlen == 0) by {
      ServedCounts(s, i, k, s1, None);
      EmptyIff(s1);
      EmptyIff(s);
    }
    EmptiedRecords(s, i, k, s1);
    RetireSchedules(s1);
  }

  lemma DeliverKeeps(s: State, i: nat, k: nat, s1: State, p: Packet)
    requires Consistent(s) && OnList(s, i)
    requires Served(s, i, k, s1, Some(p))
    ensures var t := Deliver(s1, i, p);
            && Consistent(t) && Surplus(t) == Surplus(s) + 1 && 0 <= t.qlen < s.qlen
            && (s.dropCount >= 0 ==> t.dropCount >= 0)
  {
    hide Bytes, Drops, Distinct, Counted, Recorded;
    DeliverRecords(s, i, k, s1, p);
    DeliverCounts(s, i, k, s1, p);
    EmptyIff(Deliver(s1, i, p));
  }

  lemma DeliverCounts(s: State, i: nat, k: nat, s1: State, p: Packet)
    requires Counted(s) && Served(s, i, k, s1, Some(p))
    ensures Counted(Deliver(s1, i, p))
  {
    hide Bytes, Drops;
    ServedCounts(s, i, k, s1, Some(p));
    var t := Deliver(s1, i, p);
    assert t.backlogs == s1.backlogs[i := s1.backlogs[i]];
    CountedUpdate(s1, i, t);
  }

  lemma DeliverRecords(s: State, i: nat, k: nat, s1: State, p: Packet)
    requires Recorded(s) && Served(s, i, k, s1, Some(p))
    ensures Recorded(Deliver(s1, i, p))
  {
    ServedRecords(s, i, k, s1, Some(p), i);
    var t := Deliver(s1, i, p);
    assert t.log == s1.log + [Sent(i, p)];
    forall j: nat | j < |t.flows|
      ensures Arrivals(t.log, j) == Departures(t.log, j) + t.flows[j].queue
    {
      assert t.flows[j].queue == s1.flows[j].queue;
      SentRecords(s, i, k, s1, p, j);
    }
  }

  lemma SentRecords(s: State, i: nat, k: nat, s1: State, p: Packet, j: nat)
    requires Recorded(s) && Served(s, i, k, s1, Some(p)) && j < |s.flows|
    ensures |s1.flows| == |s.flows|
    ensures Arrivals(s1.log + [Sent(i, p)], j) == Departures(s1.log + [Sent(i, p)], j) + s1.flows[j].queue
  {
    hide Arrivals, Departures, Served, Recorded;
    ServedRecords(s, i, k, s1, Some(p), j);
    LogOne(s1.log, Sent(i, p), j);
  }

  lemma IdleEmpty(s: State)
    requires Consistent(s)
    ensures !HasListed(s) ==> s.qlen == 0
  {
    EmptyIff(s);
  }

  lemma RefillCounters(s: State)
    requires Shaped(s) && HasListed(s)
    ensures var t := RefillHead(s); t.parent == s.parent && t.qlen == s.qlen && t.dropCount == s.dropCount
  {
  }

  /** One trip through `begin` keeps everything, moves the surplus only when it
      hands out a packet, and goes round again exactly while packets remain. */
  lemma TurnKeeps(clock: Clock, s: State)
    requires Consistent(s)
    ensures match OneTurn(clock, s)
            case Idle => s.qlen == 0 && !HasListed(s)
            case Again(t) => Consistent(t) && Surplus(t) == Surplus(s) && t.dropCount >= s.dropCount
                             && t.qlen <= s.qlen && (t.qlen == 0 <==> s.qlen == 0)
            case Done(t, _) => Consistent(t) && Surplus(t) == Surplus(s) + 1 && 0 <= t.qlen < s.qlen
                               && (s.dropCount >= 0 ==> t.dropCount >= 0)
  {
    hide CodelDequeue, Served, RefillHead, RetireHead, Deliver, Counted, Scheduled, Recorded;
    IdleEmpty(s);
    if HasListed(s) {
      var i := Head(s);
      assert OnList(s, i);
      if s.flows[i].deficit <= 0 {
        RefillKeeps(s);
        RefillCounters(s);
      } else {
        var (s1, skb) := CodelDequeue(clock, s, i);
        var k := CodelEffect(clock, s, i);
        if skb.None? {
          RetireKeeps(s, i, k, s1);
        } else {
          DeliverKeeps(s, i, k, s1, skb.value);
        }
      }
    }
  }

  /** fq_codel_dequeue hands out a packet exactly when one is queued: CoDel
      never drops the last packet of the qdisc.  The ancestors then count one
      packet too many until they see it. */
  lemma {:induction false} DequeueKeeps(clock: Clock, s: State)
    requires Consistent(s)
    ensures var (t, r) := Dequeue(clock, s);
            && Consistent(t) && t.qlen <= s.qlen
            && (r.None? <==> s.qlen == 0)
            && (r.Some? ==> t.qlen < s.qlen)
            && (r.None? ==> t.newFlows == [] && t.oldFlows == [])
            && Surplus(t) == Surplus(s) + (if r.Some? then 1 else 0)
            && (s.dropCount >= 0 ==> t.dropCount >= 0)
    decreases Work(s)
  {
    hide OneTurn, Counted, Scheduled, Recorded, Work;
    TurnKeeps(clock, s);
    TurnLowersWork(clock, s);
    var turn := OneTurn(clock, s);
    if turn.Again? {
      DequeueKeeps(clock, turn.next);
    }
  }
}
