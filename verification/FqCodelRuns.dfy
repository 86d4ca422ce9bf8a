/** Whole runs of the queueing discipline under an ancestor that counts its
    packets: any sequence of enqueues, dequeues and reconfigurations. */
module FqCodelRuns {
  import opened Util
  import opened FqCodelModel
  import opened FqCodelInvariants

  // ----- enqueue -------------------------------------------------------------------

  lemma AppendCounts(clock: Clock, s: State, i: nat, p: Packet)
    requires Consistent(s) && i < |s.flows|
    ensures Counted(Append(clock, s, i, p))
  {
    hide Scheduled, Recorded;
    var t := Append(clock, s, i, p);
    var q := t.flows[i].queue;
    assert q[..|q| - 1] == s.flows[i].queue;
    CountedUpdate(s, i, t);
  }

  lemma AppendRecords(clock: Clock, s: State, i: nat, p: Packet)
    requires Consistent(s) && i < |s.flows|
    ensures Recorded(Append(clock, s, i, p))
  {
    var t := Append(clock, s, i, p);
    var e := Arrived(i, p.(stamp := clock(s.tick)));
    forall j: nat | j < |s.flows|
      ensures Arrivals(t.log, j) == Departures(t.log, j) + t.flows[j].queue
    {
      LogOne(s.log, e, j);
      LogOne(s.log + [e], Activated(i, s.quantum), j);
    }
  }

  /** Queueing a packet keeps the invariant, so an overlimit drop can follow. */
  lemma AppendKeeps(clock: Clock, s: State, i: nat, p: Packet)
    requires Consistent(s) && i < |s.flows|
    ensures var t := Append(clock, s, i, p);
            Consistent(t) && CanDrop(t) && Surplus(t) == Surplus(s) - 1
  {
    hide Bytes, Recorded;
    var t := Append(clock, s, i, p);
    AppendCounts(clock, s, i, p);
    AppendRecords(clock, s, i, p);
    EmptyIff(s);
    FattestHasPacket(t) by {
      assert Shaped(t);
    }
    assert Scheduled(t) by {
      var a := s.newFlows + s.oldFlows;
      assert forall j :: j in a <==> OnList(s, j);
      if !OnList(s, i) {
        assert t.newFlows + t.oldFlows == s.newFlows + [i] + s.oldFlows;
        AddDistinct(s.newFlows, s.oldFlows, i);
      }
    }
  }

  lemma AddDistinct(a: seq<nat>, b: seq<nat>, x: nat)
    requires Distinct(a + b) && x !in a && x !in b
    ensures Distinct(a + [x] + b)
  {
    var c := a + [x] + b;
    forall i, j | 0 <= i < j < |c| ensures c[i] != c[j] {
      var i' := if i < |a| then i else i - 1;
      var j' := if j < |a| then j else j - 1;
      assert i != |a| ==> c[i] == (a + b)[i'];
      assert j != |a| ==> c[j] == (a + b)[j'];
      assert x !in a + b;
    }
  }

  lemma DropFattestKeeps(s: State)
    requires Consistent(s) && CanDrop(s)
    ensures var t := DropFattest(s).0; Consistent(t) && Surplus(t) == Surplus(s) + 1
  {
    DropFattestCounts(s);
    DropFattestRecords(s);
    hide Counted, Recorded, Distinct;
  }

  lemma HeadOff<T>(d: seq<T>, q: seq<T>)
    requires q != []
    ensures d + q == d + [q[0]] + q[1..]
  {
  }

  lemma DropRecord(log: seq<Event>, k: nat, q: seq<Packet>, j: nat, own: seq<Packet>)
    requires q != [] && Arrivals(log, j) == Departures(log, j) + own && (j == k ==> own == q)
    ensures var log' := log + [OverlimitDropped(k, q[0])];
            Arrivals(log', j) == Departures(log', j) + (if j == k then q[1..] else own)
  {
    hide Arrivals, Departures;
    LogOne(log, OverlimitDropped(k, q[0]), j);
    HeadOff(Departures(log, j), q);
  }

  lemma DropFattestRecords(s: State)
    requires Recorded(s) && CanDrop(s)
    ensures Recorded(DropFattest(s).0)
  {
    hide Fattest, Arrivals, Departures;
    var (t, k) := DropFattest(s);
    forall j: nat | j < |s.flows|
      ensures Arrivals(t.log, j) == Departures(t.log, j) + t.flows[j].queue
    {
      DropRecord(s.log, k, s.flows[k].queue, j, s.flows[j].queue);
    }
  }

  lemma DropFattestCounts(s: State)
    requires Counted(s) && CanDrop(s)
    ensures Counted(DropFattest(s).0)
  {
    var (t, k) := DropFattest(s);
    var q := s.flows[k].queue;
    BytesSplit(q, 1);
    assert Bytes(q[..1]) == q[0].len;
    CountedUpdate(s, k, t);
  }

  /** fq_codel_enqueue: the ancestors' counter comes out right whether nothing
      was dropped, a packet of this flow was (congestion notification, and the
      ancestors add nothing), or a packet of another flow was (success, and the
      ancestors are told).  The limit is not exceeded. */
  lemma EnqueueKeeps(clock: Clock, s: State, i: nat, p: Packet)
    requires Consistent(s) && i < |s.flows|
    ensures CanDrop(Append(clock, s, i, p))
    ensures var (t, v) := EnqueueTo(clock, s, i, p);
            && Consistent(t) && Surplus(t) == Surplus(s) - (if v.Success? then 1 else 0)
            && (v.Success? || v.CongestionNotification?)
            && (s.qlen <= s.limit ==> t.qlen <= t.limit)
            && t.dropCount == s.dropCount && t.quantum == s.quantum
  {
    hide Bytes, Counted, Scheduled, Recorded;
    AppendKeeps(clock, s, i, p);
    var s1 := Append(clock, s, i, p);
    DropFattestKeeps(s1);
    var s2 := DropFattest(s1).0;
    BooksOnly(s2, s2.parent - 1, s2.dropCount);
  }

  /** Flow j's queue once packet q has been put at the end of flow i's. */
  function Joined(s: State, i: nat, q: Packet, j: nat): seq<Packet>
    requires j < |s.flows|
  {
    if j == i then s.flows[j].queue + [q] else s.flows[j].queue
  }

  /** Flow k is the first of those with most bytes queued. */
  predicate Heaviest(s: State, i: nat, q: Packet, k: nat) {
    && k < |s.flows|
    && (forall j :: 0 <= j < |s.flows| ==> Bytes(Joined(s, i, q, j)) <= Bytes(Joined(s, i, q, k)))
    && (forall j :: 0 <= j < k ==> Bytes(Joined(s, i, q, j)) < Bytes(Joined(s, i, q, k)))
  }

  /** The overlimit drop took the oldest packet of flow k and nothing else. */
  predicate HeadDropped(s: State, i: nat, q: Packet, t: State, k: nat) {
    && |t.flows| == |s.flows| && Heaviest(s, i, q, k) && Joined(s, i, q, k) != []
    && (forall j: nat :: j < |s.flows| ==>
          && t.flows[j].queue == Joined(s, i, q, j)[One(j == k)..]
          && Departures(t.log, j) == Departures(s.log, j) + (if j == k then [Joined(s, i, q, k)[0]] else []))
  }

  /** The packet went to the end of its queue and nothing left. */
  predicate Kept(s: State, i: nat, q: Packet, t: State) {
    && |t.flows| == |s.flows|
    && (forall j: nat :: j < |s.flows| ==>
          t.flows[j].queue == Joined(s, i, q, j) && Departures(t.log, j) == Departures(s.log, j))
  }

  lemma AppendJoins(clock: Clock, s: State, i: nat, p: Packet)
    requires Consistent(s) && i < |s.flows|
    ensures var q := p.(stamp := clock(s.tick)); Kept(s, i, q, Append(clock, s, i, p))
  {
    hide Departures;
    var t, e := Append(clock, s, i, p), Arrived(i, p.(stamp := clock(s.tick)));
    forall j: nat | j < |s.flows| ensures Departures(t.log, j) == Departures(s.log, j) {
      LogOne(s.log, e, j);
      LogOne(s.log + [e], Activated(i, s.quantum), j);
    }
  }

  lemma DropFattestTakes(s: State, i: nat, q: Packet, u: State)
    requires Kept(s, i, q, u) && Consistent(u) && CanDrop(u)
    ensures var (t, k) := DropFattest(u); HeadDropped(s, i, q, t, k)
  {
    hide Departures, Bytes, Scheduled, Recorded;
    var (t, k) := DropFattest(u);
    forall j: nat | j < |s.flows| ensures u.backlogs[j] == Bytes(Joined(s, i, q, j)) {
    }
    forall j: nat | j < |s.flows|
      ensures Departures(t.log, j) == Departures(s.log, j) + (if j == k then [Joined(s, i, q, k)[0]] else [])
    {
      LogOne(u.log, OverlimitDropped(k, u.flows[k].queue[0]), j);
    }
  }

  /** A packet offered to flow i is stamped with a fresh clock reading and put at
      the end of its queue.  If that leaves fewer packets than the limit, this is
      all that happens.  Otherwise exactly one packet leaves: the oldest of
      the first flow with most bytes queued, the new packet included. */
  lemma EnqueueExact(clock: Clock, s: State, i: nat, p: Packet) returns (k: nat)
    requires Consistent(s) && i < |s.flows|
    ensures CanDrop(Append(clock, s, i, p))
    ensures var (t, v) := EnqueueTo(clock, s, i, p);
            var q := p.(stamp := clock(s.tick));
            && t.tick == s.tick + 1
            && (if s.qlen + 1 < s.limit then Kept(s, i, q, t) && v == Success
                else && HeadDropped(s, i, q, t, k)
                     && v == if k == i then CongestionNotification else Success)
  {
    hide Append, DropFattest, Fattest, Counted, Scheduled, Recorded, HeadDropped;
    AppendKeeps(clock, s, i, p);
    AppendJoins(clock, s, i, p);
    AppendCounters(clock, s, i, p);
    var q, u := p.(stamp := clock(s.tick)), Append(clock, s, i, p);
    k := DropFattest(u).1;
    DropFattestTakes(s, i, q, u);
    DropFattestCounters(u);
    BooksAside(s, i, q, DropFattest(u).0, k, DropFattest(u).0.parent - 1);
  }

  lemma AppendCounters(clock: Clock, s: State, i: nat, p: Packet)
    requires Shaped(s) && i < |s.flows|
    ensures var t := Append(clock, s, i, p); t.qlen == s.qlen + 1 && t.limit == s.limit && t.tick == s.tick + 1
  {
  }

  lemma DropFattestCounters(s: State)
    requires CanDrop(s)
    ensures DropFattest(s).0.tick == s.tick
  {
  }

  lemma BooksAside(s: State, i: nat, q: Packet, t: State, k: nat, parent: int)
    requires HeadDropped(s, i, q, t, k)
    ensures HeadDropped(s, i, q, t.(parent := parent), k)
  {
  }

  // ----- reconfiguration -------------------------------------------------------------

  /** The drain loop of fq_codel_change. */
  function Drain(clock: Clock, s: State): State
    requires Consistent(s)
    decreases s.qlen
  {
    if s.qlen <= s.limit then s else
    DequeueKeeps(clock, s);
    Drain(clock, DrainOne(clock, s))
  }

  /** Draining stops at the limit and keeps the ancestors' counter explained. */
  lemma {:induction false} DrainKeeps(clock: Clock, s: State)
    requires Consistent(s)
    ensures var t := Drain(clock, s);
            && Consistent(t) && Surplus(t) == Surplus(s) && t.qlen <= t.limit
            && (s.dropCount >= 0 ==> t.dropCount >= 0)
    decreases s.qlen
  {
    hide Dequeue;
    if s.qlen > s.limit {
      DequeueKeeps(clock, s);
      DequeueFrame(clock, s);
      DrainKeeps(clock, DrainOne(clock, s));
    }
  }

  /** Dequeueing never touches the configuration. */
  lemma {:induction false} DequeueFrame(clock: Clock, s: State)
    requires Shaped(s)
    ensures var t := Dequeue(clock, s).0;
            t.limit == s.limit && t.quantum == s.quantum && t.params == s.params && |t.flows| == |s.flows|
    decreases Work(s)
  {
    TurnLowersWork(clock, s);
    TurnFrame(clock, s);
    hide OneTurn, Work;
    var turn := OneTurn(clock, s);
    if turn.Again? {
      DequeueFrame(clock, turn.next);
    }
  }

  lemma TurnFrame(clock: Clock, s: State)
    requires Shaped(s)
    ensures var turn := OneTurn(clock, s); !turn.Idle? ==>
              && turn.next.limit == s.limit && turn.next.quantum == s.quantum
              && turn.next.params == s.params && |turn.next.flows| == |s.flows|
  {
    if HasListed(s) && s.flows[Head(s)].deficit > 0 {
      var k := CodelEffect(clock, s, Head(s));
      hide CodelDequeue;
    }
  }

  /** When the ancestors hear of CoDel's drops: with the next packet that goes out and leaves
      another one behind, and never while the qdisc is empty. */
  lemma {:induction false} DequeueReports(clock: Clock, s: State)
    requires Shaped(s)
    ensures var (t, r) := Dequeue(clock, s);
            if r.Some? && t.qlen != 0 then t.dropCount == 0 else t.parent == s.parent
    decreases Work(s)
  {
    TurnLowersWork(clock, s);
    TurnReports(clock, s);
    hide OneTurn, Work;
    var turn := OneTurn(clock, s);
    if turn.Again? {
      DequeueReports(clock, turn.next);
    }
  }

  lemma TurnReports(clock: Clock, s: State)
    requires Shaped(s)
    ensures match OneTurn(clock, s)
            case Idle => true
            case Again(t) => t.parent == s.parent
            case Done(t, _) => if t.qlen != 0 then t.dropCount == 0 else t.parent == s.parent
  {
    if HasListed(s) && s.flows[Head(s)].deficit > 0 {
      var k := CodelEffect(clock, s, Head(s));
      hide CodelDequeue;
    }
  }

  lemma ReconfigureKeeps(s: State, o: Options)
    requires Consistent(s)
    ensures Consistent(Reconfigure(s, o)) && Surplus(Reconfigure(s, o)) == Surplus(s)
  {
  }

  // ----- runs ------------------------------------------------------------------------

  /** What can be asked of the qdisc. */
  datatype Op =
    | Offer(to: Class, pkt: Packet)
    | Fetch
    | Configure(o: Options)

  predicate Legal(op: Op, flows: nat) {
    op.Offer? && op.to.Assigned? ==> op.to.flow < flows
  }

  /** One request, together with what the ancestors do about its outcome: they
      count a packet accepted with success and uncount one they receive.  A
      change of the number of flows is refused once the flows exist. */
  function Step(clock: Clock, s: State, op: Op): State
    requires Consistent(s) && Legal(op, |s.flows|)
  {
    match op
    case Offer(Refused(_), _) => s
    case Offer(Assigned(i), p) =>
      EnqueueKeeps(clock, s, i, p);
      var (t, v) := EnqueueTo(clock, s, i, p);
      if v.Success? then t.(parent := t.parent + 1) else t
    case Fetch =>
      var (t, r) := Dequeue(clock, s);
      if r.Some? then t.(parent := t.parent - 1) else t
    case Configure(o) =>
      if o.flows.Some? then s else
      ReconfigureKeeps(s, o);
      Flush(Drain(clock, Reconfigure(s, o)))
  }

  /** The invariant of runs. */
  predicate Good(s: State) {
    && Consistent(s)
    && s.parent == s.qlen + s.dropCount
    && s.dropCount >= 0
    && s.qlen <= s.limit
  }

  lemma OfferGood(clock: Clock, s: State, i: nat, p: Packet)
    requires Good(s) && i < |s.flows|
    ensures var t := Step(clock, s, Offer(Assigned(i), p)); Good(t) && |t.flows| == |s.flows|
  {
    hide EnqueueTo, Append, Fattest, Counted, Scheduled, Recorded;
    EnqueueKeeps(clock, s, i, p);
    EnqueueFrame(clock, s, i, p);
    var (t, _) := EnqueueTo(clock, s, i, p);
    BooksOnly(t, t.parent + 1, t.dropCount);
  }

  lemma FetchGood(clock: Clock, s: State)
    requires Good(s)
    ensures var t := Step(clock, s, Fetch); Good(t) && |t.flows| == |s.flows|
  {
    hide Dequeue, Counted, Scheduled, Recorded;
    DequeueKeeps(clock, s);
    DequeueFrame(clock, s);
    var (t, _) := Dequeue(clock, s);
    BooksOnly(t, t.parent - 1, t.dropCount);
  }

  lemma ConfigureGood(clock: Clock, s: State, o: Options)
    requires Good(s)
    ensures var t := Step(clock, s, Configure(o)); Good(t) && |t.flows| == |s.flows|
  {
    hide Drain, Counted, Scheduled, Recorded;
    ReconfigureKeeps(s, o);
    DrainKeeps(clock, Reconfigure(s, o));
    DrainFrame(clock, Reconfigure(s, o));
    var t := Drain(clock, Reconfigure(s, o));
    BooksOnly(t, t.parent - t.dropCount, 0);
  }

  /** Every request keeps the invariant of runs. */
  lemma StepGood(clock: Clock, s: State, op: Op)
    requires Good(s) && Legal(op, |s.flows|)
    ensures var t := Step(clock, s, op); Good(t) && |t.flows| == |s.flows|
  {
    match op
    case Offer(Refused(_), _) =>
    case Offer(Assigned(i), p) => OfferGood(clock, s, i, p);
    case Fetch => FetchGood(clock, s);
    case Configure(o) => ConfigureGood(clock, s, o);
  }

  lemma BooksOnly(s: State, parent: int, dropCount: int)
    requires Consistent(s)
    ensures Consistent(s.(parent := parent, dropCount := dropCount))
    ensures Consistent(s.(dropCount := dropCount))
    ensures Consistent(s.(parent := parent))
  {
  }

  lemma EnqueueFrame(clock: Clock, s: State, i: nat, p: Packet)
    requires Shaped(s) && i < |s.flows| && CanDrop(Append(clock, s, i, p))
    ensures |EnqueueTo(clock, s, i, p).0.flows| == |s.flows|
  {
  }

  lemma {:induction false} DrainFrame(clock: Clock, s: State)
    requires Consistent(s)
    ensures var t := Drain(clock, s);
            t.limit == s.limit && t.quantum == s.quantum && t.params == s.params && |t.flows| == |s.flows|
    decreases s.qlen
  {
    hide Dequeue;
    if s.qlen > s.limit {
      DequeueKeeps(clock, s);
      DequeueFrame(clock, s);
      DrainFrame(clock, DrainOne(clock, s));
    }
  }

  /** x clock units are usec microseconds, rounded down; one unit is 1024 ns. */
  predicate IsTime(x: Time, usec: nat) {
    1024 * x <= 1000 * usec < 1024 * (x + 1)
  }

  /** After a change every value given is in force, times in clock units and the
      quantum not below 256, every value not given is as before, and the packets
      queued respect the new limit.  A change of the number of flows is refused
      as a whole. */
  lemma ConfigureExact(clock: Clock, s: State, o: Options)
    requires Good(s)
    ensures var t := Step(clock, s, Configure(o));
            if o.flows.Some? then t == s else
            && (if o.target.Some? then IsTime(t.params.target, o.target.value) else t.params.target == s.params.target)
            && (if o.interval.Some? then IsTime(t.params.interval, o.interval.value)
                else t.params.interval == s.params.interval)
            && t.params.ecn == (if o.ecn.Some? then o.ecn.value else s.params.ecn)
            && t.limit == (if o.limit.Some? then o.limit.value else s.limit) && t.qlen <= t.limit
            && (if o.quantum.Some? then t.quantum >= 256 && t.quantum >= o.quantum.value
                                        && (t.quantum == 256 || t.quantum == o.quantum.value)
                else t.quantum == s.quantum)
  {
    hide Drain, Counted, Scheduled, Recorded;
    if o.flows.None? {
      ReconfigureKeeps(s, o);
      var s1 := Reconfigure(s, o);
      DrainKeeps(clock, s1);
      DrainFrame(clock, s1);
    }
  }

  predicate AllLegal(ops: seq<Op>, flows: nat) {
    forall k :: 0 <= k < |ops| ==> Legal(ops[k], flows)
  }

  /** The state after a sequence of requests. */
  function Run(clock: Clock, s: State, ops: seq<Op>): State
    requires Good(s) && AllLegal(ops, |s.flows|)
    decreases |ops|
  {
    if ops == [] then s else
    StepGood(clock, s, ops[0]);
    Run(clock, Step(clock, s, ops[0]), ops[1..])
  }

  /** The state fq_codel_init sets up. */
  function Initial(flows: pos, quantum: pos, limit: nat, params: CodelParams): State {
    State(seq(flows, _ => Flow([], 0, FRESH_VARS)), seq(flows, _ => 0), [], [],
          quantum, limit, params, 256, 0, 0, 0, 0, 0, 0, [], [])
  }

  lemma {:induction false} SumOfZeros(xs: seq<int>)
    requires forall k :: 0 <= k < |xs| ==> xs[k] == 0
    ensures Sum(xs) == 0
  {
    SumZero(xs);
  }

  lemma InitialGood(flows: pos, quantum: pos, limit: nat, params: CodelParams)
    ensures Good(Initial(flows, quantum, limit, params))
  {
    var s := Initial(flows, quantum, limit, params);
    SumOfZeros(s.backlogs);
    SumOfZeros(Lengths(s.flows));
  }

  /** Every reachable state satisfies the invariant: backlogs, packet counts and
      lists agree, the limit holds, every flow is a FIFO, and the ancestors
      count the queued packets plus the CoDel drops not yet reported. */
  lemma {:induction false} RunGood(clock: Clock, s: State, ops: seq<Op>)
    requires Good(s) && AllLegal(ops, |s.flows|)
    ensures var t := Run(clock, s, ops); Good(t) && |t.flows| == |s.flows|
    decreases |ops|
  {
    if ops != [] {
      StepGood(clock, s, ops[0]);
      hide Step, Good;
      RunGood(clock, Step(clock, s, ops[0]), ops[1..]);
    }
  }

  /** The state after these requests to a fresh qdisc. */
  ghost function Reached(clock: Clock, flows: pos, q: pos, limit: nat, params: CodelParams, ops: seq<Op>): (s: State)
    requires AllLegal(ops, flows)
    ensures Good(s) && |s.flows| == flows
  {
    InitialGood(flows, q, limit, params);
    RunGood(clock, Initial(flows, q, limit, params), ops);
    Run(clock, Initial(flows, q, limit, params), ops)
  }

  // ----- no reordering -----------------------------------------------------------------

  /** a is b with some elements left out: at says where each one was. */
  predicate Embeds<T(==)>(a: seq<T>, b: seq<T>, at: seq<nat>) {
    && |at| == |a|
    && (forall k :: 0 <= k < |at| ==> at[k] < |b| && b[at[k]] == a[k])
    && (forall k, l :: 0 <= k < l < |at| ==> at[k] < at[l])
  }

  lemma {:induction false} SendsEmbed(log: seq<Event>, i: nat) returns (at: seq<nat>)
    ensures Embeds(Sends(log, i), Departures(log, i), at)
  {
    at := [];
    if log != [] {
      var n := |log| - 1;
      at := SendsEmbed(log[..n], i);
      LogOne(log[..n], log[n], i);
      assert log == log[..n] + [log[n]];
      if log[n].Sent? && log[n].flow == i {
        at := at + [|Departures(log[..n], i)|];
      }
    }
  }

  /** In every run, what a flow delivers is a subsequence of what it was given. */
  lemma NoReordering(clock: Clock, s: State, ops: seq<Op>, i: nat)
    requires Good(s) && AllLegal(ops, |s.flows|) && i < |s.flows|
    ensures var t := Run(clock, s, ops);
            exists at :: Embeds(Sends(t.log, i), Arrivals(t.log, i), at)
  {
    RunGood(clock, s, ops);
    var t := Run(clock, s, ops);
    hide Run;
    var at := SendsEmbed(t.log, i);
    assert Embeds(Sends(t.log, i), Arrivals(t.log, i), at);
  }
}
