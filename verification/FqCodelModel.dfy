/** The FQ-CoDel queueing discipline as a value-level transition system: the
    state of the qdisc, the CoDel control loop that runs inside each flow, and
    the enqueue, dequeue and reconfigure operations.  The operations of the
    class in FqCodelQdisc.dfy are proved equal to these functions. */
module FqCodelModel {
  import opened Util
  import opened Words

  const U64: int := 0x1_0000_0000_0000_0000

  /** codel_time_t: a 32-bit clock of 1024 ns units that wraps. */
  type Time = t: int | 0 <= t < U32

  /** The k-th reading of the kernel clock.  Nothing is assumed about it, not
      even that it advances. */
  type Clock = nat -> Time

  /** The signed reading of a - b that the codel_time_* comparisons use. */
  function Ahead(a: int, b: int): int {
    var d := (a - b) % U32;
    if d < U32 / 2 then d else d - U32
  }

  // ----- data ---------------------------------------------------------------

  /** A packet: its length, whether it can carry an ECN mark, and the time
      stamp the qdisc writes into its control block. */
  datatype Packet = Packet(id: nat, len: pos, ect: bool, stamp: Time)

  datatype CodelVars = CodelVars(
    count: nat, lastcount: nat, dropping: bool, recInvSqrt: nat,
    firstAbove: Time, dropNext: Time, ldelay: Time)

  const FRESH_VARS := CodelVars(0, 0, false, 0, 0, 0, 0)

  datatype CodelParams = CodelParams(target: Time, interval: Time, ecn: bool)

  datatype Flow = Flow(queue: seq<Packet>, deficit: int, cvars: CodelVars)

  /** What the qdisc did, in order. */
  datatype Event =
    | Arrived(flow: nat, pkt: Packet)
    | Activated(flow: nat, credit: int)
    | Refilled(flow: nat, credit: int)
    | Sent(flow: nat, pkt: Packet)
    | CodelDropped(flow: nat, pkt: Packet)
    | OverlimitDropped(flow: nat, pkt: Packet)

  /** What CoDel saw, in order.  `Seen` is one look at a flow: the packet in hand
      if there was one, the clock reading used and how many readings had been
      taken by then, the bytes still queued in all flows, and the parameters in
      force.  `Restarted` marks a flow whose variables were cleared. */
  datatype Sight =
    | Restarted(flow: nat)
    | Seen(flow: nat, pkt: Option<Packet>, now: Time, readings: nat, left: int, params: CodelParams)

  /** The qdisc.  `parent` is the packet counter an ancestor keeps for this
      qdisc, `tick` the number of clock readings so far, `log` and `sights` the
      history. */
  datatype State = State(
    flows: seq<Flow>, backlogs: seq<int>,
    newFlows: seq<nat>, oldFlows: seq<nat>,
    quantum: int, limit: nat, params: CodelParams,
    maxpacket: nat, dropCount: int, ecnMark: nat,
    qlen: int, backlog: int,
    parent: int, tick: nat, log: seq<Event>, sights: seq<Sight>)

  predicate InRange(list: seq<nat>, n: nat) {
    forall k :: 0 <= k < |list| ==> list[k] < n
  }

  /** Indices are in range and the quantum can make progress. */
  predicate Shaped(s: State) {
    && |s.backlogs| == |s.flows| >= 1
    && s.quantum >= 1
    && InRange(s.newFlows, |s.flows|)
    && InRange(s.oldFlows, |s.flows|)
  }

  // ----- CoDel ----------------------------------------------------------------

  /** One Newton iteration towards 1/sqrt(count), in Q0.16 with 64-bit wrap. */
  function NewtonStep(v: CodelVars): CodelVars {
    var invsqrt := v.recInvSqrt * 0x1_0000;
    var invsqrt2 := invsqrt * invsqrt / U32;
    var val := (3 * U32 - v.count * invsqrt2) % U64 / 4;
    v.(recInvSqrt := (val * invsqrt) % U64 / 0x8000_0000 / 0x1_0000 % 0x1_0000)
  }

  /** t + interval / sqrt(count). */
  function ControlLaw(t: Time, interval: Time, recInvSqrt: nat): Time {
    (t + interval * (recInvSqrt * 0x1_0000) / U32) % U32
  }

  function SetVars(s: State, i: nat, v: CodelVars): State
    requires i < |s.flows|
  {
    s.(flows := s.flows[i := s.flows[i].(cvars := v)])
  }

  /** The callback CoDel uses to take the next packet of flow i. */
  function Pull(s: State, i: nat): (State, Option<Packet>)
    requires Shaped(s) && i < |s.flows|
  {
    var f := s.flows[i];
    if f.queue == [] then (s, None) else
    var p := f.queue[0];
    (s.(flows := s.flows[i := f.(queue := f.queue[1..])],
        backlogs := s.backlogs[i := s.backlogs[i] - p.len],
        qlen := s.qlen - 1),
     Some(p))
  }

  function Bytes(q: seq<Packet>): nat {
    if q == [] then 0 else Bytes(q[..|q| - 1]) + q[|q| - 1].len
  }

  /** The bytes in each flow's queue. */
  function Weights(flows: seq<Flow>): seq<int> {
    seq(|flows|, k requires 0 <= k < |flows| => Bytes(flows[k].queue))
  }

  /** The entry that one look at flow i leaves in the history. */
  function Sighting(s: State, i: nat, skb: Option<Packet>, now: Time): Sight {
    Seen(i, skb, now, s.tick, Sum(Weights(s.flows)), s.params)
  }

  /** Accounts a pulled packet and says whether CoDel may drop it. */
  function ShouldDrop(s: State, i: nat, skb: Option<Packet>, now: Time): (State, bool)
    requires i < |s.flows|
  {
    var v := s.flows[i].cvars;
    var s0 := s.(sights := s.sights + [Sighting(s, i, skb, now)]);
    if skb.None? then (SetVars(s0, i, v.(firstAbove := 0)), false) else
    var len := skb.value.len;
    var v1 := v.(ldelay := (now - skb.value.stamp) % U32);
    var s1 := s0.(backlog := s.backlog - len,
                  maxpacket := if len > s.maxpacket then len else s.maxpacket);
    if Ahead(v1.ldelay, s.params.target) < 0 || s1.backlog <= s1.maxpacket then
      (SetVars(s1, i, v1.(firstAbove := 0)), false)
    else if v1.firstAbove == 0 then
      (SetVars(s1, i, v1.(firstAbove := (now + s.params.interval) % U32)), false)
    else
      (SetVars(s1, i, v1), Ahead(now, v1.firstAbove) > 0)
  }

  /** Drops a packet CoDel has pulled. */
  function Discard(s: State, i: nat, p: Packet): State {
    s.(dropCount := s.dropCount + 1, log := s.log + [CodelDropped(i, p)])
  }

  predicate Overdue(v: CodelVars, now: Time) {
    v.dropping && Ahead(now, v.dropNext) >= 0
  }

  /** One more drop: the counter wraps, the square root is refined. */
  function CountDrop(v: CodelVars): CodelVars {
    NewtonStep(v.(count := (v.count + 1) % U32))
  }

  function Postpone(v: CodelVars, interval: Time): CodelVars {
    v.(dropNext := ControlLaw(v.dropNext, interval, v.recInvSqrt))
  }

  /** One turn of the catch-up loop that drops: the next packet, if any, and
      whether CoDel stays in the dropping state with it. */
  function DropOne(s: State, i: nat, skb: Packet, now: Time): (State, Option<Packet>)
    requires Shaped(s) && i < |s.flows|
  {
    var (s1, skb1) := Pull(Discard(s, i, skb), i);
    var (s2, drop) := ShouldDrop(s1, i, skb1, now);
    var v := s2.flows[i].cvars;
    (SetVars(s2, i, if drop then Postpone(v, s.params.interval) else v.(dropping := false)), skb1)
  }

  lemma DropOneShrinks(s: State, i: nat, skb: Packet, now: Time)
    requires Shaped(s) && i < |s.flows|
    ensures var (t, next) := DropOne(s, i, skb, now);
            Shaped(t) && |t.flows| == |s.flows|
            && (next.Some? ==> |t.flows[i].queue| < |s.flows[i].queue|)
  {
  }

  /** The catch-up loop of the dropping state: drop and pull until the next
      drop time lies ahead, the packet is acceptable, or it can be marked. */
  function DropLoop(s: State, i: nat, skb: Packet, now: Time): (State, Option<Packet>)
    requires Shaped(s) && i < |s.flows|
    decreases |s.flows[i].queue|
  {
    var v := s.flows[i].cvars;
    if !Overdue(v, now) then (s, Some(skb)) else
    var v1 := CountDrop(v);
    if s.params.ecn && skb.ect then
      (SetVars(s, i, Postpone(v1, s.params.interval)).(ecnMark := s.ecnMark + 1), Some(skb))
    else
      var (s2, skb2) := DropOne(SetVars(s, i, v1), i, skb, now);
      if skb2.None? then (s2, None) else DropLoop(s2, i, skb2.value, now)
  }

  /** The variables on entry to the dropping state. */
  function EnterDropping(v: CodelVars, interval: Time, now: Time): CodelVars {
    var v1 := v.(dropping := true);
    var v2 :=
      if Ahead((now - v1.dropNext) % U32, 16 * interval) < 0 then
        var c := (v1.count - v1.lastcount) % U32;
        NewtonStep(v1.(count := if c % 2 == 0 then c + 1 else c))
      else
        v1.(count := 1, recInvSqrt := 0xFFFF);
    v2.(lastcount := v2.count, dropNext := ControlLaw(now, interval, v2.recInvSqrt))
  }

  /** The first drop or mark, which enters the dropping state. */
  function FirstTurn(s: State, i: nat, skb: Packet, now: Time): (State, Option<Packet>)
    requires Shaped(s) && i < |s.flows|
  {
    var (t, r) :=
      if s.params.ecn && skb.ect then (s.(ecnMark := s.ecnMark + 1), Some(skb))
      else
        var (s1, skb1) := Pull(Discard(s, i, skb), i);
        (ShouldDrop(s1, i, skb1, now).0, skb1);
    (SetVars(t, i, EnterDropping(t.flows[i].cvars, s.params.interval, now)), r)
  }

  /** codel_dequeue on flow i. */
  function CodelDequeue(clock: Clock, s: State, i: nat): (State, Option<Packet>)
    requires Shaped(s) && i < |s.flows|
  {
    var (s1, skb) := Pull(s, i);
    if skb.None? then
      (SetVars(s1, i, s1.flows[i].cvars.(dropping := false)), None)
    else
      var now := clock(s.tick);
      var (s2, drop) := ShouldDrop(s1.(tick := s.tick + 1), i, skb, now);
      var v2 := s2.flows[i].cvars;
      if v2.dropping then
        if !drop then (SetVars(s2, i, v2.(dropping := false)), skb)
        else DropLoop(s2, i, skb.value, now)
      else if drop then FirstTurn(s2, i, skb.value, now)
      else (s2, skb)
  }

  // ----- what CoDel can do to a flow ------------------------------------------

  function Drops(i: nat, q: seq<Packet>): seq<Event> {
    seq(|q|, j requires 0 <= j < |q| => CodelDropped(i, q[j]))
  }

  function Taken(k: nat, skb: Option<Packet>): nat {
    if skb.Some? then k + 1 else k
  }

  /** t is s after CoDel served flow i: it dropped the first k packets of the
      queue and handed out the next one, or dropped all of them and handed out
      nothing.  Beyond that only CoDel's own variables moved. */
  predicate Served(s: State, i: nat, k: nat, t: State, skb: Option<Packet>) {
    && i < |s.flows| == |t.flows| && |s.backlogs| == |s.flows|
    && var q := s.flows[i].queue; var n := Taken(k, skb);
    && n <= |q| && (if skb.Some? then skb.value == q[k] else k == |q|)
    && t == s.(flows := s.flows[i := Flow(q[n..], s.flows[i].deficit, t.flows[i].cvars)],
               backlogs := s.backlogs[i := s.backlogs[i] - Bytes(q[..n])],
               qlen := s.qlen - n, backlog := s.backlog - Bytes(q[..n]),
               dropCount := s.dropCount + k, log := s.log + Drops(i, q[..k]),
               maxpacket := t.maxpacket, ecnMark := t.ecnMark, tick := t.tick,
               sights := t.sights)
    && t.maxpacket >= s.maxpacket
  }

  lemma TakeNext(q: seq<Packet>, n: nat, i: nat)
    requires n < |q|
    ensures Bytes(q[..n + 1]) == Bytes(q[..n]) + q[n].len
    ensures q[n..] == [q[n]] + q[n + 1..]
    ensures Drops(i, q[..n + 1]) == Drops(i, q[..n]) + [CodelDropped(i, q[n])]
  {
    assert q[..n + 1][..n] == q[..n];
  }

  /** Looking at a packet only moves the byte counters and CoDel's variables. */
  lemma LookEffect(s: State, i: nat, skb: Option<Packet>, now: Time)
    requires i < |s.flows|
    ensures var (t, drop) := ShouldDrop(s, i, skb, now);
            && |t.flows| == |s.flows|
            && t == SetVars(s, i, t.flows[i].cvars).(
                      backlog := s.backlog - (if skb.Some? then skb.value.len else 0),
                      maxpacket := t.maxpacket, sights := s.sights + [Sighting(s, i, skb, now)])
            && t.maxpacket >= s.maxpacket
            && (drop ==> skb.Some? && t.backlog > t.maxpacket)
  {
  }

  /** Dropping the packet in hand and looking at the next one. */
  lemma DropAndLook(b: State, s: State, i: nat, k: nat, skb: Packet, now: Time)
    requires Shaped(b) && Shaped(s) && Served(b, i, k, s, Some(skb))
    ensures var (t, next) := Pull(Discard(s, i, skb), i);
            var (t', drop) := ShouldDrop(t, i, next, now);
            && Served(b, i, k + 1, t', next)
            && (drop ==> next.Some? && t'.backlog > t'.maxpacket)
            && (next.None? ==> t'.backlog == s.backlog)
            && (next.Some? ==> |t'.flows[i].queue| < |s.flows[i].queue|)
  {
    hide ShouldDrop, Bytes, Drops;
    var q := b.flows[i].queue;
    TakeNext(q, k, i);
    assert s.flows[i].queue == q[k + 1..];
    if k + 1 < |q| {
      TakeNext(q, k + 1, i);
    }
    var (t, next) := Pull(Discard(s, i, skb), i);
    var (t', drop) := ShouldDrop(t, i, next, now);
    LookEffect(t, i, next, now);
    assert t'.flows == b.flows[i := t'.flows[i]];
    assert t'.backlogs == b.backlogs[i := t'.backlogs[i]];
  }

  lemma ServedVars(b: State, s: State, i: nat, k: nat, skb: Option<Packet>, v: CodelVars, marks: nat)
    requires Served(b, i, k, s, skb)
    ensures Served(b, i, k, SetVars(s, i, v).(ecnMark := marks), skb)
    ensures Served(b, i, k, SetVars(s, i, v), skb)
  {
    assert SetVars(s, i, v).flows == b.flows[i := s.flows[i].(cvars := v)];
  }

  /** One dropping turn of the catch-up loop. */
  lemma DropOneEffect(b: State, s: State, i: nat, k: nat, skb: Packet, now: Time)
    requires Shaped(b) && Shaped(s) && Served(b, i, k, s, Some(skb)) && s.backlog > 0
    ensures var (t, next) := DropOne(s, i, skb, now);
            && Served(b, i, k + 1, t, next)
            && (t.flows[i].cvars.dropping || next.None? ==> t.backlog > 0)
            && (next.Some? ==> |t.flows[i].queue| < |s.flows[i].queue|)
  {
    DropAndLook(b, s, i, k, skb, now);
    var (t, next) := Pull(Discard(s, i, skb), i);
    var (t', drop) := ShouldDrop(t, i, next, now);
    var v := t'.flows[i].cvars;
    ServedVars(b, t', i, k + 1, next,
               if drop then Postpone(v, s.params.interval) else v.(dropping := false), 0);
  }

  /** Whatever the control law decides, the catch-up loop drops a prefix of the
      queue, and it empties the flow only while other flows hold bytes. */
  lemma {:induction false} DropLoopEffect(b: State, s: State, i: nat, k: nat, skb: Packet, now: Time)
    returns (k': nat)
    requires Shaped(b) && Shaped(s) && Served(b, i, k, s, Some(skb))
    requires s.flows[i].cvars.dropping ==> s.backlog > 0
    ensures var (t, r) := DropLoop(s, i, skb, now);
            Served(b, i, k', t, r) && (r.None? ==> t.backlog > 0)
    decreases |s.flows[i].queue|
  {
    var v := s.flows[i].cvars;
    k' := k;
    if Overdue(v, now) {
      var v1 := CountDrop(v);
      if s.params.ecn && skb.ect {
        ServedVars(b, s, i, k, Some(skb), Postpone(v1, s.params.interval), s.ecnMark + 1);
      } else {
        var s1 := SetVars(s, i, v1);
        ServedVars(b, s, i, k, Some(skb), v1, 0);
        DropOneEffect(b, s1, i, k, skb, now);
        var (s2, skb2) := DropOne(s1, i, skb, now);
        k' := k + 1;
        if skb2.Some? {
          k' := DropLoopEffect(b, s2, i, k + 1, skb2.value, now);
        }
      }
    }
  }

  lemma FirstLook(s: State, i: nat, now: Time)
    requires Shaped(s) && i < |s.flows| && s.flows[i].queue != []
    ensures var (s1, skb) := Pull(s, i);
            var (s2, drop) := ShouldDrop(s1.(tick := s.tick + 1), i, skb, now);
            Served(s, i, 0, s2, skb) && (drop ==> s2.backlog > s2.maxpacket)
  {
    var (s1, skb) := Pull(s, i);
    var (s2, drop) := ShouldDrop(s1.(tick := s.tick + 1), i, skb, now);
    TakeNext(s.flows[i].queue, 0, i);
    assert s2.flows == s.flows[i := s2.flows[i]];
    assert s2.backlogs == s.backlogs[i := s2.backlogs[i]];
    assert s.log + Drops(i, []) == s.log;
  }

  /** The first drop or mark takes one packet at most. */
  lemma FirstTurnEffect(b: State, s: State, i: nat, skb: Packet, now: Time) returns (k: nat)
    requires Shaped(b) && Shaped(s) && Served(b, i, 0, s, Some(skb)) && s.backlog > 0
    ensures var (t, r) := FirstTurn(s, i, skb, now);
            Served(b, i, k, t, r) && (r.None? ==> t.backlog > 0)
  {
    hide Bytes, Drops, EnterDropping, ShouldDrop;
    if s.params.ecn && skb.ect {
      k := 0;
      var v := s.flows[i].cvars;
      ServedVars(b, s, i, 0, Some(skb), EnterDropping(v, s.params.interval, now), s.ecnMark + 1);
    } else {
      k := 1;
      DropAndLook(b, s, i, 0, skb, now);
      var (s1, skb1) := Pull(Discard(s, i, skb), i);
      var s2 := ShouldDrop(s1, i, skb1, now).0;
      ServedVars(b, s2, i, 1, skb1, EnterDropping(s2.flows[i].cvars, s.params.interval, now), 0);
    }
  }

  /** Everything codel_dequeue does to the qdisc.  Nothing comes out only if the
      flow was empty, or if bytes remain in other flows. */
  lemma CodelEffect(clock: Clock, s: State, i: nat) returns (k: nat)
    requires Shaped(s) && i < |s.flows|
    ensures var (t, r) := CodelDequeue(clock, s, i);
            Served(s, i, k, t, r) && (r.None? && s.flows[i].queue != [] ==> t.backlog > 0)
  {
    hide DropLoop, FirstTurn, Bytes, Drops;
    k := 0;
    var (s1, skb) := Pull(s, i);
    if skb.None? {
      NothingServed(s, i);
      ServedVars(s, s, i, 0, None, s.flows[i].cvars.(dropping := false), 0);
    } else {
      var now := clock(s.tick);
      FirstLook(s, i, now);
      var (s2, drop) := ShouldDrop(s1.(tick := s.tick + 1), i, skb, now);
      LookEffect(s1.(tick := s.tick + 1), i, skb, now);
      hide ShouldDrop;
      var v2 := s2.flows[i].cvars;
      if v2.dropping && !drop {
        ServedVars(s, s2, i, 0, skb, v2.(dropping := false), 0);
      } else if v2.dropping {
        k := DropLoopEffect(s, s2, i, 0, skb.value, now);
      } else if drop {
        k := FirstTurnEffect(s, s2, i, skb.value, now);
      }
    }
  }

  lemma NothingServed(s: State, i: nat)
    requires Shaped(s) && i < |s.flows| && s.flows[i].queue == []
    ensures Served(s, i, 0, s, None)
  {
    assert s.log + Drops(i, []) == s.log;
    assert s.flows[i := s.flows[i]] == s.flows && s.backlogs[i := s.backlogs[i]] == s.backlogs;
  }

  lemma CodelFrame(clock: Clock, s: State, i: nat)
    requires Shaped(s) && i < |s.flows|
    ensures var t := CodelDequeue(clock, s, i).0;
            |t.flows| == |s.flows| && t.newFlows == s.newFlows && t.oldFlows == s.oldFlows
  {
    var k := CodelEffect(clock, s, i);
  }

  // ----- the two-list round robin ----------------------------------------------

  /** Times the quantum must be added before a deficit is positive. */
  function RefillsNeeded(deficit: int, quantum: int): nat
    requires quantum >= 1
  {
    if deficit > 0 then 0 else -deficit / quantum + 1
  }

  function TotalRefills(flows: seq<Flow>, list: seq<nat>, quantum: int): nat
    requires quantum >= 1 && InRange(list, |flows|)
  {
    if list == [] then 0
    else RefillsNeeded(flows[list[0]].deficit, quantum) + TotalRefills(flows, list[1..], quantum)
  }

  /** What every trip through the `begin` label uses up. */
  function Work(s: State): nat
    requires Shaped(s)
  {
    TotalRefills(s.flows, s.newFlows, s.quantum) + TotalRefills(s.flows, s.oldFlows, s.quantum)
    + 2 * |s.newFlows| + |s.oldFlows|
  }

  predicate HasListed(s: State) {
    s.newFlows != [] || s.oldFlows != []
  }

  /** The flow at the head of the list served next: new flows come first. */
  function Head(s: State): (i: nat)
    requires Shaped(s) && HasListed(s)
    ensures i < |s.flows|
  {
    if s.newFlows != [] then s.newFlows[0] else s.oldFlows[0]
  }

  /** Takes the head off its list and appends it to the old list. */
  function RotateHead(s: State): State
    requires HasListed(s)
  {
    if s.newFlows != [] then
      s.(newFlows := s.newFlows[1..], oldFlows := s.oldFlows + [s.newFlows[0]])
    else
      s.(oldFlows := s.oldFlows[1..] + [s.oldFlows[0]])
  }

  /** A head without credit gets one quantum and goes to the old list's tail. */
  function RefillHead(s: State): State
    requires Shaped(s) && HasListed(s)
  {
    var i := Head(s);
    var f := s.flows[i];
    RotateHead(s).(flows := s.flows[i := f.(deficit := f.deficit + s.quantum)],
                   log := s.log + [Refilled(i, s.quantum)])
  }

  /** A head found empty: a new flow makes one pass through the old list if
      that is not empty, otherwise the flow leaves the lists. */
  function RetireHead(s: State): State
    requires HasListed(s)
  {
    if s.newFlows != [] && s.oldFlows != [] then RotateHead(s)
    else if s.newFlows != [] then s.(newFlows := s.newFlows[1..])
    else s.(oldFlows := s.oldFlows[1..])
  }

  /** Charges the delivered packet and passes pending CoDel drops to the
      ancestors, unless the qdisc has just become empty. */
  function Deliver(s: State, i: nat, p: Packet): State
    requires i < |s.flows|
  {
    var f := s.flows[i];
    var s1 := s.(flows := s.flows[i := f.(deficit := f.deficit - p.len)],
                 log := s.log + [Sent(i, p)]);
    if s1.dropCount != 0 && s1.qlen != 0 then
      s1.(parent := s1.parent - s1.dropCount, dropCount := 0)
    else s1
  }

  /** One trip through the `begin` label. */
  datatype Turn = Idle | Again(next: State) | Done(next: State, pkt: Packet)

  function OneTurn(clock: Clock, s: State): Turn
    requires Shaped(s)
  {
    if !HasListed(s) then Idle else
    var i := Head(s);
    if s.flows[i].deficit <= 0 then Again(RefillHead(s)) else
    var (s1, skb) := CodelDequeue(clock, s, i);
    CodelFrame(clock, s, i);
    match skb
    case None => Again(RetireHead(s1))
    case Some(p) => Done(Deliver(s1, i, p), p)
  }

  /** fq_codel_dequeue. */
  function Dequeue(clock: Clock, s: State): (State, Option<Packet>)
    requires Shaped(s)
    decreases Work(s)
  {
    TurnLowersWork(clock, s);
    match OneTurn(clock, s)
    case Idle => (s, None)
    case Again(t) => Dequeue(clock, t)
    case Done(t, p) => (t, Some(p))
  }

  // ----- termination of the `goto begin` loop -------------------------------------

  lemma {:induction false} TotalRefillsAppend(flows: seq<Flow>, list: seq<nat>, i: nat, quantum: int)
    requires quantum >= 1 && i < |flows| && InRange(list, |flows|)
    ensures TotalRefills(flows, list + [i], quantum)
         == TotalRefills(flows, list, quantum) + RefillsNeeded(flows[i].deficit, quantum)
  {
    if list != [] {
      assert (list + [i])[1..] == list[1..] + [i];
      TotalRefillsAppend(flows, list[1..], i, quantum);
    }
  }

  /** More credit never needs more refills. */
  lemma {:induction false} TotalRefillsMonotone(flows: seq<Flow>, flows': seq<Flow>, list: seq<nat>, quantum: int)
    requires quantum >= 1 && |flows'| == |flows| && InRange(list, |flows|)
    requires forall j :: 0 <= j < |flows| ==> flows[j].deficit <= flows'[j].deficit
    ensures TotalRefills(flows', list, quantum) <= TotalRefills(flows, list, quantum)
  {
    if list != [] {
      TotalRefillsMonotone(flows, flows', list[1..], quantum);
      RefillsNeededMonotone(flows[list[0]].deficit, flows'[list[0]].deficit, quantum);
    }
  }

  lemma RefillsNeededMonotone(d: int, d': int, quantum: int)
    requires quantum >= 1 && d <= d'
    ensures RefillsNeeded(d', quantum) <= RefillsNeeded(d, quantum)
  {
    if d' <= 0 {
      var a, b := -d', -d;
      MulBound(quantum, a / quantum - b / quantum);
      assert quantum * (a / quantum - b / quantum) == quantum * (a / quantum) - quantum * (b / quantum);
    }
  }

  /** A refill uses up exactly one of the refills a flow needs. */
  lemma RefillCounts(d: int, quantum: int)
    requires quantum >= 1 && d <= 0
    ensures RefillsNeeded(d + quantum, quantum) == RefillsNeeded(d, quantum) - 1
  {
    var e := -d;
    if e < quantum {
      DivUnique(e, quantum, 0, e);
    } else {
      assert e - quantum == quantum * (e / quantum - 1) + e % quantum;
      DivUnique(e - quantum, quantum, e / quantum - 1, e % quantum);
    }
  }

  lemma RefillLowersWork(s: State)
    requires Shaped(s) && HasListed(s) && s.flows[Head(s)].deficit <= 0
    ensures Shaped(RefillHead(s)) && Work(RefillHead(s)) < Work(s)
  {
    var i := Head(s);
    var s' := RefillHead(s);
    RefillCounts(s.flows[i].deficit, s.quantum);
    if s.newFlows != [] {
      TotalRefillsMonotone(s.flows, s'.flows, s.newFlows[1..], s.quantum);
      TotalRefillsMonotone(s.flows, s'.flows, s.oldFlows, s.quantum);
      TotalRefillsAppend(s'.flows, s.oldFlows, i, s.quantum);
    } else {
      TotalRefillsMonotone(s.flows, s'.flows, s.oldFlows[1..], s.quantum);
      TotalRefillsAppend(s'.flows, s.oldFlows[1..], i, s.quantum);
    }
  }

  lemma RetireLowersWork(s: State, i: nat, k: nat, s1: State)
    requires Shaped(s) && HasListed(s) && i == Head(s) && s.flows[i].deficit > 0
    requires Served(s, i, k, s1, None)
    ensures Shaped(s1) && Shaped(RetireHead(s1)) && Work(RetireHead(s1)) < Work(s)
  {
    if s.newFlows != [] {
      TotalRefillsMonotone(s.flows, s1.flows, s.newFlows[1..], s.quantum);
      TotalRefillsMonotone(s.flows, s1.flows, s.oldFlows, s.quantum);
      TotalRefillsAppend(s1.flows, s.oldFlows, i, s.quantum);
    } else {
      TotalRefillsMonotone(s.flows, s1.flows, s.oldFlows[1..], s.quantum);
    }
  }

  /** Every trip back to `begin` lowers the work left, so the loop ends. */
  lemma TurnLowersWork(clock: Clock, s: State)
    requires Shaped(s)
    ensures match OneTurn(clock, s)
            case Idle => true
            case Again(t) => Shaped(t) && Work(t) < Work(s)
            case Done(t, _) => Shaped(t)
  {
    hide CodelDequeue, Served, RefillHead, RetireHead, Deliver, Work;
    if HasListed(s) {
      var i := Head(s);
      if s.flows[i].deficit <= 0 {
        RefillLowersWork(s);
      } else {
        var (s1, skb) := CodelDequeue(clock, s, i);
        var k := CodelEffect(clock, s, i);
        if skb.None? {
          RetireLowersWork(s, i, k, s1);
        } else {
          DeliverShaped(s, i, k, s1, skb.value);
        }
      }
    }
  }

  lemma DeliverShaped(s: State, i: nat, k: nat, s1: State, p: Packet)
    requires Shaped(s) && Served(s, i, k, s1, Some(p))
    ensures Shaped(Deliver(s1, i, p))
  {
  }

  // ----- enqueue -----------------------------------------------------------------

  /** The first flow of maximum backlog. */
  function Fattest(b: seq<int>): (k: nat)
    requires |b| >= 1
    ensures k < |b|
    ensures forall j :: 0 <= j < |b| ==> b[j] <= b[k]
    ensures forall j :: 0 <= j < k ==> b[j] < b[k]
  {
    if |b| == 1 then 0 else
    var m := Fattest(b[..|b| - 1]);
    if b[|b| - 1] > b[m] then |b| - 1 else m
  }

  predicate CanDrop(s: State) {
    Shaped(s) && s.flows[Fattest(s.backlogs)].queue != []
  }

  /** fq_codel_drop: head-drops from the fattest flow. */
  function DropFattest(s: State): (State, nat)
    requires CanDrop(s)
  {
    var k := Fattest(s.backlogs);
    var f := s.flows[k];
    var p := f.queue[0];
    (s.(flows := s.flows[k := f.(queue := f.queue[1..])],
        backlogs := s.backlogs[k := s.backlogs[k] - p.len],
        qlen := s.qlen - 1, backlog := s.backlog - p.len,
        log := s.log + [OverlimitDropped(k, p)]),
     k)
  }

  datatype Verdict = Success | CongestionNotification | Bypassed | Stolen

  /** Classification: a flow number, or a refusal with its return code. */
  datatype Class = Assigned(flow: nat) | Refused(code: Verdict)

  predicate OnList(s: State, i: nat) {
    i in s.newFlows || i in s.oldFlows
  }

  /** Queues the packet and lists its flow, before the limit is checked. */
  function Append(clock: Clock, s: State, i: nat, p: Packet): State
    requires Shaped(s) && i < |s.flows|
  {
    var q := p.(stamp := clock(s.tick));
    var f := s.flows[i].(queue := s.flows[i].queue + [q]);
    var s1 := s.(backlogs := s.backlogs[i := s.backlogs[i] + p.len],
                 backlog := s.backlog + p.len, qlen := s.qlen + 1,
                 tick := s.tick + 1, log := s.log + [Arrived(i, q)]);
    if OnList(s, i) then
      s1.(flows := s.flows[i := f])
    else
      s1.(flows := s.flows[i := f.(deficit := s.quantum, cvars := FRESH_VARS)],
          newFlows := s.newFlows + [i],
          log := s1.log + [Activated(i, s.quantum)], sights := s.sights + [Restarted(i)])
  }

  /** fq_codel_enqueue once the packet is classified. */
  function EnqueueTo(clock: Clock, s: State, i: nat, p: Packet): (State, Verdict)
    requires Shaped(s) && i < |s.flows|
    requires CanDrop(Append(clock, s, i, p))
  {
    var s1 := Append(clock, s, i, p);
    if s1.qlen < s1.limit then (s1, Success) else
    var (s2, k) := DropFattest(s1);
    if k == i then (s2, CongestionNotification)
    else (s2.(parent := s2.parent - 1), Success)
  }

  // ----- reconfiguration -----------------------------------------------------------

  /** The attributes of a change request that are present. */
  datatype Options = Options(
    flows: Option<nat>, target: Option<Time>, interval: Option<Time>,
    limit: Option<nat>, ecn: Option<bool>, quantum: Option<nat>)

  function Get<T>(o: Option<T>, default: T): T {
    if o.Some? then o.value else default
  }

  /** Microseconds to clock units. */
  function ToTime(usec: Time): Time {
    usec * 1000 / 1024
  }

  function Reconfigure(s: State, o: Options): State {
    s.(params := CodelParams(
         if o.target.Some? then ToTime(o.target.value) else s.params.target,
         if o.interval.Some? then ToTime(o.interval.value) else s.params.interval,
         Get(o.ecn, s.params.ecn)),
       limit := Get(o.limit, s.limit),
       quantum := match o.quantum
                  case Some(q) => if q > 256 then q else 256
                  case None => s.quantum)
  }

  /** One turn of the drain loop. */
  function DrainOne(clock: Clock, s: State): State
    requires Shaped(s)
  {
    var s1 := Dequeue(clock, s).0;
    s1.(dropCount := s1.dropCount + 1)
  }

  function Flush(s: State): State {
    s.(parent := s.parent - s.dropCount, dropCount := 0)
  }
}
