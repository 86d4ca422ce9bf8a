/** What CoDel does in whole runs: every drop goes back to a look that allowed
    it, every look and every stamp is a clock reading of its own, and a flow
    that was idle is served at once. */
module FqCodelHistory {
  import opened Util
  import opened Words
  import opened FqCodelModel
  import opened FqCodelInvariants
  import opened FqCodelRuns
  import opened FqCodelControl
  import opened FqCodelDecisions
  import opened FqCodelDrops

  // ----- the invariant of runs ------------------------------------------------------------

  /** Look n was at packet p of flow i and allowed to drop it. */
  predicate AllowedAt(h: seq<Sight>, n: nat, i: nat, p: Packet) {
    n < |h| && h[n].Seen? && h[n].flow == i && h[n].pkt == Some(p) && Allowed(h, n)
  }

  /** Every packet CoDel dropped goes back to a look that allowed it. */
  predicate Justified(s: State) {
    forall m :: 0 <= m < |s.log| && s.log[m].CodelDropped? ==>
      exists n: nat :: n < |s.sights| && AllowedAt(s.sights, n, s.log[m].flow, s.log[m].pkt)
  }

  /** Every look used the clock reading taken last. */
  predicate Timed(clock: Clock, s: State) {
    forall n :: 0 <= n < |s.sights| && s.sights[n].Seen? ==>
      && 1 <= s.sights[n].readings <= s.tick
      && s.sights[n].now == clock(s.sights[n].readings - 1)
  }

  /** The packets are stamped with clock readings of their own, in order: reading
      number at[k] for packet k. */
  predicate StampedAt(clock: Clock, ps: seq<Packet>, at: seq<nat>, tick: nat) {
    && |at| == |ps|
    && (forall k :: 0 <= k < |at| ==> at[k] < tick && ps[k].stamp == clock(at[k]))
    && (forall k, l :: 0 <= k < l < |at| ==> at[k] < at[l])
  }

  ghost predicate FlowStamped(clock: Clock, ps: seq<Packet>, tick: nat) {
    exists at :: StampedAt(clock, ps, at, tick)
  }

  ghost predicate Stamped(clock: Clock, s: State) {
    forall i :: 0 <= i < |s.flows| ==> FlowStamped(clock, Arrivals(s.log, i), s.tick)
  }

  ghost predicate Lawful(clock: Clock, s: State) {
    && Remembers(s) && (forall i :: 0 <= i < |s.flows| ==> Sane(s.flows[i].cvars))
    && Justified(s) && Timed(clock, s) && Stamped(clock, s)
  }

  lemma LawfulWatches(clock: Clock, s: State)
    requires Consistent(s) && Lawful(clock, s)
    ensures Watchful(s)
  {
    assert s.backlogs == Weights(s.flows);
  }

  // ----- one dequeue -------------------------------------------------------------------------

  /** Nothing CoDel or the clock is concerned with has changed, and no packet came. */
  predicate Quiet(s: State, t: State) {
    && |t.flows| == |s.flows| && t.sights == s.sights && t.maxpacket == s.maxpacket && t.tick == s.tick
    && (forall i :: 0 <= i < |s.flows| ==> t.flows[i].cvars == s.flows[i].cvars)
    && s.log <= t.log
    && (forall m :: |s.log| <= m < |t.log| ==> !t.log[m].CodelDropped? && !t.log[m].Arrived?)
  }

  lemma {:induction false} ArrivalsSame(a: seq<Event>, b: seq<Event>, i: nat)
    requires a <= b && forall m :: |a| <= m < |b| ==> !b[m].Arrived?
    ensures Arrivals(b, i) == Arrivals(a, i)
    decreases |b|
  {
    if |a| < |b| {
      var n := |b| - 1;
      ArrivalsSame(a, b[..n], i);
    } else {
      assert a == b;
    }
  }

  lemma QuietLawful(clock: Clock, s: State, t: State)
    requires Lawful(clock, s) && Quiet(s, t)
    ensures Lawful(clock, t)
  {
    hide Arrivals, Since, Largest, Sane, StampedAt, AllowedAt;
    forall i: nat | i < |s.flows| ensures Arrivals(t.log, i) == Arrivals(s.log, i) {
      ArrivalsSame(s.log, t.log, i);
    }
    assert Justified(t) by {
      forall m | 0 <= m < |t.log| && t.log[m].CodelDropped?
        ensures exists n: nat :: n < |t.sights| && AllowedAt(t.sights, n, t.log[m].flow, t.log[m].pkt)
      {
        assert t.log[m] == s.log[m];
      }
    }
    assert Stamped(clock, t) by {
      StampsStay(clock, s, t);
    }
  }

  lemma StampsStay(clock: Clock, s: State, t: State)
    requires Stamped(clock, s) && |t.flows| == |s.flows| && t.tick >= s.tick
    requires forall i: nat :: i < |s.flows| ==> Arrivals(t.log, i) == Arrivals(s.log, i)
    ensures Stamped(clock, t)
  {
    hide Arrivals;
    forall i: nat | i < |s.flows| ensures FlowStamped(clock, Arrivals(t.log, i), t.tick) {
      assert FlowStamped(clock, Arrivals(s.log, i), s.tick);
      var at :| StampedAt(clock, Arrivals(s.log, i), at, s.tick);
      assert StampedAt(clock, Arrivals(t.log, i), at, t.tick);
    }
  }

  /** The packets codel_dequeue dropped were allowed to be. */
  lemma DropsAllowed(clock: Clock, s: State, i: nat, t: State, k: nat, paces: seq<Pace>, j: nat)
    requires Watchful(s) && Outcome(clock, s, i, t, k, paces) && j < k
    ensures i < |s.flows| && j < |s.flows[i].queue|
    ensures AllowedAt(t.sights, |s.sights| + j, i, s.flows[i].queue[j])
  {
    hide Watchful, Allowed, Paced;
  }

  lemma OutcomeTimed(clock: Clock, s: State, i: nat, t: State, k: nat, paces: seq<Pace>)
    requires Timed(clock, s) && Outcome(clock, s, i, t, k, paces)
    ensures Timed(clock, t)
  {
    hide Watchful, Allowed, Paced, AllDropped, Stopped, FirstDrop;
    var q, n := s.flows[i].queue, |s.sights|;
    forall m | 0 <= m < |t.sights| && t.sights[m].Seen?
      ensures 1 <= t.sights[m].readings <= t.tick && t.sights[m].now == clock(t.sights[m].readings - 1)
    {
      if m < n {
        assert t.sights[m] == s.sights[m];
      } else {
        var s', j := s.(tick := s.tick + 1), m - n;
        assert t.sights[m] == t.sights[n + j];
        assert IsLook(t.sights[n + j], s', i, if j < k then Some(q[j]) else Front(q[k..]), clock(s.tick));
      }
    }
  }

  lemma SameCount(s: State, i: nat, k: nat, k': nat, t: State, r: Option<Packet>)
    requires Served(s, i, k', t, r) && k <= |s.flows[i].queue| && r == Front(s.flows[i].queue[k..])
    requires t.flows[i].queue == Rest(s.flows[i].queue[k..])
    ensures k == k'
  {
  }

  lemma ServedLawful(clock: Clock, s: State, i: nat)
    requires Consistent(s) && Lawful(clock, s) && i < |s.flows|
    ensures var t := CodelDequeue(clock, s, i).0; |t.flows| == |s.flows| && Lawful(clock, t)
  {
    hide CodelDequeue, Arrivals, Stamped, AllowedAt, Timed, Outcome, Consistent;
    LawfulWatches(clock, s);
    var (t, r) := CodelDequeue(clock, s, i);
    var k, paces := CodelDecides(clock, s, i);
    var k' := CodelEffect(clock, s, i);
    OutcomeParts(clock, s, i, t, k, paces);
    SameCount(s, i, k, k', t, r);
    OutcomeTimed(clock, s, i, t, k, paces);
    var q := s.flows[i].queue;
    forall j: nat | j < |s.flows| ensures Arrivals(t.log, j) == Arrivals(s.log, j) {
      LogDrops(s.log, i, q[..k], j);
    }
    StampsStay(clock, s, t);
    ServedJustified(clock, s, i, t, r, k, paces);
  }

  lemma OutcomeParts(clock: Clock, s: State, i: nat, t: State, k: nat, paces: seq<Pace>)
    requires Outcome(clock, s, i, t, k, paces)
    ensures i < |s.flows| == |t.flows| && Watchful(t) && s.sights <= t.sights && t.tick >= s.tick
    ensures k <= |s.flows[i].queue| && t.flows[i].queue == Rest(s.flows[i].queue[k..])
  {
  }

  lemma ServedJustified(clock: Clock, s: State, i: nat, t: State, r: Option<Packet>, k: nat, paces: seq<Pace>)
    requires Watchful(s) && Justified(s) && Outcome(clock, s, i, t, k, paces) && Served(s, i, k, t, r)
    ensures Justified(t)
  {
    hide Watchful, Outcome, Bytes, Allowed;
    OutcomeParts(clock, s, i, t, k, paces);
    var q := s.flows[i].queue;
    forall m | 0 <= m < |t.log| && t.log[m].CodelDropped?
      ensures exists n: nat :: n < |t.sights| && AllowedAt(t.sights, n, t.log[m].flow, t.log[m].pkt)
    {
      if m < |s.log| {
        var n: nat :| n < |s.sights| && AllowedAt(s.sights, n, s.log[m].flow, s.log[m].pkt);
        AllowedPrefix(s.sights, t.sights, n);
        assert AllowedAt(t.sights, n, t.log[m].flow, t.log[m].pkt);
      } else {
        var j := m - |s.log|;
        assert t.log[m] == CodelDropped(i, q[j]);
        DropsAllowed(clock, s, i, t, k, paces, j);
        assert AllowedAt(t.sights, |s.sights| + j, t.log[m].flow, t.log[m].pkt);
      }
    }
  }

  lemma TurnLawful(clock: Clock, s: State)
    requires Consistent(s) && Lawful(clock, s)
    ensures var turn := OneTurn(clock, s); !turn.Idle? ==> Lawful(clock, turn.next)
  {
    hide CodelDequeue, Lawful, Counted, Scheduled, Recorded;
    if HasListed(s) {
      var i := Head(s);
      if s.flows[i].deficit <= 0 {
        QuietLawful(clock, s, RefillHead(s));
      } else {
        ServedLawful(clock, s, i);
        var (s1, skb) := CodelDequeue(clock, s, i);
        CodelFrame(clock, s, i);
        if skb.None? {
          QuietLawful(clock, s1, RetireHead(s1));
        } else {
          QuietLawful(clock, s1, Deliver(s1, i, skb.value));
        }
      }
    }
  }

  lemma {:induction false} DequeueLawful(clock: Clock, s: State)
    requires Consistent(s) && Lawful(clock, s)
    ensures Lawful(clock, Dequeue(clock, s).0)
    decreases Work(s)
  {
    hide OneTurn, Counted, Scheduled, Recorded, Work, Lawful;
    TurnKeeps(clock, s);
    TurnLowersWork(clock, s);
    TurnLawful(clock, s);
    var turn := OneTurn(clock, s);
    if turn.Again? {
      DequeueLawful(clock, turn.next);
    }
  }

  lemma {:induction false} DrainLawful(clock: Clock, s: State)
    requires Consistent(s) && Lawful(clock, s)
    ensures Lawful(clock, Drain(clock, s))
    decreases s.qlen
  {
    hide Dequeue, Lawful;
    if s.qlen > s.limit {
      DequeueKeeps(clock, s);
      DequeueLawful(clock, s);
      var s1 := Dequeue(clock, s).0;
      QuietLawful(clock, s1, s1.(dropCount := s1.dropCount + 1));
      DrainLawful(clock, DrainOne(clock, s));
    }
  }

  // ----- one enqueue ---------------------------------------------------------------------------

  lemma AppendRemembers(clock: Clock, s: State, i: nat, p: Packet)
    requires Shaped(s) && i < |s.flows| && Remembers(s)
    ensures Remembers(Append(clock, s, i, p))
  {
    hide Since, Largest;
    var t, h, e := Append(clock, s, i, p), s.sights, Restarted(i);
    if !OnList(s, i) {
      LargestNext(h, e);
      SinceBroken(h, e);
      forall j: nat | j < |s.flows| ensures Since(t.sights, j, t.flows[j].cvars.firstAbove) {
        if j != i {
          SinceOther(h, e, j, s.flows[j].cvars.firstAbove);
        }
      }
    }
  }

  lemma StampOne(clock: Clock, ps: seq<Packet>, p: Packet, tick: nat)
    requires FlowStamped(clock, ps, tick) && p.stamp == clock(tick)
    ensures FlowStamped(clock, ps + [p], tick + 1) && FlowStamped(clock, ps, tick + 1)
  {
    var at :| StampedAt(clock, ps, at, tick);
    assert StampedAt(clock, ps + [p], at + [tick], tick + 1);
    assert StampedAt(clock, ps, at, tick + 1);
  }

  lemma AppendStamps(clock: Clock, s: State, i: nat, p: Packet)
    requires Shaped(s) && i < |s.flows| && Stamped(clock, s)
    ensures Stamped(clock, Append(clock, s, i, p))
  {
    hide Arrivals, FlowStamped;
    var t, q := Append(clock, s, i, p), p.(stamp := clock(s.tick));
    forall j: nat | j < |t.flows| ensures FlowStamped(clock, Arrivals(t.log, j), t.tick) {
      LogOne(s.log, Arrived(i, q), j);
      LogOne(s.log + [Arrived(i, q)], Activated(i, s.quantum), j);
      StampOne(clock, Arrivals(s.log, j), q, s.tick);
    }
  }

  lemma AppendJustified(clock: Clock, s: State, i: nat, p: Packet)
    requires Shaped(s) && i < |s.flows| && Justified(s)
    ensures Justified(Append(clock, s, i, p))
  {
    hide Allowed;
    var t := Append(clock, s, i, p);
    forall m | 0 <= m < |t.log| && t.log[m].CodelDropped?
      ensures exists n: nat :: n < |t.sights| && AllowedAt(t.sights, n, t.log[m].flow, t.log[m].pkt)
    {
      assert t.log[m] == s.log[m];
      var n: nat :| n < |s.sights| && AllowedAt(s.sights, n, s.log[m].flow, s.log[m].pkt);
      AllowedPrefix(s.sights, t.sights, n);
      assert AllowedAt(t.sights, n, t.log[m].flow, t.log[m].pkt);
    }
  }

  lemma AppendLawful(clock: Clock, s: State, i: nat, p: Packet)
    requires Consistent(s) && Lawful(clock, s) && i < |s.flows|
    ensures Lawful(clock, Append(clock, s, i, p))
  {
    hide Append, Remembers, Stamped, Justified, Timed, Sane, Counted, Scheduled, Recorded;
    AppendRemembers(clock, s, i, p);
    AppendStamps(clock, s, i, p);
    AppendJustified(clock, s, i, p);
    AppendVars(clock, s, i, p);
  }

  lemma AppendVars(clock: Clock, s: State, i: nat, p: Packet)
    requires Shaped(s) && i < |s.flows| && Timed(clock, s)
    requires forall j :: 0 <= j < |s.flows| ==> Sane(s.flows[j].cvars)
    ensures var t := Append(clock, s, i, p);
            Timed(clock, t) && forall j :: 0 <= j < |t.flows| ==> Sane(t.flows[j].cvars)
  {
    assert Sane(FRESH_VARS) by {
      ProductZero(0);
    }
    hide Sane;
  }

  lemma EnqueueLawful(clock: Clock, s: State, i: nat, p: Packet)
    requires Consistent(s) && Lawful(clock, s) && i < |s.flows|
    ensures CanDrop(Append(clock, s, i, p)) && Lawful(clock, EnqueueTo(clock, s, i, p).0)
  {
    hide Append, Lawful, Counted, Scheduled, Recorded, Fattest;
    AppendKeeps(clock, s, i, p);
    AppendLawful(clock, s, i, p);
    var s1 := Append(clock, s, i, p);
    var s2 := DropFattest(s1).0;
    QuietLawful(clock, s1, s2);
    QuietLawful(clock, s2, s2.(parent := s2.parent - 1));
  }

  // ----- runs --------------------------------------------------------------------------------------

  lemma StepLawful(clock: Clock, s: State, op: Op)
    requires Good(s) && Legal(op, |s.flows|) && Lawful(clock, s)
    ensures Lawful(clock, Step(clock, s, op))
  {
    hide Lawful, EnqueueTo, Dequeue, Drain, Counted, Scheduled, Recorded;
    match op
    case Offer(Refused(_), _) =>
    case Offer(Assigned(i), p) =>
      EnqueueKeeps(clock, s, i, p);
      EnqueueLawful(clock, s, i, p);
      var t := EnqueueTo(clock, s, i, p).0;
      QuietLawful(clock, t, t.(parent := t.parent + 1));
    case Fetch =>
      DequeueLawful(clock, s);
      var t := Dequeue(clock, s).0;
      QuietLawful(clock, t, t.(parent := t.parent - 1));
    case Configure(o) =>
      ReconfigureKeeps(s, o);
      var s1 := Reconfigure(s, o);
      QuietLawful(clock, s, s1);
      DrainLawful(clock, s1);
      QuietLawful(clock, Drain(clock, s1), Flush(Drain(clock, s1)));
  }

  lemma {:induction false} RunLawful(clock: Clock, s: State, ops: seq<Op>)
    requires Good(s) && AllLegal(ops, |s.flows|) && Lawful(clock, s)
    ensures Lawful(clock, Run(clock, s, ops))
    decreases |ops|
  {
    if ops != [] {
      StepGood(clock, s, ops[0]);
      StepLawful(clock, s, ops[0]);
      hide Step, Good, Lawful;
      RunLawful(clock, Step(clock, s, ops[0]), ops[1..]);
    }
  }

  lemma InitialLawful(clock: Clock, flows: pos, quantum: pos, limit: nat, params: CodelParams)
    ensures Lawful(clock, Initial(flows, quantum, limit, params))
  {
    var s := Initial(flows, quantum, limit, params);
    ProductZero(0);
    forall i: nat | i < flows ensures FlowStamped(clock, Arrivals(s.log, i), s.tick) {
      assert StampedAt(clock, [], [], 0);
    }
  }

  /** In every reachable state what CoDel remembers is what it has seen, its
      estimates of one over the square root are never too large, every drop was
      allowed, and every look and stamp is a clock reading of its own. */
  lemma ReachedLawful(clock: Clock, flows: pos, quantum: pos, limit: nat, params: CodelParams, ops: seq<Op>)
    requires AllLegal(ops, flows)
    ensures Lawful(clock, Reached(clock, flows, quantum, limit, params, ops))
  {
    hide Lawful, Run, Good;
    InitialGood(flows, quantum, limit, params);
    InitialLawful(clock, flows, quantum, limit, params);
    RunLawful(clock, Initial(flows, quantum, limit, params), ops);
  }

  /** Why entry m of the log is a drop: at clock reading `now` the packet had waited
      for the target at least, more bytes were left than the largest packet has,
      its flow had been above the target at every look since look k, and the
      interval counted from look k had passed. */
  predicate Explains(clock: Clock, t: State, m: nat, n: nat, k: nat)
    requires m < |t.log| && t.log[m].CodelDropped?
  {
    var i, p, h := t.log[m].flow, t.log[m].pkt, t.sights;
    && k < n < |h| && h[n].Seen? && h[n].flow == i && h[n].pkt == Some(p)
    && 1 <= h[n].readings <= t.tick && h[n].now == clock(h[n].readings - 1)
    && Ahead((h[n].now - p.stamp) % U32, h[n].params.target) >= 0
    && h[n].left > Largest(h[..n + 1])
    && h[k].Seen? && h[k].flow == i && Unbroken(h, i, k, n)
    && Ahead(h[n].now, (h[k].now + h[k].params.interval) % U32) > 0
  }

  lemma AllowedSince(h: seq<Sight>, n: nat) returns (k: nat)
    requires n < |h| && Allowed(h, n)
    ensures k < n && h[k].Seen? && h[k].flow == h[n].flow && Unbroken(h, h[n].flow, k, n)
    ensures Ahead(h[n].now, (h[k].now + h[k].params.interval) % U32) > 0
  {
    hide Ahead, Largest;
    k :| 0 <= k < n && Began(h, h[n].flow, k, n) && Ahead(h[n].now, Deadline(h[k])) > 0;
    assert Above(h, k);
  }

  lemma LawfulExplains(clock: Clock, t: State, m: nat) returns (n: nat, k: nat)
    requires m < |t.log| && t.log[m].CodelDropped? && Lawful(clock, t)
    ensures Explains(clock, t, m, n, k)
  {
    hide Largest, Remembers, Sane, Stamped, Ahead, Began, Unbroken;
    n :| n < |t.sights| && AllowedAt(t.sights, n, t.log[m].flow, t.log[m].pkt);
    k := AllowedSince(t.sights, n);
    assert Above(t.sights, n);
  }

  /** Every drop of every run has its reason. */
  lemma DropExplained(clock: Clock, flows: pos, quantum: pos, limit: nat, params: CodelParams, ops: seq<Op>,
                      m: nat) returns (n: nat, k: nat)
    requires AllLegal(ops, flows)
    requires var t := Reached(clock, flows, quantum, limit, params, ops); m < |t.log| && t.log[m].CodelDropped?
    ensures Explains(clock, Reached(clock, flows, quantum, limit, params, ops), m, n, k)
  {
    hide Reached, Lawful, Explains;
    ReachedLawful(clock, flows, quantum, limit, params, ops);
    n, k := LawfulExplains(clock, Reached(clock, flows, quantum, limit, params, ops), m);
  }

  /** Where no packet waits for the target, CoDel drops nothing. */
  lemma NoDelayNoDrop(clock: Clock, flows: pos, quantum: pos, limit: nat, params: CodelParams, ops: seq<Op>)
    requires AllLegal(ops, flows)
    requires var h := Reached(clock, flows, quantum, limit, params, ops).sights;
             forall n :: 0 <= n < |h| ==> !Late(h[n])
    ensures var log := Reached(clock, flows, quantum, limit, params, ops).log;
            forall m :: 0 <= m < |log| ==> !log[m].CodelDropped?
  {
    hide Reached, Largest, Ahead, Unbroken;
    var t := Reached(clock, flows, quantum, limit, params, ops);
    forall m | 0 <= m < |t.log| ensures !t.log[m].CodelDropped? {
      if t.log[m].CodelDropped? {
        var n, k := DropExplained(clock, flows, quantum, limit, params, ops, m);
      }
    }
  }

  // ----- new flows first ------------------------------------------------------------------------------

  /** One turn on a new flow whose packets came after its variables were cleared. */
  lemma FreshTurn(clock: Clock, s: State)
    requires Shaped(s) && s.newFlows != []
    requires var f := s.flows[s.newFlows[0]]; f.queue != [] && f.deficit > 0 && f.cvars == FRESH_VARS
    ensures var i := s.newFlows[0];
            var t := Dequeue(clock, s).0;
            && Dequeue(clock, s).1 == Some(s.flows[i].queue[0])
            && |t.flows| == |s.flows| && t.newFlows == s.newFlows && t.oldFlows == s.oldFlows && t.quantum == s.quantum
            && t.flows[i].queue == s.flows[i].queue[1..]
            && (forall j: nat :: j < |s.flows| && j != i ==> t.flows[j] == s.flows[j])
  {
    hide CodelDequeue;
    var i := s.newFlows[0];
    FreshServed(clock, s, i);
    var k := CodelEffect(clock, s, i);
    var (s1, skb) := CodelDequeue(clock, s, i);
    assert k == 0 by {
      ServedFirst(s, i, k, s1, skb.value);
    }
    assert OneTurn(clock, s) == Done(Deliver(s1, i, skb.value), skb.value);
  }

  lemma ServedFirst(s: State, i: nat, k: nat, t: State, p: Packet)
    requires Served(s, i, k, t, Some(p)) && t.dropCount == s.dropCount
    ensures k == 0
  {
  }

  /** A packet that finds its flow idle and no other new flow waiting, and the qdisc below its
      limit, is the next packet out. */
  lemma IdleFlowFirst(clock: Clock, s: State, i: nat, p: Packet)
    requires Consistent(s) && i < |s.flows| && !OnList(s, i) && s.newFlows == [] && s.qlen + 1 < s.limit
    ensures CanDrop(Append(clock, s, i, p))
    ensures var t := EnqueueTo(clock, s, i, p).0;
            Shaped(t) && Dequeue(clock, t).1 == Some(p.(stamp := clock(s.tick)))
  {
    AppendKeeps(clock, s, i, p);
    hide Consistent;
    FreshTurn(clock, Append(clock, s, i, p));
  }

  /** The first look after the variables were cleared never drops. */
  lemma FreshServed(clock: Clock, s: State, i: nat)
    requires Shaped(s) && i < |s.flows| && s.flows[i].queue != [] && s.flows[i].cvars == FRESH_VARS
    ensures CodelDequeue(clock, s, i).1 == Some(s.flows[i].queue[0])
    ensures CodelDequeue(clock, s, i).0.dropCount == s.dropCount
  {
    hide DropLoop, FirstTurn, Weights;
  }

  /** A new flow found empty, or without credit, makes way for the next new flow. */
  lemma NextNewFlow(clock: Clock, s: State)
    requires Shaped(s) && |s.newFlows| >= 2 && s.flows[s.newFlows[0]].queue == []
    requires s.newFlows[0] != s.newFlows[1]
    ensures var t := OneTurn(clock, s);
            && t.Again? && Shaped(t.next) && t.next.newFlows == s.newFlows[1..] && |t.next.flows| == |s.flows|
            && t.next.flows[s.newFlows[1]] == s.flows[s.newFlows[1]]
            && Dequeue(clock, s) == Dequeue(clock, t.next)
  {
    TurnLowersWork(clock, s);
  }

  /** Two flows that were idle are served in the order their packets came, before all others. */
  lemma IdleFlowsInOrder(clock: Clock, s: State, i: nat, p: Packet, j: nat, q: Packet)
    requires Consistent(s) && i < |s.flows| && j < |s.flows| && i != j
    requires !OnList(s, i) && !OnList(s, j) && s.newFlows == [] && s.qlen + 2 < s.limit
    ensures CanDrop(Append(clock, s, i, p)) && Consistent(EnqueueTo(clock, s, i, p).0)
    ensures var s1 := EnqueueTo(clock, s, i, p).0;
            && CanDrop(Append(clock, s1, j, q)) && Consistent(EnqueueTo(clock, s1, j, q).0)
            && var (s2, first) := Dequeue(clock, EnqueueTo(clock, s1, j, q).0);
            && first == Some(p.(stamp := clock(s.tick)))
            && Shaped(s2) && Dequeue(clock, s2).1 == Some(q.(stamp := clock(s.tick + 1)))
  {
    EnqueueKeeps(clock, s, i, p);
    var s1 := EnqueueTo(clock, s, i, p).0;
    assert s1 == Append(clock, s, i, p);
    EnqueueKeeps(clock, s1, j, q);
    var e := EnqueueTo(clock, s1, j, q).0;
    assert e == Append(clock, s1, j, q);
    TwoListed(clock, s, i, p, j, q);
    DequeueKeeps(clock, e);
    hide Consistent, Dequeue, Append, EnqueueTo;
    FreshTurn(clock, e);
    var s2 := Dequeue(clock, e).0;
    assert Shaped(s2) by {
      ConsistentShaped(s2);
    }
    NextNewFlow(clock, s2);
    FreshTurn(clock, OneTurn(clock, s2).next);
  }

  lemma ConsistentShaped(s: State)
    requires Consistent(s)
    ensures Shaped(s)
  {
  }

  lemma TwoListed(clock: Clock, s: State, i: nat, p: Packet, j: nat, q: Packet)
    requires Consistent(s) && i < |s.flows| && j < |s.flows| && i != j
    requires !OnList(s, i) && !OnList(s, j) && s.newFlows == []
    ensures var s1 := Append(clock, s, i, p);
            && Shaped(s1)
            && var e := Append(clock, s1, j, q);
            && e.newFlows == [i, j] && |e.flows| == |s.flows| && Shaped(e)
            && e.flows[i].queue == [p.(stamp := clock(s.tick))] && e.flows[i].deficit > 0
            && e.flows[j].queue == [q.(stamp := clock(s.tick + 1))] && e.flows[j].deficit > 0
            && e.flows[i].cvars == FRESH_VARS == e.flows[j].cvars
  {
    hide Counted, Recorded;
    var s1 := Append(clock, s, i, p);
    assert s.flows[i].queue == [] && s.flows[j].queue == [];
    assert s1.flows[j] == s.flows[j] && !OnList(s1, j);
  }
}
