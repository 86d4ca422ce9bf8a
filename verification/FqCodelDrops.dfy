/** Which packets codel_dequeue drops: the first of its queue, one after the
    other, as long as each may be dropped, cannot be marked instead, and its
    time on the drop schedule has come. */
module FqCodelDrops {
  import opened Util
  import opened Words
  import opened FqCodelModel
  import opened FqCodelInvariants
  import opened FqCodelControl
  import opened FqCodelDecisions

  // ----- what every look relies on -------------------------------------------------------

  predicate Watchful(s: State) {
    && Shaped(s) && Remembers(s) && s.backlog == Sum(Weights(s.flows))
    && (forall i :: 0 <= i < |s.flows| ==> Sane(s.flows[i].cvars))
  }

  lemma WeightsUpdate(flows: seq<Flow>, i: nat, f: Flow)
    requires i < |flows|
    ensures Sum(Weights(flows[i := f])) == Sum(Weights(flows)) - Bytes(flows[i].queue) + Bytes(f.queue)
  {
    assert Weights(flows[i := f]) == Weights(flows)[i := Bytes(f.queue)];
    SumUpdate(Weights(flows), i, Bytes(f.queue));
  }

  lemma WatchfulVars(s: State, i: nat, v: CodelVars)
    requires Watchful(s) && i < |s.flows| && Sane(v) && v.firstAbove == s.flows[i].cvars.firstAbove
    ensures Watchful(SetVars(s, i, v))
  {
    hide Since, Largest, Sane, Bytes;
    WeightsUpdate(s.flows, i, s.flows[i].(cvars := v));
  }

  // ----- the drop schedule -----------------------------------------------------------------

  /** How many drops, the estimate of one over their square root, and when the
      next one is due. */
  datatype Pace = Pace(count: nat, estimate: nat, due: Time)

  function PaceOf(v: CodelVars): Pace {
    Pace(v.count, v.recInvSqrt, v.dropNext)
  }

  /** One more drop: the count grows by one, the estimate is refined for it, and
      the due time moves on by the interval over the square root of the count. */
  predicate Follows(p: Pace, q: Pace, interval: Time) {
    var gap := (q.due - p.due) % U32;
    && q.count == (p.count + 1) % U32
    && gap * 0x1_0000 <= interval * q.estimate < (gap + 1) * 0x1_0000
    && q.count * (gap * gap) <= interval * interval
    && Product(q.count, q.estimate) <= U32
    && (q.count > 0 ==>
          U32 * (U32 - Product(q.count, q.estimate + 2)) <= Square(U32 - Product(q.count, p.estimate)))
  }

  lemma DropFollows(v: CodelVars, interval: Time)
    requires Sane(v)
    ensures Sane(CountDrop(v)) && Sane(Postpone(CountDrop(v), interval))
    ensures Follows(PaceOf(v), PaceOf(Postpone(CountDrop(v), interval)), interval)
  {
    hide NewtonStep, Product, Square, ControlLaw;
    CountDropSane(v);
    var w := CountDrop(v);
    Spacing(w, w.dropNext, interval);
    OneMore(v.count, v.recInvSqrt);
    if w.count > 0 {
      NewtonLaw(v.(count := w.count));
    }
  }

  // ----- taking the next packet and looking at it -----------------------------------------

  /** Flow i's next packet, if it has one. */
  function Front(q: seq<Packet>): Option<Packet> {
    if q == [] then None else Some(q[0])
  }

  function Rest(q: seq<Packet>): seq<Packet> {
    if q == [] then [] else q[1..]
  }

  predicate IsLook(e: Sight, s: State, i: nat, skb: Option<Packet>, now: Time) {
    e.Seen? && e.flow == i && e.pkt == skb && e.now == now && e.readings == s.tick && e.params == s.params
  }

  /** t is s after a look at the front of flow i's queue. */
  predicate Looked(s: State, i: nat, now: Time, t: State, drop: bool) {
    && i < |s.flows| == |t.flows| && Watchful(t)
    && |t.sights| == |s.sights| + 1 && s.sights <= t.sights
    && IsLook(t.sights[|s.sights|], s, i, Front(s.flows[i].queue), now)
    && drop == Allowed(t.sights, |s.sights|)
    && t.flows[i].queue == Rest(s.flows[i].queue)
    && PaceOf(t.flows[i].cvars) == PaceOf(s.flows[i].cvars)
    && t.flows[i].cvars.lastcount == s.flows[i].cvars.lastcount
    && t.flows[i].cvars.dropping == s.flows[i].cvars.dropping
    && t.params == s.params && t.ecnMark == s.ecnMark && t.tick == s.tick && t.log == s.log
  }

  lemma PullWeighs(s: State, i: nat)
    requires Watchful(s) && i < |s.flows|
    ensures var (t, skb) := Pull(s, i);
            && Remembers(t) && Shaped(t)
            && Sum(Weights(t.flows)) == t.backlog - (if skb.Some? then skb.value.len else 0)
  {
    hide Since, Largest, Sane, Bytes;
    var q := s.flows[i].queue;
    if q != [] {
      WeightsUpdate(s.flows, i, s.flows[i].(queue := q[1..]));
      BytesSplit(q, 1);
      assert Bytes(q[..1]) == q[0].len by {
        BytesOfOne(q[0]);
        assert q[..1] == [q[0]];
      }
    }
  }

  lemma BytesOfOne(p: Packet)
    ensures Bytes([p]) == p.len
  {
    assert [p][..0] == [];
  }

  /** A look changes two of CoDel's variables at most. */
  lemma LookVars(s: State, i: nat, skb: Option<Packet>, now: Time)
    requires i < |s.flows|
    ensures var t := ShouldDrop(s, i, skb, now).0;
            && |t.flows| == |s.flows|
            && var w := t.flows[i].cvars;
               w == s.flows[i].cvars.(firstAbove := w.firstAbove, ldelay := w.ldelay)
  {
  }

  lemma SaneLook(v: CodelVars, w: CodelVars)
    requires Sane(v) && w == v.(firstAbove := w.firstAbove, ldelay := w.ldelay)
    ensures Sane(w)
  {
  }

  lemma PullLook(s: State, i: nat, now: Time)
    requires Watchful(s) && i < |s.flows|
    ensures var (s1, skb) := Pull(s, i);
            var (t, drop) := ShouldDrop(s1, i, skb, now);
            skb == Front(s.flows[i].queue) && Looked(s, i, now, t, drop)
  {
    hide Remembers, Weights, Allowed, Sane, ShouldDrop;
    PullWeighs(s, i);
    var (s1, skb) := Pull(s, i);
    LookDecides(s1, i, skb, now);
    LookEffect(s1, i, skb, now);
    LookVars(s1, i, skb, now);
    var (t, drop) := ShouldDrop(s1, i, skb, now);
    SaneLook(s1.flows[i].cvars, t.flows[i].cvars);
    SameWeights(s1.flows, t.flows);
  }

  lemma SameWeights(a: seq<Flow>, b: seq<Flow>)
    requires |a| == |b| && forall k :: 0 <= k < |a| ==> a[k].queue == b[k].queue
    ensures Weights(a) == Weights(b)
  {
  }

  // ----- the catch-up loop -------------------------------------------------------------------

  predicate Markable(params: CodelParams, p: Packet) {
    params.ecn && p.ect
  }

  predicate Due(now: Time, p: Pace) {
    Ahead(now, p.due) >= 0
  }

  /** Each of the paces follows the one before. */
  predicate Paced(paces: seq<Pace>, interval: Time) {
    forall j, k :: 0 <= j && k == j + 1 < |paces| ==> Follows(paces[j], paces[k], interval)
  }

  /** The looks from number n on are at the packets ps, one after the other. */
  predicate LooksAt(h: seq<Sight>, n: nat, s: State, i: nat, ps: seq<Packet>, k: nat, now: Time) {
    && k <= |ps| && n + k + 1 == |h|
    && (forall j :: 0 <= j < k ==> IsLook(h[n + j], s, i, Some(ps[j]), now))
    && IsLook(h[n + k], s, i, Front(ps[k..]), now)
  }

  /** Look n dropped packet p: it may be dropped, cannot be marked, and is due. */
  predicate DroppedAt(h: seq<Sight>, n: nat, p: Packet, params: CodelParams, now: Time, pace: Pace) {
    n < |h| && Allowed(h, n) && !Markable(params, p) && Due(now, pace)
  }

  /** The first k of the packets ps were dropped. */
  predicate AllDropped(h: seq<Sight>, n: nat, ps: seq<Packet>, k: nat, params: CodelParams, now: Time,
                       paces: seq<Pace>)
  {
    && k <= |ps| && k <= |paces| && n + k <= |h|
    && (forall j :: 0 <= j < k ==> DroppedAt(h, n + j, ps[j], params, now, paces[j]))
  }

  /** Why the loop stopped at look n + k: that packet may not be dropped, or its
      time has not come, or it was marked. */
  predicate Stopped(s: State, i: nat, ps: seq<Packet>, now: Time, t: State, n: nat, k: nat, paces: seq<Pace>)
    requires i < |s.flows| == |t.flows| && n + k < |t.sights| && k <= |ps|
  {
    var v := t.flows[i].cvars;
    if !Allowed(t.sights, n + k) then
      && !v.dropping && t.ecnMark == s.ecnMark && |paces| == k
      && (if k == 0 then PaceOf(v) == PaceOf(s.flows[i].cvars)
          else v.count == (paces[k - 1].count + 1) % U32 && v.dropNext == paces[k - 1].due)
    else
      && v.dropping && k < |ps| && k < |paces|
      && if !Due(now, paces[k]) then
           |paces| == k + 1 && PaceOf(v) == paces[k] && t.ecnMark == s.ecnMark
         else
           Markable(s.params, ps[k]) && |paces| == k + 2 && PaceOf(v) == paces[k + 1]
           && t.ecnMark == s.ecnMark + 1
  }

  /** From s, with the first of the packets ps in hand and looked at last, the loop
      dropped k packets and went on to t. */
  predicate Spell(s: State, i: nat, ps: seq<Packet>, now: Time, t: State, k: nat, paces: seq<Pace>) {
    && i < |s.flows| == |t.flows| && Watchful(t) && s.sights != [] && s.sights <= t.sights
    && t.params == s.params && t.tick == s.tick
    && t.flows[i].cvars.lastcount == s.flows[i].cvars.lastcount
    && var n := |s.sights| - 1;
    && LooksAt(t.sights, n, s, i, ps, k, now)
    && t.flows[i].queue == Rest(ps[k..])
    && paces != [] && paces[0] == PaceOf(s.flows[i].cvars) && Paced(paces, s.params.interval)
    && AllDropped(t.sights, n, ps, k, s.params, now, paces)
    && Stopped(s, i, ps, now, t, n, k, paces)
  }

  predicate InHand(s: State, i: nat, skb: Packet, now: Time) {
    && Watchful(s) && i < |s.flows| && s.sights != []
    && IsLook(s.sights[|s.sights| - 1], s, i, Some(skb), now)
    && s.flows[i].cvars.dropping && Allowed(s.sights, |s.sights| - 1)
  }

  /** One turn of the loop that drops. */
  lemma TurnDecides(s: State, i: nat, skb: Packet, now: Time)
    requires InHand(s, i, skb, now)
    ensures var v := s.flows[i].cvars;
            var s1 := SetVars(s, i, CountDrop(v));
            var (t, next) := DropOne(s1, i, skb, now);
            && i < |t.flows| == |s.flows| && Watchful(t) && next == Front(s.flows[i].queue)
            && |t.sights| == |s.sights| + 1 && s.sights <= t.sights
            && IsLook(t.sights[|s.sights|], s, i, next, now)
            && t.flows[i].queue == Rest(s.flows[i].queue)
            && t.params == s.params && t.ecnMark == s.ecnMark && t.tick == s.tick
            && t.flows[i].cvars.dropping == Allowed(t.sights, |s.sights|)
            && t.flows[i].cvars.lastcount == v.lastcount
            && (if t.flows[i].cvars.dropping then
                  Follows(PaceOf(v), PaceOf(t.flows[i].cvars), s.params.interval)
                else t.flows[i].cvars.count == (v.count + 1) % U32 && t.flows[i].cvars.dropNext == v.dropNext)
  {
    hide Remembers, Allowed, Follows, Sane, CountDrop, ControlLaw, Weights, ShouldDrop;
    var v := s.flows[i].cvars;
    var s1 := SetVars(s, i, CountDrop(v));
    DropFollows(v, s.params.interval);
    CountDropSane(v);
    WatchfulVars(s, i, CountDrop(v));
    var d := Discard(s1, i, skb);
    assert Watchful(d) by {
      Discarded(s1, i, skb);
    }
    PullLook(d, i, now);
    var (d1, next) := Pull(d, i);
    var (t, drop) := ShouldDrop(d1, i, next, now);
    var w := t.flows[i].cvars;
    var w' := if drop then Postpone(w, s.params.interval) else w.(dropping := false);
    SaneParts(w);
    PostponeSane(w, s.params.interval);
    WatchfulVars(t, i, w');
  }

  lemma SaneParts(v: CodelVars)
    requires Sane(v)
    ensures Sane(v.(dropping := false))
  {
  }

  lemma Discarded(s: State, i: nat, skb: Packet)
    requires Watchful(s)
    ensures Watchful(Discard(s, i, skb))
  {
  }

  /** A spell that goes on after one more drop. */
  lemma SpellLonger(s: State, i: nat, skb: Packet, rest: seq<Packet>, now: Time, s2: State, t: State,
                    k: nat, paces: seq<Pace>)
    requires InHand(s, i, skb, now) && rest != [] && !Markable(s.params, skb)
    requires Due(now, PaceOf(s.flows[i].cvars))
    requires s2.params == s.params && s2.tick == s.tick && s2.ecnMark == s.ecnMark && |s2.flows| == |s.flows|
    requires |s2.sights| == |s.sights| + 1 && s.sights <= s2.sights
    requires i < |s2.flows| && s2.flows[i].cvars.lastcount == s.flows[i].cvars.lastcount
    requires Follows(PaceOf(s.flows[i].cvars), PaceOf(s2.flows[i].cvars), s.params.interval)
    requires Spell(s2, i, rest, now, t, k, paces)
    ensures Spell(s, i, [skb] + rest, now, t, k + 1, [PaceOf(s.flows[i].cvars)] + paces)
  {
    hide Watchful, Allowed, Follows, Due, Markable, LooksAt, AllDropped, Paced;
    var n, h, ps := |s.sights| - 1, t.sights, [skb] + rest;
    var first := PaceOf(s.flows[i].cvars);
    LooksLonger(h, n, s, s2, i, skb, rest, k, now);
    AllowedPrefix(s.sights, h, n);
    DroppedLonger(h, n, skb, rest, k, s.params, now, first, paces);
    PacedLonger(first, paces, s.params.interval);
    assert ps[k + 1..] == rest[k..];
    assert n + (k + 1) == (n + 1) + k;
  }

  lemma LooksLonger(h: seq<Sight>, n: nat, s: State, s2: State, i: nat, skb: Packet, rest: seq<Packet>, k: nat,
                    now: Time)
    requires n < |h| && s2.params == s.params && s2.tick == s.tick
    requires IsLook(h[n], s, i, Some(skb), now) && LooksAt(h, n + 1, s2, i, rest, k, now)
    ensures LooksAt(h, n, s, i, [skb] + rest, k + 1, now)
  {
    var ps := [skb] + rest;
    assert ps[k + 1..] == rest[k..];
    forall j | 0 <= j < k + 1 ensures IsLook(h[n + j], s, i, Some(ps[j]), now) {
      if j > 0 {
        assert IsLook(h[(n + 1) + (j - 1)], s2, i, Some(rest[j - 1]), now);
        assert (n + 1) + (j - 1) == n + j && ps[j] == rest[j - 1];
      }
    }
  }

  lemma DroppedLonger(h: seq<Sight>, n: nat, skb: Packet, rest: seq<Packet>, k: nat, params: CodelParams, now: Time,
                      p: Pace, paces: seq<Pace>)
    requires n < |h| && Allowed(h, n) && !Markable(params, skb) && Due(now, p)
    requires AllDropped(h, n + 1, rest, k, params, now, paces)
    ensures AllDropped(h, n, [skb] + rest, k + 1, params, now, [p] + paces)
  {
    hide Allowed, Markable, Due;
    var ps, all := [skb] + rest, [p] + paces;
    assert DroppedAt(h, n, skb, params, now, p);
    hide DroppedAt;
    forall j | 0 <= j < k + 1 ensures DroppedAt(h, n + j, ps[j], params, now, all[j]) {
      if j > 0 {
        var m := j - 1;
        assert DroppedAt(h, n + 1 + m, rest[m], params, now, paces[m]);
        assert ps[j] == rest[m] && all[j] == paces[m] && n + 1 + m == n + j;
      }
    }
  }

  lemma PacedLonger(p: Pace, paces: seq<Pace>, interval: Time)
    requires paces != [] && Follows(p, paces[0], interval) && Paced(paces, interval)
    ensures Paced([p] + paces, interval)
  {
    hide Follows;
    var all := [p] + paces;
    forall j, m | 0 <= j && m == j + 1 < |all| ensures Follows(all[j], all[m], interval) {
      if j > 0 {
        assert all[j] == paces[j - 1] && all[m] == paces[m - 1];
      }
    }
  }

  /** The loop stops because the next drop is not due yet. */
  lemma EarlyStop(s: State, i: nat, skb: Packet, now: Time)
    requires InHand(s, i, skb, now) && !Overdue(s.flows[i].cvars, now)
    ensures Spell(s, i, [skb] + s.flows[i].queue, now, s, 0, [PaceOf(s.flows[i].cvars)])
  {
    hide Watchful, Allowed, Follows;
    var ps := [skb] + s.flows[i].queue;
    assert ps[0..] == ps && ps[1..] == s.flows[i].queue;
  }

  /** ... because the packet was marked. */
  lemma MarkStop(s: State, i: nat, skb: Packet, now: Time)
    requires InHand(s, i, skb, now) && Overdue(s.flows[i].cvars, now) && Markable(s.params, skb)
    ensures var w := Postpone(CountDrop(s.flows[i].cvars), s.params.interval);
            Spell(s, i, [skb] + s.flows[i].queue, now, SetVars(s, i, w).(ecnMark := s.ecnMark + 1), 0,
                  [PaceOf(s.flows[i].cvars), PaceOf(w)])
  {
    hide Remembers, Allowed, Follows, Sane, CountDrop, Weights;
    var v, ps := s.flows[i].cvars, [skb] + s.flows[i].queue;
    assert ps[0..] == ps && ps[1..] == s.flows[i].queue;
    DropFollows(v, s.params.interval);
    CountDropSane(v);
    var w := Postpone(CountDrop(v), s.params.interval);
    WatchfulVars(s, i, w);
    Marked(SetVars(s, i, w), s.ecnMark + 1);
  }

  /** ... because after one drop the next packet may not be dropped, or there is none. */
  lemma BelowStop(s: State, i: nat, skb: Packet, now: Time)
    requires InHand(s, i, skb, now) && Overdue(s.flows[i].cvars, now) && !Markable(s.params, skb)
    requires !DropOne(SetVars(s, i, CountDrop(s.flows[i].cvars)), i, skb, now).0.flows[i].cvars.dropping
    ensures var t := DropOne(SetVars(s, i, CountDrop(s.flows[i].cvars)), i, skb, now).0;
            Spell(s, i, [skb] + s.flows[i].queue, now, t, 1, [PaceOf(s.flows[i].cvars)])
  {
    hide Remembers, Sane, Weights, Allowed, Follows, CountDrop, DropOne;
    var ps := [skb] + s.flows[i].queue;
    assert ps[1..] == s.flows[i].queue;
    TurnDecides(s, i, skb, now);
    var t := DropOne(SetVars(s, i, CountDrop(s.flows[i].cvars)), i, skb, now).0;
    AllowedPrefix(s.sights, t.sights, |s.sights| - 1);
  }

  /** The loop drops exactly the packets that may be dropped, cannot be marked and
      are due, up to the first one that is not. */
  lemma {:induction false} LoopDecides(s: State, i: nat, skb: Packet, now: Time)
    returns (k: nat, paces: seq<Pace>)
    requires InHand(s, i, skb, now)
    ensures var (t, r) := DropLoop(s, i, skb, now);
            var ps := [skb] + s.flows[i].queue;
            Spell(s, i, ps, now, t, k, paces) && k <= |ps| && r == Front(ps[k..])
    decreases |s.flows[i].queue|
  {
    hide Remembers, Sane, Weights, Allowed, Follows, CountDrop, DropOne, Spell, Postpone;
    var v, q := s.flows[i].cvars, s.flows[i].queue;
    var p, ps := PaceOf(v), [skb] + q;
    assert ps[0..] == ps && ps[1..] == q;
    if !Overdue(v, now) {
      k, paces := 0, [p];
      EarlyStop(s, i, skb, now);
    } else if Markable(s.params, skb) {
      k, paces := 0, [p, PaceOf(Postpone(CountDrop(v), s.params.interval))];
      MarkStop(s, i, skb, now);
    } else {
      TurnDecides(s, i, skb, now);
      var (s2, skb2) := DropOne(SetVars(s, i, CountDrop(v)), i, skb, now);
      if s2.flows[i].cvars.dropping {
        AllowedSome(s2.sights, |s.sights|);
        assert q == [skb2.value] + s2.flows[i].queue;
        k, paces := LoopDecides(s2, i, skb2.value, now);
        SpellLonger(s, i, skb, q, now, s2, DropLoop(s2, i, skb2.value, now).0, k, paces);
        assert ps[k + 1..] == q[k..];
        k, paces := k + 1, [p] + paces;
      } else {
        k, paces := 1, [p];
        BelowStop(s, i, skb, now);
      }
    }
  }

  lemma AllowedSome(h: seq<Sight>, n: nat)
    requires n < |h| && Allowed(h, n)
    ensures h[n].Seen? && h[n].pkt.Some?
  {
  }

  lemma Marked(s: State, marks: nat)
    requires Watchful(s)
    ensures Watchful(s.(ecnMark := marks))
  {
  }

  // ----- codel_dequeue ---------------------------------------------------------------------

  /** w is v on entry to the dropping state at time now. */
  predicate Entered(v: CodelVars, w: CodelVars, interval: Time, now: Time) {
    var gap, made := (w.dropNext - now) % U32, (v.count - v.lastcount) % U32;
    var soon := Ahead((now - v.dropNext) % U32, 16 * interval) < 0;
    && w.dropping && w.lastcount == w.count && w.count % 2 == 1
    && gap * 0x1_0000 <= interval * w.recInvSqrt < (gap + 1) * 0x1_0000
    && w.count * (gap * gap) <= interval * interval
    && (soon ==> made <= w.count <= made + 1)
    && (!soon ==> w.count == 1 && Close(w))
  }

  lemma EnterEntered(v: CodelVars, interval: Time, now: Time)
    requires Sane(v)
    ensures var w := EnterDropping(v, interval, now);
            Sane(w) && Entered(v, w, interval, now) && w.firstAbove == v.firstAbove
  {
    EnterSane(v, interval, now);
    hide Sane, EnterDropping, ControlLaw, Close;
    var w := EnterDropping(v, interval, now);
    Spacing(w, now, interval);
  }

  /** Outside the dropping state: one drop or one mark at most, exactly if the
      first packet may be dropped, and that starts the dropping state. */
  predicate FirstDrop(s: State, i: nat, q: seq<Packet>, now: Time, t: State, n: nat, k: nat)
    requires i < |s.flows| == |t.flows| && n < |t.sights| && q != []
  {
    var v, w := s.flows[i].cvars, t.flows[i].cvars;
    var may, mark := Allowed(t.sights, n), Markable(s.params, q[0]);
    && k == One(may && !mark) && t.ecnMark == s.ecnMark + One(may && mark)
    && (if may then Entered(v, w, s.params.interval, now) else !w.dropping && PaceOf(w) == PaceOf(v))
  }

  /** t is s after codel_dequeue served flow i and dropped k packets of its queue. */
  predicate Outcome(clock: Clock, s: State, i: nat, t: State, k: nat, paces: seq<Pace>) {
    && i < |s.flows| == |t.flows| && Watchful(t) && s.sights <= t.sights && t.params == s.params
    && var q, v, w, n := s.flows[i].queue, s.flows[i].cvars, t.flows[i].cvars, |s.sights|;
    && k <= |q| && t.flows[i].queue == Rest(q[k..])
    && if q == [] then
         t.sights == s.sights && t.tick == s.tick && !w.dropping && t.ecnMark == s.ecnMark
       else
         var now, s' := clock(s.tick), s.(tick := s.tick + 1);
         && t.tick == s.tick + 1 && LooksAt(t.sights, n, s', i, q, k, now)
         && if v.dropping then
              && (paces != [] ==> paces[0] == PaceOf(v)) && Paced(paces, s.params.interval)
              && AllDropped(t.sights, n, q, k, s.params, now, paces)
              && Stopped(s, i, q, now, t, n, k, paces) && w.lastcount == v.lastcount
            else FirstDrop(s, i, q, now, t, n, k)
  }

  /** Entering depends on nothing that a look changes. */
  lemma SameEntry(v: CodelVars, v': CodelVars, w: CodelVars, interval: Time, now: Time)
    requires PaceOf(v) == PaceOf(v') && v.lastcount == v'.lastcount && Entered(v', w, interval, now)
    ensures Entered(v, w, interval, now)
  {
  }

  lemma Ticked(s: State)
    requires Watchful(s)
    ensures Watchful(s.(tick := s.tick + 1))
  {
  }

  /** The first drop or mark. */
  lemma FirstDecides(s: State, i: nat, s2: State, now: Time) returns (k: nat)
    requires Watchful(s) && i < |s.flows| && s.flows[i].queue != [] && !s.flows[i].cvars.dropping
    requires Looked(s, i, now, s2, true)
    ensures var q, n := s.flows[i].queue, |s.sights|;
            var (t, r) := FirstTurn(s2, i, q[0], now);
            && |t.flows| == |s.flows| && Watchful(t) && s.sights <= t.sights && t.params == s.params
            && t.tick == s.tick && k <= |q| && t.flows[i].queue == Rest(q[k..]) && r == Front(q[k..])
            && LooksAt(t.sights, n, s, i, q, k, now) && FirstDrop(s, i, q, now, t, n, k)
  {
    hide Remembers, Allowed, Sane, Weights, EnterDropping, ShouldDrop, Entered;
    var q, n := s.flows[i].queue, |s.sights|;
    assert q[0..] == q;
    if Markable(s.params, q[0]) {
      k := 0;
      var v := s2.flows[i].cvars;
      EnterEntered(v, s.params.interval, now);
      var w := EnterDropping(v, s.params.interval, now);
      SameEntry(s.flows[i].cvars, v, w, s.params.interval, now);
      WatchfulVars(s2, i, w);
      Marked(SetVars(s2, i, w), s2.ecnMark + 1);
    } else {
      k := 1;
      var d := Discard(s2, i, q[0]);
      Discarded(s2, i, q[0]);
      PullLook(d, i, now);
      var (s3, skb3) := Pull(d, i);
      var (s4, drop) := ShouldDrop(s3, i, skb3, now);
      AllowedPrefix(s2.sights, s4.sights, n);
      var v := s4.flows[i].cvars;
      EnterEntered(v, s.params.interval, now);
      var w := EnterDropping(v, s.params.interval, now);
      SameEntry(s.flows[i].cvars, v, w, s.params.interval, now);
      WatchfulVars(s4, i, w);
    }
  }

  lemma SpellOutcome(clock: Clock, s: State, i: nat, s2: State, t: State, k: nat, paces: seq<Pace>)
    requires i < |s.flows| && s.flows[i].queue != [] && s.flows[i].cvars.dropping
    requires Looked(s.(tick := s.tick + 1), i, clock(s.tick), s2, true)
    requires Spell(s2, i, s.flows[i].queue, clock(s.tick), t, k, paces)
    ensures Outcome(clock, s, i, t, k, paces)
  {
    hide Watchful, Allowed, Paced, AllDropped;
    assert s.sights <= t.sights;
  }

  /** A packet that may not be dropped goes out. */
  lemma PassOutcome(clock: Clock, s: State, i: nat, s2: State)
    requires i < |s.flows| && s.flows[i].queue != []
    requires Looked(s.(tick := s.tick + 1), i, clock(s.tick), s2, false)
    ensures var v := s2.flows[i].cvars;
            Outcome(clock, s, i, if v.dropping then SetVars(s2, i, v.(dropping := false)) else s2, 0, [])
  {
    hide Remembers, Allowed, Sane, Weights;
    var v, q := s2.flows[i].cvars, s.flows[i].queue;
    assert q[0..] == q;
    if v.dropping {
      SaneParts(v);
      WatchfulVars(s2, i, v.(dropping := false));
    }
  }

  lemma EnterOutcome(clock: Clock, s: State, i: nat, s2: State) returns (k: nat)
    requires Watchful(s) && i < |s.flows| && s.flows[i].queue != [] && !s.flows[i].cvars.dropping
    requires Looked(s.(tick := s.tick + 1), i, clock(s.tick), s2, true)
    ensures var q := s.flows[i].queue;
            var (t, r) := FirstTurn(s2, i, q[0], clock(s.tick));
            Outcome(clock, s, i, t, k, []) && r == Front(q[k..])
  {
    hide Watchful, FirstTurn, Allowed, Entered;
    Ticked(s);
    k := FirstDecides(s.(tick := s.tick + 1), i, s2, clock(s.tick));
  }

  lemma IdleOutcome(clock: Clock, s: State, i: nat)
    requires Watchful(s) && i < |s.flows| && s.flows[i].queue == []
    ensures Outcome(clock, s, i, SetVars(s, i, s.flows[i].cvars.(dropping := false)), 0, [])
  {
    hide Remembers, Sane, Weights;
    SaneParts(s.flows[i].cvars);
    WatchfulVars(s, i, s.flows[i].cvars.(dropping := false));
  }

  /** codel_dequeue as a whole. */
  lemma CodelDecides(clock: Clock, s: State, i: nat) returns (k: nat, paces: seq<Pace>)
    requires Watchful(s) && i < |s.flows|
    ensures var (t, r) := CodelDequeue(clock, s, i);
            Outcome(clock, s, i, t, k, paces) && r == Front(s.flows[i].queue[k..])
  {
    hide Remembers, Allowed, Sane, Weights, DropLoop, FirstTurn, ShouldDrop, Spell, Outcome;
    var q, now := s.flows[i].queue, clock(s.tick);
    k, paces := 0, [];
    if q == [] {
      IdleOutcome(clock, s, i);
    } else {
      var s' := s.(tick := s.tick + 1);
      Ticked(s);
      PullLook(s', i, now);
      var (s1, skb) := Pull(s', i);
      var (s2, drop) := ShouldDrop(s1, i, skb, now);
      assert q == [q[0]] + q[1..] && q[0..] == q;
      if !drop {
        PassOutcome(clock, s, i, s2);
      } else if s2.flows[i].cvars.dropping {
        k, paces := LoopDecides(s2, i, q[0], now);
        SpellOutcome(clock, s, i, s2, DropLoop(s2, i, q[0], now).0, k, paces);
      } else {
        k := EnterOutcome(clock, s, i, s2);
      }
    }
  }
}
