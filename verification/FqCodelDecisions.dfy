/** What CoDel decides, read off the history of its looks: a packet may be
    dropped exactly when its flow has stood above the target for an interval. */
module FqCodelDecisions {
  import opened Util
  import opened Words
  import opened FqCodelModel

  // ----- reading the looks -------------------------------------------------------------

  /** The largest packet seen so far, 256 at least. */
  function Largest(h: seq<Sight>): nat {
    if h == [] then 256 else
    var e, before := h[|h| - 1], Largest(h[..|h| - 1]);
    if e.Seen? && e.pkt.Some? && e.pkt.value.len > before then e.pkt.value.len else before
  }

  function Sojourn(e: Sight): Time
    requires e.Seen? && e.pkt.Some?
  {
    (e.now - e.pkt.value.stamp) % U32
  }

  /** The packet waited for the target at least. */
  predicate Late(e: Sight) {
    e.Seen? && e.pkt.Some? && Ahead(Sojourn(e), e.params.target) >= 0
  }

  /** Look n found its flow above the target: a late packet, and more bytes left
      in the qdisc than the largest packet has. */
  predicate Above(h: seq<Sight>, n: nat)
    requires n < |h|
  {
    Late(h[n]) && h[n].left > Largest(h[..n + 1])
  }

  /** From look k up to look n flow i was above the target at every look. */
  predicate Unbroken(h: seq<Sight>, i: nat, k: nat, n: nat)
    requires n <= |h|
  {
    forall j :: k <= j < n && h[j].flow == i ==> Above(h, j)
  }

  /** When the interval that starts with this look is over; zero means never. */
  function Deadline(e: Sight): Time {
    if e.Seen? then (e.now + e.params.interval) % U32 else 0
  }

  /** Look k began the stretch above the target that flow i is in before look n. */
  predicate Began(h: seq<Sight>, i: nat, k: nat, n: nat)
    requires n <= |h|
  {
    && k < n && h[k].flow == i && Deadline(h[k]) != 0
    && Unbroken(h, i, k, n)
    && (forall j :: 0 <= j < k && h[j].flow == i && Unbroken(h, i, j, k) ==> Deadline(h[j]) == 0)
  }

  /** Look n may drop its packet: the flow is above the target, has been so at
      every look since look k, and an interval has passed since then. */
  predicate Allowed(h: seq<Sight>, n: nat)
    requires n < |h|
  {
    Above(h, n) && exists k :: 0 <= k < n && Began(h, h[n].flow, k, n) && Ahead(h[n].now, Deadline(h[k])) > 0
  }

  lemma UnbrokenPart(h: seq<Sight>, i: nat, k: nat, m: nat, n: nat)
    requires m <= n <= |h| && Unbroken(h, i, k, n)
    ensures Unbroken(h, i, k, m)
  {
  }

  lemma BeganOnce(h: seq<Sight>, i: nat, k: nat, k': nat, n: nat)
    requires n <= |h| && Began(h, i, k, n) && Began(h, i, k', n)
    ensures k == k'
  {
    hide Unbroken;
    if k < k' {
      UnbrokenPart(h, i, k, k', n);
    } else if k' < k {
      UnbrokenPart(h, i, k', k, n);
    }
  }

  /** If some look of the stretch has a deadline, one of them began it. */
  lemma {:induction false} SomeBegan(h: seq<Sight>, i: nat, j: nat, n: nat) returns (k: nat)
    requires j < n <= |h| && h[j].flow == i && Deadline(h[j]) != 0 && Unbroken(h, i, j, n)
    ensures Began(h, i, k, n)
    decreases j
  {
    k := j;
    if m: nat :| m < j && h[m].flow == i && Unbroken(h, i, m, j) && Deadline(h[m]) != 0 {
      k := SomeBegan(h, i, m, n);
    }
  }

  // ----- one more entry ------------------------------------------------------------------

  lemma AboveKept(h: seq<Sight>, e: Sight, n: nat)
    requires n < |h|
    ensures Above(h + [e], n) == Above(h, n)
  {
    assert (h + [e])[..n + 1] == h[..n + 1];
  }

  lemma UnbrokenKept(h: seq<Sight>, e: Sight, i: nat, k: nat, n: nat)
    requires n <= |h|
    ensures Unbroken(h + [e], i, k, n) == Unbroken(h, i, k, n)
  {
    forall j: nat | j < n ensures Above(h + [e], j) == Above(h, j) {
      AboveKept(h, e, j);
    }
  }

  lemma BeganKept(h: seq<Sight>, e: Sight, i: nat, k: nat, n: nat)
    requires n <= |h|
    ensures Began(h + [e], i, k, n) == Began(h, i, k, n)
  {
    hide Unbroken;
    if k < n {
      UnbrokenKept(h, e, i, k, n);
      forall j: nat | j < k ensures Unbroken(h + [e], i, j, k) == Unbroken(h, i, j, k) {
        UnbrokenKept(h, e, i, j, k);
      }
    }
  }

  lemma AllowedKept(h: seq<Sight>, e: Sight, n: nat)
    requires n < |h|
    ensures Allowed(h + [e], n) == Allowed(h, n)
  {
    hide Began;
    AboveKept(h, e, n);
    forall k: nat ensures Began(h + [e], h[n].flow, k, n) == Began(h, h[n].flow, k, n) {
      BeganKept(h, e, h[n].flow, k, n);
    }
  }

  /** How the stretch of flow i changes with one more entry. */
  lemma Extended(h: seq<Sight>, e: Sight, i: nat, k: nat)
    ensures var h', n := h + [e], |h|;
            Began(h', i, k, n + 1) <==>
              if e.flow != i then Began(h, i, k, n)
              else if !Above(h', n) then false
              else if k < n then Began(h, i, k, n)
              else k == n && Deadline(e) != 0 && forall j: nat :: !Began(h, i, j, n)
  {
    var h', n := h + [e], |h|;
    BeganKept(h, e, i, k, n);
    if k == n && e.flow == i && Above(h', n) {
      if j: nat :| j < n && h'[j].flow == i && Unbroken(h', i, j, n) && Deadline(h'[j]) != 0 {
        UnbrokenKept(h, e, i, j, n);
        var m := SomeBegan(h, i, j, n);
      }
      forall j: nat | Began(h, i, j, n) ensures Unbroken(h', i, j, n) && h'[j].flow == i && Deadline(h'[j]) != 0 {
        UnbrokenKept(h, e, i, j, n);
      }
    }
  }

  lemma {:induction false} AllowedPrefix(h0: seq<Sight>, h: seq<Sight>, n: nat)
    requires n < |h0| && h0 <= h
    ensures Allowed(h, n) == Allowed(h0, n)
    decreases |h|
  {
    hide Allowed;
    if h0 != h {
      var m := |h| - 1;
      AllowedPrefix(h0, h[..m], n);
      AllowedKept(h[..m], h[m], n);
      assert h == h[..m] + [h[m]];
    } else {
      assert h == h0;
    }
  }

  // ----- what the variables remember --------------------------------------------------------

  /** t is what first_above_time must be after the looks h. */
  predicate Since(h: seq<Sight>, i: nat, t: Time) {
    if t == 0 then forall k: nat :: k < |h| ==> !Began(h, i, k, |h|)
    else exists k: nat :: k < |h| && Began(h, i, k, |h|) && Deadline(h[k]) == t
  }

  /** maxpacket and every first_above_time agree with the looks. */
  predicate Remembers(s: State) {
    && s.maxpacket == Largest(s.sights)
    && (forall i :: 0 <= i < |s.flows| ==> Since(s.sights, i, s.flows[i].cvars.firstAbove))
  }

  lemma SinceOther(h: seq<Sight>, e: Sight, i: nat, t: Time)
    requires Since(h, i, t) && e.flow != i
    ensures Since(h + [e], i, t)
  {
    hide Began;
    var h', n, m := h + [e], |h|, |h + [e]|;
    forall k: nat ensures Began(h', i, k, m) <==> Began(h, i, k, n) {
      Extended(h, e, i, k);
    }
    BeganBefore(h, i, n);
    if t != 0 {
      var k: nat :| k < n && Began(h, i, k, n) && Deadline(h[k]) == t;
      assert h'[k] == h[k];
    }
  }

  lemma SinceBroken(h: seq<Sight>, e: Sight)
    requires !Above(h + [e], |h|)
    ensures Since(h + [e], e.flow, 0)
  {
    hide Began;
    var h', i, m := h + [e], e.flow, |h + [e]|;
    forall k: nat ensures !Began(h', i, k, m) {
      Extended(h, e, i, k);
    }
  }

  lemma SinceAbove(h: seq<Sight>, e: Sight, t: Time)
    requires Since(h, e.flow, t) && Above(h + [e], |h|)
    ensures Since(h + [e], e.flow, if t == 0 then Deadline(e) else t)
  {
    hide Began;
    var h', i, n, m := h + [e], e.flow, |h|, |h + [e]|;
    BeganBefore(h, i, n);
    forall k: nat
      ensures Began(h', i, k, m) <==>
                if k < n then Began(h, i, k, n)
                else k == n && Deadline(e) != 0 && forall j: nat :: !Began(h, i, j, n)
    {
      Extended(h, e, i, k);
    }
    if t == 0 {
      assert forall j: nat :: !Began(h, i, j, n);
      assert h'[n] == e;
      assert Deadline(e) != 0 ==> Began(h', i, n, m);
    } else {
      var k: nat :| k < n && Began(h, i, k, n) && Deadline(h[k]) == t;
      assert h'[k] == h[k] && Began(h', i, k, m);
    }
  }

  lemma BeganBefore(h: seq<Sight>, i: nat, n: nat)
    requires n <= |h|
    ensures forall k: nat :: Began(h, i, k, n) ==> k < n
  {
  }

  lemma AllowedWhen(h: seq<Sight>, e: Sight, t: Time)
    requires e.Seen? && Since(h, e.flow, t) && Above(h + [e], |h|)
    ensures Allowed(h + [e], |h|) <==> t != 0 && Ahead(e.now, t) > 0
  {
    hide Began;
    var h', i, n := h + [e], e.flow, |h|;
    forall k: nat ensures Began(h', i, k, n) <==> Began(h, i, k, n) {
      BeganKept(h, e, i, k, n);
    }
    if t != 0 {
      var k: nat :| k < n && Began(h, i, k, n) && Deadline(h[k]) == t;
      forall k': nat | Began(h, i, k', n) ensures k' == k {
        BeganOnce(h, i, k, k', n);
      }
      assert h'[k] == h[k];
    }
  }

  lemma LargestNext(h: seq<Sight>, e: Sight)
    ensures Largest(h + [e]) == if e.Seen? && e.pkt.Some? && e.pkt.value.len > Largest(h) then e.pkt.value.len
                                else Largest(h)
  {
    assert (h + [e])[..|h|] == h;
  }

  /** A look at flow i with a packet whose bytes are no longer queued decides as the
      history says, and the variables go on remembering it. */
  lemma LookDecides(s: State, i: nat, skb: Option<Packet>, now: Time)
    requires i < |s.flows| && Remembers(s)
    requires skb.Some? ==> s.backlog - skb.value.len == Sum(Weights(s.flows))
    ensures var (t, drop) := ShouldDrop(s, i, skb, now);
            Remembers(t) && drop == Allowed(t.sights, |s.sights|)
  {
    hide Since, Allowed, Weights, Largest;
    var h, e, n := s.sights, Sighting(s, i, skb, now), |s.sights|;
    var (t, drop) := ShouldDrop(s, i, skb, now);
    var f := s.flows[i].cvars.firstAbove;
    LargestNext(h, e);
    assert (h + [e])[..n + 1] == h + [e];
    assert Since(t.sights, i, t.flows[i].cvars.firstAbove) && drop == Allowed(t.sights, n) by {
      if Above(h + [e], n) {
        SinceAbove(h, e, f);
        AllowedWhen(h, e, f);
      } else {
        SinceBroken(h, e);
        NotAllowed(h + [e], n);
      }
    }
    forall j: nat | j < |s.flows| ensures Since(t.sights, j, t.flows[j].cvars.firstAbove) {
      if j != i {
        SinceOther(h, e, j, s.flows[j].cvars.firstAbove);
      }
    }
  }

  lemma NotAllowed(h: seq<Sight>, n: nat)
    requires n < |h| && !Above(h, n)
    ensures !Allowed(h, n)
  {
  }
}
