/** One producer and one consumer share a kfifo without a lock.  Each side reads
    the other's index once, copies element by element, and then moves its own
    index; the steps of the two sides interleave in any order, so every index
    read may be stale by the time it is used. */
module KfifoSpsc {
  import opened Util
  import opened Words

  datatype Producer<T> = PIdle | PCopy(buf: seq<T>, done: nat)
  datatype Consumer<T> = CIdle | CCopy(want: nat, got: seq<T>)

  /** The shared memory, where each side is in its call, and the histories of
      published and of consumed elements. */
  datatype State<T> = State(
    slots: seq<T>, inIdx: int, outIdx: int,
    prod: Producer<T>, cons: Consumer<T>,
    produced: seq<T>, consumed: seq<T>)

  datatype Action<T> =
    | BeginIn(buf: seq<T>) | CopyInOne | CommitIn
    | BeginOut(want: nat) | CopyOutOne | CommitOut

  function SlotOf(size: nat, x: int): (r: nat)
    requires size >= 1
    ensures r < size
  {
    And(x % U32, size - 1)
  }

  /** Elements the indices say are queued. */
  function Used(s: State): nat {
    (s.inIdx - s.outIdx) % U32
  }

  predicate CopyingIn(s: State) {
    s.prod.PCopy? && s.prod.done < |s.prod.buf|
  }

  predicate CopyingOut(s: State) {
    s.cons.CCopy? && |s.cons.got| < s.cons.want
  }

  /** One step of one side; a step that is not due changes nothing. */
  function Step<T>(size: nat, s: State<T>, a: Action<T>): (t: State<T>)
    requires |s.slots| == size >= 1
    ensures |t.slots| == size
  {
    match a
    case BeginIn(buf) =>
      if !s.prod.PIdle? then s else
      var room := (size - (s.inIdx - s.outIdx) % U32) % U32;
      s.(prod := PCopy(buf[..Min(|buf|, room)], 0))
    case CopyInOne =>
      if !CopyingIn(s) then s else
      var at := SlotOf(size, s.inIdx + s.prod.done);
      s.(slots := s.slots[at := s.prod.buf[s.prod.done]],
         prod := PCopy(s.prod.buf, s.prod.done + 1))
    case CommitIn =>
      if s.prod.PIdle? || CopyingIn(s) then s else
      s.(inIdx := (s.inIdx + |s.prod.buf|) % U32, prod := PIdle,
         produced := s.produced + s.prod.buf)
    case BeginOut(want) =>
      if !s.cons.CIdle? then s else
      s.(cons := CCopy(Min(want, (s.inIdx - s.outIdx) % U32), []))
    case CopyOutOne =>
      if !CopyingOut(s) then s else
      var at := SlotOf(size, s.outIdx + |s.cons.got|);
      s.(cons := CCopy(s.cons.want, s.cons.got + [s.slots[at]]))
    case CommitOut =>
      if s.cons.CIdle? || CopyingOut(s) then s else
      s.(outIdx := (s.outIdx + s.cons.want) % U32, cons := CIdle,
         consumed := s.consumed + s.cons.got)
  }

  // ----- the invariant ----------------------------------------------------------------

  /** The published, not yet released elements sit in their slots. */
  ghost predicate QueueStored<T>(s: State<T>)
    requires |s.slots| >= 1
  {
    forall k :: |s.consumed| <= k < |s.produced| ==> s.slots[k % |s.slots|] == s.produced[k]
  }

  /** So do the elements the producer has copied but not published. */
  ghost predicate CopyStored<T>(s: State<T>)
    requires |s.slots| >= 1
  {
    s.prod.PCopy? ==>
      forall m :: 0 <= m < s.prod.done <= |s.prod.buf| ==>
        s.slots[(|s.produced| + m) % |s.slots|] == s.prod.buf[m]
  }

  predicate Indices<T>(s: State<T>) {
    && s.inIdx == |s.produced| % U32 && s.outIdx == |s.consumed| % U32
    && |s.consumed| <= |s.produced| <= |s.consumed| + |s.slots|
    && (s.prod.PCopy? ==>
          s.prod.done <= |s.prod.buf| && |s.produced| + |s.prod.buf| <= |s.consumed| + |s.slots|)
    && (s.cons.CCopy? ==>
          |s.cons.got| <= s.cons.want && |s.consumed| + s.cons.want <= |s.produced|)
  }

  ghost predicate Streams<T>(s: State<T>) {
    && s.consumed <= s.produced
    && (s.cons.CCopy? ==> s.consumed + s.cons.got <= s.produced)
  }

  ghost predicate Inv<T>(k: nat, s: State<T>) {
    1 <= k <= 31 && |s.slots| == Pow2(k) && Indices(s) && QueueStored(s) && CopyStored(s) && Streams(s)
  }

  // ----- counters and slots ------------------------------------------------------------

  lemma PowerRange(k: nat)
    requires k <= 31
    ensures Pow2(k) < U32
  {
    hide Pow2;
    Pow2Is32();
    PowSplit(k, 32 - k);
    Even(32 - k);
    MulLe(2, Pow2(32 - k), Pow2(k));
  }

  lemma Even(k: nat)
    requires k >= 1
    ensures Pow2(k) >= 2
  {
  }

  /** The slot of a wrapped counter plus an offset is that of the true count. */
  lemma SlotExact(k: nat, count: nat, m: nat)
    requires 1 <= k <= 31
    ensures SlotOf(Pow2(k), count % U32 + m) == (count + m) % Pow2(k)
  {
    ModAdd(count, m, U32);
    WrapKeepsIndex(count + m, k);
    AndMask((count + m) % U32, k);
  }

  lemma UsedExact<T>(k: nat, s: State<T>)
    requires 1 <= k <= 31 && |s.slots| == Pow2(k) && Indices(s)
    ensures Used(s) == |s.produced| - |s.consumed|
    ensures (Pow2(k) - Used(s)) % U32 == Pow2(k) - Used(s)
  {
    PowerRange(k);
    var p, c := |s.produced|, |s.consumed|;
    assert p % U32 - c % U32 == p - c + U32 * (c / U32 - p / U32);
    ModMultiple(p - c, c / U32 - p / U32, U32);
    ModSmall(p - c, U32);
    ModSmall(Pow2(k) - (p - c), U32);
  }

  /** The slot about to be written is not the j-th unreleased one. */
  predicate Clear(s: State, j: nat)
    requires |s.slots| >= 1 && s.prod.PCopy?
  {
    SlotOf(|s.slots|, s.inIdx + s.prod.done) != SlotOf(|s.slots|, s.outIdx + j)
  }

  // ----- safety ------------------------------------------------------------------------

  /** The slot the producer is about to write holds no element that is published
      and not yet released. */
  lemma ProducerSafe<T>(k: nat, s: State<T>, j: nat)
    requires Inv(k, s) && CopyingIn(s) && j < Used(s)
    ensures Clear(s, j)
  {
    hide And, Pow2, SlotOf, QueueStored, CopyStored, Streams, Used;
    UsedExact(k, s);
    SlotExact(k, |s.produced|, s.prod.done);
    SlotExact(k, |s.consumed|, j);
    ModDistinct(|s.consumed| + j, |s.produced| + s.prod.done, |s.slots|);
  }

  /** The consumer only reads published elements, and reads what was put there. */
  lemma ConsumerSafe<T>(k: nat, s: State<T>)
    requires Inv(k, s) && CopyingOut(s)
    ensures |s.cons.got| < Used(s)
    ensures var at := SlotOf(|s.slots|, s.outIdx + |s.cons.got|);
            at < |s.slots| && s.slots[at] == s.produced[|s.consumed| + |s.cons.got|]
  {
    hide And, Pow2, SlotOf, CopyStored;
    UsedExact(k, s);
    SlotExact(k, |s.consumed|, |s.cons.got|);
  }

  // ----- every step keeps the invariant --------------------------------------------------

  lemma CopyInKeeps<T>(k: nat, s: State<T>)
    requires Inv(k, s) && CopyingIn(s)
    ensures Inv(k, Step(|s.slots|, s, CopyInOne))
    ensures Step(|s.slots|, s, CopyInOne).prod == PCopy(s.prod.buf, s.prod.done + 1)
  {
    hide And, Pow2, SlotOf;
    var n, at := |s.produced| + s.prod.done, SlotOf(|s.slots|, s.inIdx + s.prod.done);
    SlotExact(k, |s.produced|, s.prod.done);
    var t := Step(|s.slots|, s, CopyInOne);
    assert QueueStored(t) by {
      forall i | |s.consumed| <= i < |s.produced| ensures t.slots[i % |t.slots|] == t.produced[i] {
        ModDistinct(i, n, |s.slots|);
      }
    }
    assert CopyStored(t) by {
      forall m | 0 <= m < t.prod.done
        ensures t.slots[(|t.produced| + m) % |t.slots|] == t.prod.buf[m]
      {
        if m < s.prod.done {
          ModDistinct(|s.produced| + m, n, |s.slots|);
        }
      }
    }
  }

  lemma CommitInKeeps<T>(k: nat, s: State<T>)
    requires Inv(k, s) && s.prod.PCopy? && !CopyingIn(s)
    ensures Inv(k, Step(|s.slots|, s, CommitIn))
  {
    var t := Step(|s.slots|, s, CommitIn);
    ModAdd(|s.produced|, |s.prod.buf|, U32);
    assert QueueStored(t) by {
      forall i | |t.consumed| <= i < |t.produced| ensures t.slots[i % |t.slots|] == t.produced[i] {
        if i >= |s.produced| {
          var m := i - |s.produced|;
          assert i == |s.produced| + m;
        }
      }
    }
  }

  lemma CommitOutKeeps<T>(k: nat, s: State<T>)
    requires Inv(k, s) && s.cons.CCopy? && !CopyingOut(s)
    ensures Inv(k, Step(|s.slots|, s, CommitOut))
  {
    ModAdd(|s.consumed|, s.cons.want, U32);
  }

  lemma CopyOutKeeps<T>(k: nat, s: State<T>)
    requires Inv(k, s) && CopyingOut(s)
    ensures Inv(k, Step(|s.slots|, s, CopyOutOne))
  {
    hide And, Pow2, QueueStored, CopyStored, SlotOf;
    ConsumerSafe(k, s);
    var t := Step(|s.slots|, s, CopyOutOne);
    StoredSame(s, t);
    PrefixOne(s.consumed, s.cons.got, s.produced);
  }

  lemma StoredSame<T>(s: State<T>, t: State<T>)
    requires |s.slots| >= 1 && QueueStored(s) && CopyStored(s)
    requires t == s.(cons := t.cons)
    ensures QueueStored(t) && CopyStored(t)
  {
  }

  lemma PrefixOne<T>(a: seq<T>, b: seq<T>, whole: seq<T>)
    requires a + b <= whole && |a| + |b| < |whole|
    ensures a + (b + [whole[|a| + |b|]]) <= whole
  {
    var x := whole[|a| + |b|];
    assert a + (b + [x]) == (a + b) + [x];
  }

  lemma BeginKeeps<T>(k: nat, s: State<T>, buf: seq<T>, want: nat)
    requires Inv(k, s)
    ensures Inv(k, Step(|s.slots|, s, BeginIn(buf)))
    ensures Inv(k, Step(|s.slots|, s, BeginOut(want)))
  {
    hide And, Pow2;
    UsedExact(k, s);
  }

  /** Every step of either side keeps the invariant. */
  lemma StepKeeps<T>(k: nat, s: State<T>, a: Action<T>)
    requires Inv(k, s)
    ensures Inv(k, Step(|s.slots|, s, a))
  {
    hide And, Pow2, Inv;
    match a
    case BeginIn(buf) => BeginKeeps(k, s, buf, 0);
    case BeginOut(want) => BeginKeeps(k, s, [], want);
    case CopyInOne => if CopyingIn(s) { CopyInKeeps(k, s); }
    case CopyOutOne => if CopyingOut(s) { CopyOutKeeps(k, s); }
    case CommitIn => if s.prod.PCopy? && !CopyingIn(s) { CommitInKeeps(k, s); }
    case CommitOut => if s.cons.CCopy? && !CopyingOut(s) { CommitOutKeeps(k, s); }
  }

  // ----- runs ------------------------------------------------------------------------

  function Run<T>(size: nat, s: State<T>, actions: seq<Action<T>>): (t: State<T>)
    requires |s.slots| == size >= 1
    ensures |t.slots| == size
    decreases |actions|
  {
    if actions == [] then s else Run(size, Step(size, s, actions[0]), actions[1..])
  }

  /** A fifo just set up, over memory with arbitrary contents. */
  ghost predicate Fresh<T>(s: State<T>) {
    s.inIdx == 0 && s.outIdx == 0 && s.prod.PIdle? && s.cons.CIdle? && s.produced == [] && s.consumed == []
  }

  lemma {:induction false} RunKeeps<T>(k: nat, s: State<T>, actions: seq<Action<T>>)
    requires Inv(k, s)
    ensures Inv(k, Run(|s.slots|, s, actions))
    decreases |actions|
  {
    if actions != [] {
      StepKeeps(k, s, actions[0]);
      RunKeeps(k, Step(|s.slots|, s, actions[0]), actions[1..]);
    }
  }

  /** Under every interleaving, from any initial memory and for any counter
      wrap-around: what the consumer has got is a prefix of what the producer
      has published, the fifo never holds more than its size, the producer is
      never about to overwrite an unreleased element, and the consumer never
      about to read an unpublished one. */
  lemma SpscSafe<T>(k: nat, s: State<T>, actions: seq<Action<T>>)
    requires 1 <= k <= 31 && |s.slots| == Pow2(k) && Fresh(s)
    ensures var t := Run(|s.slots|, s, actions);
            && t.consumed <= t.produced
            && Used(t) == |t.produced| - |t.consumed| <= |s.slots|
            && (CopyingIn(t) ==> forall j: nat :: j < Used(t) ==> Clear(t, j))
            && (CopyingOut(t) ==> |t.cons.got| < Used(t))
  {
    hide Run, And, Pow2, Clear, CopyStored;
    FreshInv(k, s);
    RunKeeps(k, s, actions);
    var t := Run(|s.slots|, s, actions);
    UsedExact(k, t);
    if CopyingIn(t) {
      forall j: nat | j < Used(t) ensures Clear(t, j) {
        ProducerSafe(k, t, j);
      }
    }
    if CopyingOut(t) {
      ConsumerSafe(k, t);
    }
  }

  lemma FreshInv<T>(k: nat, s: State<T>)
    requires 1 <= k <= 31 && |s.slots| == Pow2(k) && Fresh(s)
    ensures Inv(k, s)
  {
    ModSmall(0, U32);
  }

  // ----- what a call moves ---------------------------------------------------------------

  function CopiesIn<T>(actions: seq<Action<T>>): nat {
    if actions == [] then 0 else One(actions[0].CopyInOne?) + CopiesIn(actions[1..])
  }

  function CopiesOut<T>(actions: seq<Action<T>>): nat {
    if actions == [] then 0 else One(actions[0].CopyOutOne?) + CopiesOut(actions[1..])
  }

  /** The producer copies on, whatever the consumer does meanwhile. */
  lemma {:induction false} ProducerGoesOn<T>(size: nat, s: State<T>, actions: seq<Action<T>>)
    requires |s.slots| == size >= 1 && s.prod.PCopy? && s.prod.done <= |s.prod.buf|
    requires forall a :: a in actions ==> !a.CommitIn?
    ensures var t := Run(size, s, actions);
            && t.prod == PCopy(s.prod.buf, Min(|s.prod.buf|, s.prod.done + CopiesIn(actions)))
            && t.produced == s.produced
    decreases |actions|
  {
    hide SlotOf;
    if actions != [] {
      assert actions[0] in actions;
      ProducerGoesOn(size, Step(size, s, actions[0]), actions[1..]);
    }
  }

  lemma {:induction false} ConsumerGoesOn<T>(size: nat, s: State<T>, actions: seq<Action<T>>)
    requires |s.slots| == size >= 1 && s.cons.CCopy? && |s.cons.got| <= s.cons.want
    requires forall a :: a in actions ==> !a.CommitOut?
    ensures var t := Run(size, s, actions);
            && t.cons.CCopy? && t.cons.want == s.cons.want
            && |t.cons.got| == Min(s.cons.want, |s.cons.got| + CopiesOut(actions))
            && t.consumed == s.consumed && s.produced <= t.produced
    decreases |actions|
  {
    hide SlotOf;
    if actions != [] {
      assert actions[0] in actions;
      var s1 := Step(size, s, actions[0]);
      assert s.produced <= s1.produced;
      ConsumerGoesOn(size, s1, actions[1..]);
    }
  }

  /** A put that is given its copy steps publishes exactly as many elements, in order, as
      were room for when it began, however the consumer's steps fall in between. */
  lemma PutMoves<T>(k: nat, s: State<T>, buf: seq<T>, actions: seq<Action<T>>)
    requires Inv(k, s) && s.prod.PIdle? && CopiesIn(actions) >= |buf|
    requires forall a :: a in actions ==> !a.CommitIn?
    ensures var size := |s.slots|;
            var t := Step(size, Run(size, Step(size, s, BeginIn(buf)), actions), CommitIn);
            && Used(s) <= size && t.prod.PIdle?
            && t.produced == s.produced + buf[..Min(|buf|, size - Used(s))]
  {
    hide Pow2, QueueStored, CopyStored, SlotOf;
    UsedExact(k, s);
    ProducerGoesOn(|s.slots|, Step(|s.slots|, s, BeginIn(buf)), actions);
  }

  /** A get that is given its copy steps delivers exactly the elements that were queued when
      it began, as many as it asked for at most. */
  lemma GetMoves<T>(k: nat, s: State<T>, want: nat, actions: seq<Action<T>>)
    requires Inv(k, s) && s.cons.CIdle? && CopiesOut(actions) >= want
    requires forall a :: a in actions ==> !a.CommitOut?
    ensures var size := |s.slots|;
            var t := Step(size, Run(size, Step(size, s, BeginOut(want)), actions), CommitOut);
            && Used(s) == |s.produced| - |s.consumed| && t.cons.CIdle?
            && t.consumed == s.produced[..|s.consumed| + Min(want, Used(s))]
  {
    hide Pow2, QueueStored, CopyStored, SlotOf, Run;
    UsedExact(k, s);
    var size, s1 := |s.slots|, Step(|s.slots|, s, BeginOut(want));
    StepKeeps(k, s, BeginOut(want));
    ConsumerGoesOn(size, s1, actions);
    RunKeeps(k, s1, actions);
    var e := Run(size, s1, actions);
    StepKeeps(k, e, CommitOut);
    var t := Step(size, e, CommitOut);
    assert t.consumed == t.produced[..|t.consumed|];
  }
}
