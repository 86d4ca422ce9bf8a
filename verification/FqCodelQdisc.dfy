/** The queueing discipline as the kernel runs it: flow and backlog tables
    updated in place, a loop that scans for the fattest flow, CoDel's catch-up
    loop, the `goto begin` loop and the drain loop.  Every method is proved
    equal to the value-level operation of the same name. */
module FqCodelQdisc {
  import opened Util
  import opened Words
  import opened FqCodelModel
  import opened FqCodelInvariants
  import opened FqCodelRuns

  class Qdisc {
    const clock: Clock
    const flows: array<Flow>
    const backlogs: array<int>
    var newFlows: seq<nat>
    var oldFlows: seq<nat>
    var quantum: int
    var limit: nat
    var params: CodelParams
    var maxpacket: nat
    var dropCount: int
    var ecnMark: nat
    var qlen: int
    var backlog: int
    var parent: int
    var tick: nat
    ghost var log: seq<Event>
    ghost var sights: seq<Sight>

    ghost function Model(): State
      reads this, flows, backlogs
    {
      State(flows[..], backlogs[..], newFlows, oldFlows, quantum, limit, params,
            maxpacket, dropCount, ecnMark, qlen, backlog, parent, tick, log, sights)
    }

    ghost predicate Valid()
      reads this, flows, backlogs
    {
      Shaped(Model())
    }

    constructor (clock: Clock, flowsCnt: pos, quantum: pos, limit: nat, params: CodelParams)
      ensures fresh(flows) && fresh(backlogs)
      ensures Model() == Initial(flowsCnt, quantum, limit, params) && Good(Model())
      ensures this.clock == clock
    {
      this.clock := clock;
      flows := new Flow[flowsCnt](_ => Flow([], 0, FRESH_VARS));
      backlogs := new int[flowsCnt](_ => 0);
      newFlows, oldFlows := [], [];
      this.quantum, this.limit, this.params := quantum, limit, params;
      maxpacket, dropCount, ecnMark, qlen, backlog, parent, tick := 256, 0, 0, 0, 0, 0, 0;
      log, sights := [], [];
      new;
      assert flows[..] == seq(flowsCnt, _ => Flow([], 0, FRESH_VARS));
      assert backlogs[..] == seq(flowsCnt, _ => 0);
      InitialGood(flowsCnt, quantum, limit, params);
    }

    method SetFlow(i: nat, f: Flow)
      requires i < flows.Length
      modifies flows
      ensures Model() == old(Model()).(flows := old(flows[..])[i := f])
    {
      flows[i] := f;
    }

    /** The callback handed to CoDel. */
    method TakeHead(i: nat) returns (skb: Option<Packet>)
      requires Valid() && i < flows.Length
      modifies this`qlen, flows, backlogs
      ensures Valid() && (Model(), skb) == Pull(old(Model()), i)
    {
      var f := flows[i];
      if f.queue == [] {
        return None;
      }
      var p := f.queue[0];
      flows[i] := f.(queue := f.queue[1..]);
      backlogs[i] := backlogs[i] - p.len;
      qlen := qlen - 1;
      skb := Some(p);
      assert flows[..] == old(flows[..])[i := flows[i]];
      assert backlogs[..] == old(backlogs[..])[i := backlogs[i]];
    }

    /** codel_should_drop. */
    method Examine(i: nat, skb: Option<Packet>, now: Time) returns (drop: bool)
      requires Valid() && i < flows.Length
      modifies this`backlog, this`maxpacket, this`sights, flows
      ensures Valid() && (Model(), drop) == ShouldDrop(old(Model()), i, skb, now)
    {
      var v := flows[i].cvars;
      drop := false;
      sights := sights + [Sighting(Model(), i, skb, now)];
      if skb.None? {
        SetFlow(i, flows[i].(cvars := v.(firstAbove := 0)));
        return;
      }
      var len := skb.value.len;
      v := v.(ldelay := (now - skb.value.stamp) % U32);
      backlog := backlog - len;
      if len > maxpacket {
        maxpacket := len;
      }
      if Ahead(v.ldelay, params.target) < 0 || backlog <= maxpacket {
        v := v.(firstAbove := 0);
      } else if v.firstAbove == 0 {
        v := v.(firstAbove := (now + params.interval) % U32);
      } else {
        drop := Ahead(now, v.firstAbove) > 0;
      }
      SetFlow(i, flows[i].(cvars := v));
    }

    /** Drops the packet in hand and pulls the next one. */
    method Replace(i: nat, p: Packet) returns (skb: Option<Packet>)
      requires Valid() && i < flows.Length
      modifies this`qlen, this`dropCount, this`log, flows, backlogs
      ensures Valid() && (Model(), skb) == Pull(Discard(old(Model()), i, p), i)
    {
      dropCount := dropCount + 1;
      log := log + [CodelDropped(i, p)];
      skb := TakeHead(i);
    }

    /** The catch-up loop of codel_dequeue. */
    method CatchUp(i: nat, p: Packet, now: Time) returns (skb: Option<Packet>)
      requires Valid() && i < flows.Length
      modifies this, flows, backlogs
      ensures Valid() && (Model(), skb) == DropLoop(old(Model()), i, p, now)
    {
      hide CountDrop, Postpone, DropOne, ControlLaw;
      skb := Some(p);
      while skb.Some? && Overdue(flows[i].cvars, now)
        invariant Valid()
        invariant DropLoop(old(Model()), i, p, now) ==
                  if skb.Some? then DropLoop(Model(), i, skb.value, now) else (Model(), None)
        decreases skb.Some?, |flows[i].queue|
      {
        var v := CountDrop(flows[i].cvars);
        if params.ecn && skb.value.ect {
          ecnMark := ecnMark + 1;
          SetFlow(i, flows[i].(cvars := Postpone(v, params.interval)));
          return;
        }
        SetFlow(i, flows[i].(cvars := v));
        DropOneShrinks(Model(), i, skb.value, now);
        skb := DropTurn(i, skb.value, now);
      }
    }

    method DropTurn(i: nat, p: Packet, now: Time) returns (skb: Option<Packet>)
      requires Valid() && i < flows.Length
      modifies this, flows, backlogs
      ensures Valid() && (Model(), skb) == DropOne(old(Model()), i, p, now)
    {
      skb := Replace(i, p);
      var drop := Examine(i, skb, now);
      var v := flows[i].cvars;
      SetFlow(i, flows[i].(cvars := if drop then Postpone(v, params.interval) else v.(dropping := false)));
    }

    /** The part of codel_dequeue that enters the dropping state. */
    method Enter(i: nat, p: Packet, now: Time) returns (skb: Option<Packet>)
      requires Valid() && i < flows.Length
      modifies this, flows, backlogs
      ensures Valid() && (Model(), skb) == FirstTurn(old(Model()), i, p, now)
    {
      hide EnterDropping, ShouldDrop, Pull, Discard;
      skb := Some(p);
      if params.ecn && p.ect {
        ecnMark := ecnMark + 1;
      } else {
        skb := Replace(i, p);
        var drop := Examine(i, skb, now);
      }
      SetFlow(i, flows[i].(cvars := EnterDropping(flows[i].cvars, params.interval, now)));
    }

    /** codel_dequeue. */
    method CodelNext(i: nat) returns (skb: Option<Packet>)
      requires Valid() && i < flows.Length
      modifies this, flows, backlogs
      ensures Valid() && (Model(), skb) == CodelDequeue(clock, old(Model()), i)
    {
      hide FirstTurn, DropLoop, ShouldDrop, Pull;
      skb := TakeHead(i);
      if skb.None? {
        SetFlow(i, flows[i].(cvars := flows[i].cvars.(dropping := false)));
        return;
      }
      var now := clock(tick);
      tick := tick + 1;
      var drop := Examine(i, skb, now);
      var v := flows[i].cvars;
      if v.dropping {
        if !drop {
          SetFlow(i, flows[i].(cvars := v.(dropping := false)));
        } else {
          skb := CatchUp(i, skb.value, now);
        }
      } else if drop {
        skb := Enter(i, skb.value, now);
      }
    }

    /** The part of fq_codel_dequeue after CoDel handed out a packet. */
    method Charge(i: nat, p: Packet)
      requires Valid() && i < flows.Length
      modifies this`parent, this`dropCount, this`log, flows
      ensures Valid() && Model() == Deliver(old(Model()), i, p)
    {
      SetFlow(i, flows[i].(deficit := flows[i].deficit - p.len));
      log := log + [Sent(i, p)];
      if dropCount != 0 && qlen != 0 {
        parent := parent - dropCount;
        dropCount := 0;
      }
    }

    /** fq_codel_dequeue, with its backward goto as a loop. */
    method Dequeue() returns (skb: Option<Packet>)
      requires Valid()
      modifies this, flows, backlogs
      ensures Valid() && (Model(), skb) == FqCodelModel.Dequeue(clock, old(Model()))
    {
      hide CodelDequeue, Deliver, Work, RefillHead, RetireHead;
      ghost var start := Model();
      while true
        invariant Valid()
        invariant FqCodelModel.Dequeue(clock, Model()) == FqCodelModel.Dequeue(clock, start)
        decreases Work(Model())
      {
        ghost var s := Model();
        TurnLowersWork(clock, s);
        var fromNew := newFlows != [];
        if newFlows == [] && oldFlows == [] {
          return None;
        }
        var i := if fromNew then newFlows[0] else oldFlows[0];
        if flows[i].deficit <= 0 {
          Rotate(i);
        } else {
          skb := CodelNext(i);
          if skb.Some? {
            Charge(i, skb.value);
            return;
          }
          CodelFrame(clock, s, i);
          Leave(i);
        }
      }
    }

    method Rotate(i: nat)
      requires Valid() && HasListed(Model()) && i == Head(Model())
      modifies this`newFlows, this`oldFlows, this`log, flows
      ensures Model() == RefillHead(old(Model()))
    {
      SetFlow(i, flows[i].(deficit := flows[i].deficit + quantum));
      log := log + [Refilled(i, quantum)];
      if newFlows != [] {
        newFlows := newFlows[1..];
        oldFlows := oldFlows + [i];
      } else {
        oldFlows := oldFlows[1..] + [i];
      }
    }

    method Leave(i: nat)
      requires Valid() && HasListed(Model()) && i == Head(Model())
      modifies this`newFlows, this`oldFlows
      ensures Model() == RetireHead(old(Model()))
    {
      if newFlows != [] {
        newFlows := newFlows[1..];
        if oldFlows != [] {
          oldFlows := oldFlows + [i];
        }
      } else {
        oldFlows := oldFlows[1..];
      }
    }

    /** The scan of the backlog table: the first flow of largest backlog. */
    method FindFattest() returns (idx: nat)
      requires backlogs.Length >= 1 && forall j :: 0 <= j < backlogs.Length ==> backlogs[j] >= 0
      ensures idx < backlogs.Length
      ensures forall j :: 0 <= j < backlogs.Length ==> backlogs[j] <= backlogs[idx]
      ensures forall j :: 0 <= j < idx ==> backlogs[j] < backlogs[idx]
    {
      var maxbacklog := 0;
      idx := 0;
      for k := 0 to backlogs.Length
        invariant idx < backlogs.Length
        invariant maxbacklog == 0 ==> idx == 0
        invariant maxbacklog != 0 ==> maxbacklog == backlogs[idx]
        invariant forall j :: 0 <= j < k ==> backlogs[j] <= maxbacklog
        invariant forall j :: 0 <= j < idx ==> backlogs[j] < maxbacklog
      {
        if backlogs[k] > maxbacklog {
          maxbacklog := backlogs[k];
          idx := k;
        }
      }
    }

    /** fq_codel_drop: head-drop from the fattest flow. */
    method DropFat() returns (idx: nat)
      requires CanDrop(Model()) && Counted(Model())
      modifies this`qlen, this`backlog, this`log, flows, backlogs
      ensures Valid() && (Model(), idx) == DropFattest(old(Model()))
    {
      assert forall j :: 0 <= j < backlogs.Length ==> backlogs[j] == Model().backlogs[j];
      idx := FindFattest();
      assert idx == Fattest(Model().backlogs);
      hide Fattest, Counted;
      var f := flows[idx];
      var p := f.queue[0];
      flows[idx] := f.(queue := f.queue[1..]);
      backlogs[idx] := backlogs[idx] - p.len;
      qlen := qlen - 1;
      backlog := backlog - p.len;
      log := log + [OverlimitDropped(idx, p)];
      assert flows[..] == old(flows[..])[idx := flows[idx]];
      assert backlogs[..] == old(backlogs[..])[idx := backlogs[idx]];
    }

    /** Stamps the packet and puts it at the end of its flow. */
    method AddTail(i: nat, p: Packet)
      requires Valid() && i < flows.Length
      modifies this`tick, this`backlog, this`qlen, this`log, flows, backlogs
      ensures Model() ==
              var s := old(Model());
              var q := p.(stamp := clock(s.tick));
              s.(flows := s.flows[i := s.flows[i].(queue := s.flows[i].queue + [q])],
                 backlogs := s.backlogs[i := s.backlogs[i] + p.len],
                 backlog := s.backlog + p.len, qlen := s.qlen + 1,
                 tick := s.tick + 1, log := s.log + [Arrived(i, q)])
    {
      var q := p.(stamp := clock(tick));
      tick := tick + 1;
      SetFlow(i, flows[i].(queue := flows[i].queue + [q]));
      backlogs[i] := backlogs[i] + p.len;
      backlog := backlog + p.len;
      qlen := qlen + 1;
      log := log + [Arrived(i, q)];
    }

    /** Lists a flow as new, with a full quantum. */
    method Activate(i: nat)
      requires i < flows.Length
      modifies this`newFlows, this`log, this`sights, flows
      ensures Model() ==
              var s := old(Model());
              s.(flows := s.flows[i := s.flows[i].(deficit := s.quantum, cvars := FRESH_VARS)],
                 newFlows := s.newFlows + [i], log := s.log + [Activated(i, s.quantum)],
                 sights := s.sights + [Restarted(i)])
    {
      newFlows := newFlows + [i];
      SetFlow(i, flows[i].(deficit := quantum, cvars := FRESH_VARS));
      log := log + [Activated(i, quantum)];
      sights := sights + [Restarted(i)];
    }

    method Queue(i: nat, p: Packet)
      requires Valid() && i < flows.Length
      modifies this, flows, backlogs
      ensures Model() == Append(clock, old(Model()), i, p) && Valid()
    {
      AddTail(i, p);
      if !(i in newFlows || i in oldFlows) {
        Activate(i);
      }
      AppendShaped(clock, old(Model()), i, p);
    }

    /** fq_codel_enqueue. */
    method Enqueue(to: Class, p: Packet) returns (v: Verdict)
      requires Good(Model()) && (to.Assigned? ==> to.flow < flows.Length)
      modifies this, flows, backlogs
      ensures match to
              case Refused(code) => Model() == old(Model()) && v == code
              case Assigned(i) =>
                && CanDrop(Append(clock, old(Model()), i, p))
                && (Model(), v) == EnqueueTo(clock, old(Model()), i, p)
                && Consistent(Model()) && qlen <= limit
    {
      hide Append, DropFattest, Fattest, Counted, Scheduled, Recorded;
      match to
      case Refused(code) =>
        v := code;
      case Assigned(i) =>
        AppendKeeps(clock, Model(), i, p);
        EnqueueKeeps(clock, Model(), i, p);
        Queue(i, p);
        if qlen < limit {
          return Success;
        }
        var idx := DropFat();
        if idx == i {
          return CongestionNotification;
        }
        parent := parent - 1;
        v := Success;
    }

    /** fq_codel_change.  The flow count is fixed once the flows exist. */
    method Change(o: Options) returns (ok: bool)
      requires Good(Model())
      modifies this, flows, backlogs
      ensures ok <==> o.flows.None?
      ensures Model() == Step(clock, old(Model()), Configure(o)) && Good(Model())
    {
      hide Counted, Scheduled, Recorded, Drain, Reconfigure;
      StepGood(clock, Model(), Configure(o));
      if o.flows.Some? {
        return false;
      }
      ReconfigureKeeps(Model(), o);
      Apply(o);
      DrainToLimit();
      parent := parent - dropCount;
      dropCount := 0;
      ok := true;
    }

    method Apply(o: Options)
      modifies this`params, this`limit, this`quantum
      ensures Model() == Reconfigure(old(Model()), o)
    {
      if o.target.Some? {
        params := params.(target := ToTime(o.target.value));
      }
      if o.interval.Some? {
        params := params.(interval := ToTime(o.interval.value));
      }
      if o.limit.Some? {
        limit := o.limit.value;
      }
      if o.ecn.Some? {
        params := params.(ecn := o.ecn.value);
      }
      if o.quantum.Some? {
        quantum := if o.quantum.value > 256 then o.quantum.value else 256;
      }
    }

    /** The drain loop: afterwards the limit holds. */
    method DrainToLimit()
      requires Consistent(Model())
      modifies this, flows, backlogs
      ensures Consistent(Model()) && Model() == Drain(clock, old(Model())) && qlen <= limit
    {
      hide FqCodelModel.Dequeue, Counted, Scheduled, Recorded;
      while qlen > limit
        invariant Consistent(Model()) && Drain(clock, Model()) == Drain(clock, old(Model()))
        decreases qlen
      {
        DequeueKeeps(clock, Model());
        var skb := Dequeue();
        BooksOnly(Model(), 0, dropCount + 1);
        dropCount := dropCount + 1;
      }
    }
  }

  lemma AppendShaped(clock: Clock, s: State, i: nat, p: Packet)
    requires Shaped(s) && i < |s.flows|
    ensures Shaped(Append(clock, s, i, p))
  {
  }
}
