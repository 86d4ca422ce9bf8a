/** A PM QoS parameter in place: the two critical sections as methods, and the
    three requests as the calls that run them one after the other. */
module PmQosObject {
  import opened Util
  import opened PmQos

  class Parameter {
    const kind: Kind
    const default: int
    var reqs: seq<Req>
    var target: int

    constructor (kind: Kind, default: int)
      ensures this.kind == kind && this.default == default && reqs == [] && target == default
    {
      this.kind, this.default, reqs, target := kind, default, [], default;
    }

    /** update_target; the result says whether the watchers are to be called. */
    method UpdateTarget() returns (callNotifier: bool)
      modifies this`target
      ensures IsExtreme(kind, default, reqs, target) && target == Extreme(kind, default, reqs)
      ensures callNotifier <==> target != old(target)
    {
      var extreme := default;
      for k := 0 to |reqs|
        invariant extreme == Extreme(kind, default, reqs[..k])
      {
        assert reqs[..k + 1][..k] == reqs[..k];
        extreme := Compare(kind, extreme, reqs[k].value);
      }
      assert reqs[..|reqs|] == reqs;
      ExtremeIs(kind, default, reqs);
      callNotifier := target != extreme;
      if callNotifier {
        target := extreme;
      }
    }

    /** The search of the update and remove requests. */
    method Search(name: string) returns (k: nat)
      ensures k == Named(reqs, name)
    {
      k := 0;
      while k < |reqs| && reqs[k].name != name
        invariant k <= |reqs|
        invariant forall j :: 0 <= j < k ==> reqs[j].name != name
      {
        k := k + 1;
      }
      assert Named(reqs, name) == k;
    }

    /** pm_qos_add_requirement. */
    method AddRequirement(name: string, value: int, mem: bool) returns (err: int)
      modifies this
      ensures reqs == Edit(default, old(reqs), AddReq(name, value, mem)).0
      ensures err == if mem then 0 else -ENOMEM
      ensures mem ==> IsExtreme(kind, default, reqs, target)
      ensures !mem ==> target == old(target)
    {
      if !mem {
        return -ENOMEM;
      }
      reqs := [Req(name, Value(default, value))] + reqs;
      var _ := UpdateTarget();
      err := 0;
    }

    /** pm_qos_update_requirement. */
    method UpdateRequirement(name: string, value: int)
      modifies this
      ensures reqs == Edit(default, old(reqs), UpdateReq(name, value)).0
      ensures if Edit(default, old(reqs), UpdateReq(name, value)).1
              then IsExtreme(kind, default, reqs, target) else target == old(target)
    {
      var k := Search(name);
      if k < |reqs| {
        reqs := reqs[k := Req(name, Value(default, value))];
        var _ := UpdateTarget();
      }
    }

    /** pm_qos_remove_requirement. */
    method RemoveRequirement(name: string)
      modifies this
      ensures reqs == Edit(default, old(reqs), RemoveReq(name)).0
      ensures if Edit(default, old(reqs), RemoveReq(name)).1
              then IsExtreme(kind, default, reqs, target) else target == old(target)
    {
      var k := Search(name);
      if k < |reqs| {
        reqs := reqs[..k] + reqs[k + 1..];
        var _ := UpdateTarget();
      }
    }
  }
}
