/** What both EC2 modules share: a Python dict as a mutable object (so that two
    names can refer to the same dict), `dict.update`, and the launch defaults. */
module Ec2Params {
  import opened Values
  import opened AwsSettings

  /** `a.update(b)` as a value: every key of b with b's value, every other key of
      a with a's value. */
  function Overlay(a: Dict, b: Dict): (r: Dict)
    ensures r.Keys == a.Keys + b.Keys
    ensures forall k :: k in b ==> r[k] == b[k]
    ensures forall k :: k in a && k !in b ==> r[k] == a[k]
  {
    a + b
  }

  /** Updating twice with the same dict changes nothing the second time. */
  lemma OverlayIdempotent(a: Dict, b: Dict)
    ensures Overlay(Overlay(a, b), b) == Overlay(a, b)
  {
    var once := Overlay(a, b);
    var twice := Overlay(once, b);
    assert twice.Keys == once.Keys;
    forall k | k in twice ensures twice[k] == once[k] {
    }
  }

  /** A Python dict object: several fields may hold the same one, and an update
      through any of them is seen through all. */
  class PyDict {
    var entries: Dict

    constructor(initial: Dict)
      ensures entries == initial
    {
      entries := initial;
    }

    /** `dict.update(other)`, in place. */
    method Update(other: Dict)
      modifies this
      ensures entries == Overlay(old(entries), other)
    {
      entries := entries + other;
    }
  }

  /** The launch defaults: a t3.micro, exactly one instance, and the project's
      security group. */
  function DefaultParams(): (d: Dict)
    ensures d.Keys == {"InstanceType", "MaxCount", "MinCount", "SecurityGroupIds"}
    ensures d["InstanceType"] == VStr("t3.micro")
    ensures d["MaxCount"] == VInt(1) && d["MinCount"] == VInt(1)
    ensures d["SecurityGroupIds"] == VList([VStr(AWS_SECURITY_GROUPS[AWS_PROJECT_NAME])])
    ensures d["SecurityGroupIds"] == VList([VStr("sg-05811705b74edb37e")])
  {
    map[
      "InstanceType" := VStr("t3.micro"),
      "MaxCount" := VInt(1),
      "MinCount" := VInt(1),
      "SecurityGroupIds" := VList([VStr(AWS_SECURITY_GROUPS[AWS_PROJECT_NAME])])]
  }

  /** The parameters after `_set_defaults`: the caller's dict with the four
      defaults written over it. The defaults win on their own keys; every other
      key keeps the caller's value. */
  lemma DefaultsWin(init: Dict)
    ensures var p := Overlay(init, DefaultParams());
            && p.Keys == init.Keys + {"InstanceType", "MaxCount", "MinCount", "SecurityGroupIds"}
            && p["InstanceType"] == VStr("t3.micro")
            && p["MaxCount"] == VInt(1) && p["MinCount"] == VInt(1)
            && p["SecurityGroupIds"] == VList([VStr("sg-05811705b74edb37e")])
            && forall k :: k in init && k !in {"InstanceType", "MaxCount", "MinCount", "SecurityGroupIds"} ==>
                             p[k] == init[k]
  {
  }
}
