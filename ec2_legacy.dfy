/** The older copy of the EC2 wrappers, kept beside the newer one: the same
    instance and instance table, with the session opened at launch rather than
    at construction (sessions are not modelled, so the two behave alike). */
module Ec2Legacy {
  import opened Values
  import opened Sdk
  import opened Ec2Params

  /** One EC2 instance. `params` is the very dict the caller passed in, and
      `launchParams`, once set, is that same dict again. `name` is an attribute
      that no code sets; None stands for its absence. */
  class SingleInstance {
    var defaultParams: Dict
    var params: PyDict
    var launchParams: Option<PyDict>
    var response: Option<Dict>
    var name: Option<string>

    /** Sets the defaults into the caller's dict; the session is not modelled. */
    constructor(initDict: PyDict)
      modifies initDict
      ensures params == initDict
      ensures initDict.entries == Overlay(old(initDict.entries), DefaultParams())
      ensures defaultParams == DefaultParams()
      ensures launchParams == None && response == None && name == None
    {
      defaultParams := map[];
      params := initDict;
      launchParams := None;
      response := None;
      name := None;
      new;
      SetDefaults(initDict);
    }

    /** `_set_defaults`: keeps the caller's dict as the parameters and writes the
        four defaults into it, so the caller sees the change. */
    method SetDefaults(initDict: PyDict)
      modifies this, initDict
      ensures defaultParams == DefaultParams()
      ensures params == initDict
      ensures initDict.entries == Overlay(old(initDict.entries), DefaultParams())
      ensures launchParams == old(launchParams) && response == old(response) && name == old(name)
    {
      defaultParams := DefaultParams();
      params := initDict;
      params.Update(defaultParams);
    }

    /** `ec2_launch_instance`: the launch parameters become the parameter dict
        itself, updated with `launchDict` (whose keys win), and the SDK's answer
        to run_instances with them is recorded and returned. */
    method LaunchInstance(launchDict: Dict, client: Client) returns (r: Result<Dict>)
      modifies this, params
      ensures params == old(params) && launchParams == Some(params)
      ensures params.entries == Overlay(old(params.entries), launchDict)
      ensures var out := client(Request("run_instances", params.entries));
              && (out.Answered? ==> r == Ok(out.response) && response == Some(out.response))
              && (out.Raised? ==> r == Err(SdkFault(out.fault)) && response == old(response))
      ensures defaultParams == old(defaultParams) && name == old(name)
    {
      launchParams := Some(params);
      params.Update(launchDict);
      var out := client(Request("run_instances", params.entries));
      if out.Raised? {
        return Err(SdkFault(out.fault));
      }
      response := Some(out.response);
      return Ok(out.response);
    }
  }

  /** The launched instances, by name. */
  class AllInstances {
    var sessions: map<string, SingleInstance>

    constructor()
      ensures sessions == map[]
    {
      sessions := map[];
    }

    /** `ec2_store_instance`: files the instance under its name, replacing any
        earlier entry; an instance without a name attribute fails and nothing
        is stored. */
    method StoreInstance(instance: SingleInstance) returns (r: Result<()>)
      modifies this
      ensures instance.name.None? ==> r == Err(Defect) && sessions == old(sessions)
      ensures instance.name.Some? ==> r == Ok(()) && sessions == old(sessions)[instance.name.value := instance]
      ensures instance.name.Some? ==> forall n :: n in old(sessions) && n != instance.name.value ==>
                                                   n in sessions && sessions[n] == old(sessions)[n]
    {
      if instance.name.None? {
        return Err(Defect);
      }
      sessions := sessions[instance.name.value := instance];
      return Ok(());
    }
  }
}
