/** The IoT Core wrappers: a thing object that remembers its creation response,
    a ledger of all things created through it (a list of names kept beside a
    dict from name to thing), and the name listings of things and thing types. */
module IotCore {
  import opened Values
  import opened Sdk
  import AwsCommon
  import opened Listing

  /** The create_thing request: `billingGroupName` is sent only when the
      argument is truthy. */
  function CreateThingRequest(thingName: string, thingTypeName: Value, attributes: Value,
                              billingGroupName: Value): (req: Request)
    ensures req.operation == "create_thing"
    ensures "billingGroupName" in req.params <==> Truthy(billingGroupName)
    ensures req.params - {"billingGroupName"} ==
              map["thingName" := VStr(thingName), "thingTypeName" := thingTypeName, "attributePayload" := attributes]
    ensures Truthy(billingGroupName) ==> req.params["billingGroupName"] == billingGroupName
  {
    var common := map["thingName" := VStr(thingName), "thingTypeName" := thingTypeName,
                      "attributePayload" := attributes];
    if Truthy(billingGroupName) then
      Request("create_thing", common["billingGroupName" := billingGroupName])
    else
      Request("create_thing", common)
  }

  function DeleteThingRequest(thingName: string): (req: Request)
    ensures req.operation == "delete_thing" && req.params == map["thingName" := VStr(thingName)]
  {
    Request("delete_thing", map["thingName" := VStr(thingName)])
  }

  /** One IoT thing. `creation_response` exists only once create_thing has answered. */
  class IotThing {
    var creationResponse: Option<Dict>

    constructor()
      ensures creationResponse == None
    {
      creationResponse := None;
    }

    /** Creates the thing and records the SDK's response; an SDK exception
        passes through and nothing is recorded. */
    method CreateThing(thingName: string, thingTypeName: Value, attributes: Value, billingGroupName: Value,
                       client: Client) returns (r: Result<Dict>)
      modifies this
      ensures var out := client(CreateThingRequest(thingName, thingTypeName, attributes, billingGroupName));
              && (out.Raised? ==> r == Err(SdkFault(out.fault)) && creationResponse == old(creationResponse))
              && (out.Answered? ==> r == Ok(out.response) && creationResponse == Some(out.response))
    {
      var out := client(CreateThingRequest(thingName, thingTypeName, attributes, billingGroupName));
      if out.Raised? {
        return Err(SdkFault(out.fault));
      }
      creationResponse := Some(out.response);
      return Ok(out.response);
    }

    /** Deletes the thing; the response is returned as is. */
    method DeleteThing(thingName: string, client: Client) returns (r: Result<Dict>)
      ensures var out := client(DeleteThingRequest(thingName));
              && (out.Raised? ==> r == Err(SdkFault(out.fault)))
              && (out.Answered? ==> r == Ok(out.response))
    {
      r := Call(client, DeleteThingRequest(thingName));
    }
  }

  /** `list.remove(x)`: the sequence without the first occurrence of x. */
  function RemoveFirst(s: seq<string>, x: string): (r: seq<string>)
    requires x in s
    ensures |r| == |s| - 1
    ensures multiset(r) == multiset(s) - multiset{x}
    ensures var i := FirstIndex(s, x); r[..i] == s[..i] && r[i..] == s[i + 1..]
  {
    var i := FirstIndex(s, x);
    assert s == s[..i] + [x] + s[i + 1..];
    s[..i] + s[i + 1..]
  }

  /** Removing the only occurrence of a name takes it out of the name set; removing
      one of several leaves it in. */
  lemma RemoveFirstElems(s: seq<string>, x: string)
    requires x in s
    ensures multiset(s)[x] == 1 ==> Elems(RemoveFirst(s, x)) == Elems(s) - {x}
    ensures multiset(s)[x] > 1 ==> Elems(RemoveFirst(s, x)) == Elems(s)
  {
    var r := RemoveFirst(s, x);
    forall y ensures y in Elems(r) <==> y in multiset(r) {
    }
    forall y ensures y in Elems(s) <==> y in multiset(s) {
    }
  }

  /** The ledger of the things created through it. */
  class AllThings {
    var thingsList: seq<string>
    var thingsObjs: map<string, IotThing>

    constructor()
      ensures thingsList == [] && thingsObjs == map[]
    {
      thingsList := [];
      thingsObjs := map[];
    }

    /** The list and the dict name the same things. */
    ghost predicate InStep()
      reads this
    {
      Elems(thingsList) == thingsObjs.Keys
    }

    /** Creates a thing through a new thing object; on an answer, appends the
        name to the list and maps it to the object (replacing any earlier one),
        then returns the response unchanged. */
    method CreateThing(thingName: string, thingTypeName: Value, attributes: Value, billingGroupName: Value,
                       client: Client) returns (r: Result<Dict>)
      modifies this
      ensures var out := client(CreateThingRequest(thingName, thingTypeName, attributes, billingGroupName));
              && (out.Raised? ==> r == Err(SdkFault(out.fault))
                                  && thingsList == old(thingsList) && thingsObjs == old(thingsObjs))
              && (out.Answered? ==> && r == Ok(out.response)
                                    && thingsList == old(thingsList) + [thingName]
                                    && thingsObjs.Keys == old(thingsObjs).Keys + {thingName}
                                    && fresh(thingsObjs[thingName])
                                    && thingsObjs[thingName].creationResponse == Some(out.response)
                                    && forall n :: n in old(thingsObjs) && n != thingName ==>
                                                     thingsObjs[n] == old(thingsObjs)[n])
      ensures old(InStep()) ==> InStep()
    {
      var thing := new IotThing();
      r := thing.CreateThing(thingName, thingTypeName, attributes, billingGroupName, client);
      if r.Err? {
        return;
      }
      thingsList := thingsList + [thingName];
      thingsObjs := thingsObjs[thingName := thing];
      assert Elems(thingsList) == Elems(old(thingsList)) + {thingName};
    }

    /** Deletes a recorded thing: the dict lookup comes first (an unknown name
        fails before anything changes), then the SDK call, then the first
        occurrence of the name leaves the list and its key leaves the dict. */
    method DeleteThing(thingName: string, client: Client) returns (r: Result<Dict>)
      modifies this
      ensures thingName !in old(thingsObjs) ==>
                r == Err(LookupFailed) && thingsList == old(thingsList) && thingsObjs == old(thingsObjs)
      ensures var out := client(DeleteThingRequest(thingName));
              thingName in old(thingsObjs) ==>
                && (out.Raised? ==> r == Err(SdkFault(out.fault))
                                    && thingsList == old(thingsList) && thingsObjs == old(thingsObjs))
                && (out.Answered? && thingName in old(thingsList) ==>
                      && r == Ok(out.response)
                      && thingsList == RemoveFirst(old(thingsList), thingName)
                      && thingsObjs == old(thingsObjs) - {thingName})
                && (out.Answered? && thingName !in old(thingsList) ==>
                      r == Err(NotInList) && thingsList == old(thingsList) && thingsObjs == old(thingsObjs))
      ensures old(InStep()) && multiset(old(thingsList))[thingName] <= 1 ==> InStep()
      ensures old(InStep()) && multiset(old(thingsList))[thingName] > 1 && r.Ok? ==> !InStep()
    {
      if thingName !in thingsObjs {
        return Err(LookupFailed);
      }
      r := thingsObjs[thingName].DeleteThing(thingName, client);
      if r.Err? {
        return;
      }
      if thingName !in thingsList {
        // list.remove raises ValueError; the dict entry stays.
        return Err(NotInList);
      }
      RemoveFirstElems(thingsList, thingName);
      thingsList := RemoveFirst(thingsList, thingName);
      thingsObjs := thingsObjs - {thingName};
    }

    /** `list_all_things`: the thingName of every entry of 'things', in order. */
    method ListAllThings(client: Client) returns (r: Result<(seq<Value>, Dict)>)
      ensures var out := client(Request("list_things", map[]));
              && (out.Raised? ==> r == Err(SdkFault(out.fault)))
              && (out.Answered? ==>
                    && (r.Ok? <==> && "things" in out.response && out.response["things"].VList?
                                   && forall i :: 0 <= i < |out.response["things"].items| ==>
                                                    HasField(out.response["things"].items[i], "thingName"))
                    && (r.Ok? ==> Aligned(r.value.0, out.response["things"].items, "thingName")
                                  && r.value.1 == out.response)
                    && (r.Err? ==> r.failure == LookupFailed))
    {
      var resp :- Call(client, Request("list_things", map[]));
      var things :- Get(resp, "things");
      var items :- Elements(things);
      var names := NamesOf(items, "thingName");
      if names.Err? {
        return Err(names.failure);
      }
      return Ok((names.value, resp));
    }
  }

  /** The thing-type operations; only the name listing has logic of its own. */
  class IotThingType {
    constructor()
    {
    }

    /** `list_all_thing_types`: the thingTypeName of every entry of 'thingTypes', in order. */
    method ListAllThingTypes(client: Client) returns (r: Result<(seq<Value>, Dict)>)
      ensures var out := client(Request("list_thing_types", map[]));
              && (out.Raised? ==> r == Err(SdkFault(out.fault)))
              && (out.Answered? ==>
                    && (r.Ok? <==> && "thingTypes" in out.response && out.response["thingTypes"].VList?
                                   && forall i :: 0 <= i < |out.response["thingTypes"].items| ==>
                                                    HasField(out.response["thingTypes"].items[i], "thingTypeName"))
                    && (r.Ok? ==> Aligned(r.value.0, out.response["thingTypes"].items, "thingTypeName")
                                  && r.value.1 == out.response)
                    && (r.Err? ==> r.failure == LookupFailed))
    {
      var resp :- Call(client, Request("list_thing_types", map[]));
      var types :- Get(resp, "thingTypes");
      var items :- Elements(types);
      var names := NamesOf(items, "thingTypeName");
      if names.Err? {
        return Err(names.failure);
      }
      return Ok((names.value, resp));
    }

    /** `get_thing_type_properties`: the thing types listed under the given name,
        read from the answer's 'thingTypes' with no status check. */
    function GetThingTypeProperties(thingTypeName: Value, client: Client): (r: Result<Value>)
      ensures var out := client(Request("list_thing_types", map["thingTypeName" := thingTypeName]));
              && (out.Raised? ==> r == Err(SdkFault(out.fault)))
              && (out.Answered? ==>
                    && (r.Ok? <==> "thingTypes" in out.response)
                    && (r.Ok? ==> r.value == out.response["thingTypes"])
                    && (r.Err? ==> r.failure == LookupFailed))
    {
      var resp :- Call(client, Request("list_thing_types", map["thingTypeName" := thingTypeName]));
      Get(resp, "thingTypes")
    }
  }

  /** The module's own copy of the status check; it agrees with the shared one. */
  function CheckResponseStatus(resp: Dict): (r: Result<AwsCommon.Status>)
    ensures r == AwsCommon.CheckResponseStatus(resp)
    ensures r.Ok? ==> (r.value.ok <==> r.value.code == VInt(200))
  {
    var meta :- Get(resp, "ResponseMetadata");
    var code :- Subscript(meta, "HTTPStatusCode");
    Ok(AwsCommon.Status(code == VInt(200), code))
  }
}
