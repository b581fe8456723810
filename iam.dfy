/** The IAM wrappers: roles and policies. Each operation sends one request (two
    for the policy lookup) and turns the SDK's answer into a return value or a
    failure. The policy operations are modelled twice: as written, where every
    call dies on a keyword argument the status check does not accept, and as
    evidently intended, with the status check enforced: a status other than 200
    raises. */
module Iam {
  import opened Values
  import opened Sdk
  import opened AwsCommon
  import opened ErrorCodes
  import opened Listing

  // ---------------------------------------------------------------- roles

  /** The create_role request: `MaxSessionDuration` is sent as None when the
      argument is falsy (0, None, ...) and as the argument otherwise. */
  function CreateRoleRequest(roleName: Value, trustPolicy: Value, path: Value, description: Value,
                             maxSessionDuration: Value, tags: Value): (req: Request)
    ensures req.operation == "create_role"
    ensures req.params.Keys == {"RoleName", "AssumeRolePolicyDocument", "Path", "Description",
                                "MaxSessionDuration", "Tags"}
    ensures req.params["RoleName"] == roleName && req.params["AssumeRolePolicyDocument"] == trustPolicy
    ensures req.params["Path"] == path && req.params["Description"] == description
    ensures req.params["Tags"] == tags
    ensures !Truthy(maxSessionDuration) ==> req.params["MaxSessionDuration"] == VNone
    ensures Truthy(maxSessionDuration) ==> req.params["MaxSessionDuration"] == maxSessionDuration
  {
    Request("create_role", map[
      "RoleName" := roleName,
      "AssumeRolePolicyDocument" := trustPolicy,
      "Path" := path,
      "Description" := description,
      "MaxSessionDuration" := if Truthy(maxSessionDuration) then maxSessionDuration else VNone,
      "Tags" := tags])
  }

  /** `create_role`: (role ARN, response) on status 200; (False, the "already
      exists" error record) when the role exists, without looking at any status. */
  function CreateRole(roleName: Value, trustPolicy: Value, path: Value, description: Value,
                      maxSessionDuration: Value, tags: Value, client: Client): (r: Result<(Value, Dict)>)
    ensures var out := client(CreateRoleRequest(roleName, trustPolicy, path, description, maxSessionDuration, tags));
            out == Raised(ClientError(ENTITY_ALREADY_EXISTS)) ==>
              r == Ok((VBool(false), ConstructResponse(AWS_IAM_ROLE_ALREADY_EXISTS)))
    ensures var out := client(CreateRoleRequest(roleName, trustPolicy, path, description, maxSessionDuration, tags));
            out.Raised? && out.fault != ClientError(ENTITY_ALREADY_EXISTS) ==> r == Err(SdkFault(out.fault))
    ensures var out := client(CreateRoleRequest(roleName, trustPolicy, path, description, maxSessionDuration, tags));
            out.Answered? ==>
              && (r.Ok? <==> Succeeded(out.response) && "Role" in out.response && HasField(out.response["Role"], "Arn"))
              && (r.Ok? ==> r.value == (out.response["Role"].entries["Arn"], out.response))
              && (FailedStatus(out.response) ==> r == Err(Defect))
  {
    match client(CreateRoleRequest(roleName, trustPolicy, path, description, maxSessionDuration, tags))
    case Raised(fault) =>
      if fault == ClientError(ENTITY_ALREADY_EXISTS) then
        Ok((VBool(false), ConstructResponse(AWS_IAM_ROLE_ALREADY_EXISTS)))
      else Err(SdkFault(fault))
    case Answered(resp) =>
      var _ :- RequireSuccess(resp);
      var role :- Get(resp, "Role");
      var arn :- Subscript(role, "Arn");
      Ok((arn, resp))
  }

  function ListRolesRequest(pathPrefix: Value): (req: Request)
    ensures req.operation == "list_roles" && req.params == map["PathPrefix" := pathPrefix]
  {
    Request("list_roles", map["PathPrefix" := pathPrefix])
  }

  /** The role records of a list_roles response. */
  function RoleRecords(resp: Dict): (r: Result<seq<Value>>)
    ensures r.Ok? <==> "Roles" in resp && resp["Roles"].VList?
    ensures r.Ok? ==> r.value == resp["Roles"].items
    ensures r.Err? ==> r.failure == LookupFailed
  {
    var roles :- Get(resp, "Roles");
    Elements(roles)
  }

  /** `list_roles`: on status 200, the role names (each once, in order of first
      occurrence), the dict from each name to its last record, and the response
      with exactly its metadata removed. Only the first page is read. */
  function ListRoles(pathPrefix: Value, client: Client): (r: Result<(seq<Value>, map<Value, Value>, Dict)>)
    ensures var out := client(ListRolesRequest(pathPrefix));
            out.Raised? ==> r == Err(SdkFault(out.fault))
    ensures var out := client(ListRolesRequest(pathPrefix));
            out.Answered? && FailedStatus(out.response) ==> r == Err(Defect)
    ensures var out := client(ListRolesRequest(pathPrefix));
            r.Ok? <==> && out.Answered? && Succeeded(out.response) && RoleRecords(out.response).Ok?
                       && KeyNames(RoleRecords(out.response).value, "RoleName").Ok?
    ensures var out := client(ListRolesRequest(pathPrefix));
            r.Ok? ==> && out.Answered?
                      && var records := RoleRecords(out.response).value;
                         && IsDictOf(KeyNames(records, "RoleName").value, records, r.value.0, r.value.1)
                         && r.value.2 == out.response - {"ResponseMetadata"}
  {
    var resp :- Call(client, ListRolesRequest(pathPrefix));
    var _ :- RequireSuccess(resp);
    var records :- RoleRecords(resp);
    var names :- KeyNames(records, "RoleName");
    DictFromPairs(names, records);
    Ok((FirstOccurrences(names), LastWins(names, records), resp - {"ResponseMetadata"}))
  }

  /** Every role of the listing appears in the name list and maps to a record
      carrying that name. */
  lemma ListRolesNamesItsRecords(pathPrefix: Value, client: Client, i: nat)
    requires ListRoles(pathPrefix, client).Ok?
    requires i < |RoleRecords(client(ListRolesRequest(pathPrefix)).response).value|
    ensures var records := RoleRecords(client(ListRolesRequest(pathPrefix)).response).value;
            var (names, byName, _) := ListRoles(pathPrefix, client).value;
            && HasField(records[i], "RoleName")
            && var name := records[i].entries["RoleName"];
               && name in names && name in byName
               && HasField(byName[name], "RoleName") && byName[name].entries["RoleName"] == name
  {
    var records := RoleRecords(client(ListRolesRequest(pathPrefix)).response).value;
    var keys := KeyNames(records, "RoleName").value;
    var (names, byName, _) := ListRoles(pathPrefix, client).value;
    assert keys[i] in names;
    var last := LastIndex(keys, keys[i]);
    assert byName[keys[i]] == records[last];
  }

  function DeleteRoleRequest(roleName: Value): (req: Request)
    ensures req.operation == "delete_role" && req.params == map["RoleName" := roleName]
  {
    Request("delete_role", map["RoleName" := roleName])
  }

  /** `delete_role`: (True, the "no error" record) on status 200, (False, the
      "does not exist" record) when there is no such role. */
  function DeleteRole(roleName: Value, client: Client): (r: Result<(bool, Dict)>)
    ensures var out := client(DeleteRoleRequest(roleName));
            out == Raised(ClientError(NO_SUCH_ENTITY)) ==>
              r == Ok((false, ConstructResponse(AWS_IAM_ROLE_DOES_NOT_EXIST)))
    ensures var out := client(DeleteRoleRequest(roleName));
            out.Raised? && out.fault != ClientError(NO_SUCH_ENTITY) ==> r == Err(SdkFault(out.fault))
    ensures var out := client(DeleteRoleRequest(roleName));
            out.Answered? ==>
              && (Succeeded(out.response) ==> r == Ok((true, ConstructResponse(AWS_NO_ERROR))))
              && (FailedStatus(out.response) ==> r == Err(Defect))
              && (r.Ok? <==> Succeeded(out.response))
  {
    match client(DeleteRoleRequest(roleName))
    case Raised(fault) =>
      if fault == ClientError(NO_SUCH_ENTITY) then
        Ok((false, ConstructResponse(AWS_IAM_ROLE_DOES_NOT_EXIST)))
      else Err(SdkFault(fault))
    case Answered(resp) =>
      var _ :- RequireSuccess(resp);
      Ok((true, ConstructResponse(AWS_NO_ERROR)))
  }

  /** Whatever happens, a returned record says "Error": True; only its code tells
      success (0) from a missing role (2). */
  lemma DeleteRoleRecordAlwaysFlagsError(roleName: Value, client: Client)
    requires DeleteRole(roleName, client).Ok?
    ensures var (deleted, record) := DeleteRole(roleName, client).value;
            && record["Error"] == VBool(true)
            && (deleted <==> record["Error Code"] == VInt(AWS_NO_ERROR))
            && (!deleted <==> record["Error message"] == VStr("AWS IAM Role Does Not Exist"))
  {
    var (deleted, record) := DeleteRole(roleName, client).value;
    if deleted {
      assert record["Error message"] == VStr("No error");
    }
  }

  function GetRoleRequest(roleName: Value): (req: Request)
    ensures req.operation == "get_role" && req.params == map["RoleName" := roleName]
  {
    Request("get_role", map["RoleName" := roleName])
  }

  /** `get_role_arn`: (role ARN, full response) on status 200. */
  function GetRoleArn(roleName: Value, client: Client): (r: Result<(Value, Dict)>)
    ensures var out := client(GetRoleRequest(roleName));
            out.Raised? ==> r == Err(SdkFault(out.fault))
    ensures var out := client(GetRoleRequest(roleName));
            out.Answered? ==>
              && (r.Ok? <==> Succeeded(out.response) && "Role" in out.response && HasField(out.response["Role"], "Arn"))
              && (r.Ok? ==> r.value == (out.response["Role"].entries["Arn"], out.response))
              && (FailedStatus(out.response) ==> r == Err(Defect))
  {
    var resp :- Call(client, GetRoleRequest(roleName));
    var _ :- RequireSuccess(resp);
    var role :- Get(resp, "Role");
    var arn :- Subscript(role, "Arn");
    Ok((arn, resp))
  }

  // ---------------------------------------------------------------- policies

  function CreatePolicyRequest(policyName: Value, policyDocument: Value, path: Value, description: Value): (req: Request)
    ensures req.operation == "create_policy"
    ensures req.params == map["PolicyName" := policyName, "PolicyDocument" := policyDocument,
                              "Path" := path, "Description" := description]
  {
    Request("create_policy", map["PolicyName" := policyName, "PolicyDocument" := policyDocument,
                                 "Path" := path, "Description" := description])
  }

  /** `create_policy` as written: an answered call dies in the status check's
      unknown keyword, and the "already exists" handler reads an undefined error
      code; only an SDK exception other than EntityAlreadyExists gets through. */
  function CreatePolicy(policyName: Value, policyDocument: Value, path: Value, description: Value,
                        client: Client): (r: Result<(Value, Dict)>)
    ensures r.Err?
    ensures var out := client(CreatePolicyRequest(policyName, policyDocument, path, description));
            r.failure == if out.Raised? && out.fault != ClientError(ENTITY_ALREADY_EXISTS)
                         then SdkFault(out.fault) else Defect
  {
    match client(CreatePolicyRequest(policyName, policyDocument, path, description))
    case Raised(fault) =>
      if fault == ClientError(ENTITY_ALREADY_EXISTS) then Err(Defect) else Err(SdkFault(fault))
    case Answered(_) => Err(Defect)
  }

  /** `create_policy` with the status check enforced (a status other than 200
      raises): (policy ARN, response) on status 200. The "already exists" error
      code is still undefined. */
  function CreatePolicyChecked(policyName: Value, policyDocument: Value, path: Value, description: Value,
                               client: Client): (r: Result<(Value, Dict)>)
    ensures var out := client(CreatePolicyRequest(policyName, policyDocument, path, description));
            out.Raised? ==>
              r == Err(if out.fault == ClientError(ENTITY_ALREADY_EXISTS) then Defect else SdkFault(out.fault))
    ensures var out := client(CreatePolicyRequest(policyName, policyDocument, path, description));
            out.Answered? ==>
              && (r.Ok? <==> Succeeded(out.response) && "Policy" in out.response && HasField(out.response["Policy"], "Arn"))
              && (r.Ok? ==> r.value == (out.response["Policy"].entries["Arn"], out.response))
              && (FailedStatus(out.response) ==> r == Err(Defect))
  {
    match client(CreatePolicyRequest(policyName, policyDocument, path, description))
    case Raised(fault) =>
      if fault == ClientError(ENTITY_ALREADY_EXISTS) then Err(Defect) else Err(SdkFault(fault))
    case Answered(resp) =>
      var _ :- RequireSuccess(resp);
      var policy :- Get(resp, "Policy");
      var arn :- Subscript(policy, "Arn");
      Ok((arn, resp))
  }

  function DeletePolicyRequest(policyArn: Value): (req: Request)
    ensures req.operation == "delete_policy" && req.params == map["PolicyArn" := policyArn]
  {
    Request("delete_policy", map["PolicyArn" := policyArn])
  }

  /** `delete_policy` as written: like create_policy, it never returns. */
  function DeletePolicy(policyArn: Value, client: Client): (r: Result<bool>)
    ensures r.Err?
    ensures var out := client(DeletePolicyRequest(policyArn));
            r.failure == if out.Raised? && out.fault != ClientError(NO_SUCH_ENTITY)
                         then SdkFault(out.fault) else Defect
  {
    match client(DeletePolicyRequest(policyArn))
    case Raised(fault) =>
      if fault == ClientError(NO_SUCH_ENTITY) then Err(Defect) else Err(SdkFault(fault))
    case Answered(_) => Err(Defect)
  }

  /** `delete_policy` with the status check enforced (a status other than 200
      raises): True on status 200. */
  function DeletePolicyChecked(policyArn: Value, client: Client): (r: Result<bool>)
    ensures var out := client(DeletePolicyRequest(policyArn));
            out.Raised? ==>
              r == Err(if out.fault == ClientError(NO_SUCH_ENTITY) then Defect else SdkFault(out.fault))
    ensures var out := client(DeletePolicyRequest(policyArn));
            out.Answered? ==>
              && (Succeeded(out.response) <==> r == Ok(true))
              && (FailedStatus(out.response) ==> r == Err(Defect))
    ensures r.Ok? ==> r.value
  {
    match client(DeletePolicyRequest(policyArn))
    case Raised(fault) =>
      if fault == ClientError(NO_SUCH_ENTITY) then Err(Defect) else Err(SdkFault(fault))
    case Answered(resp) =>
      var _ :- RequireSuccess(resp);
      Ok(true)
  }

  function ListPoliciesRequest(scope: Value, onlyAttached: Value, pathPrefix: Value, usageFilter: Value): (req: Request)
    ensures req.operation == "list_policies"
    ensures req.params == map["Scope" := scope, "OnlyAttached" := onlyAttached,
                              "PathPrefix" := pathPrefix, "PolicyUsageFilter" := usageFilter]
  {
    Request("list_policies", map["Scope" := scope, "OnlyAttached" := onlyAttached,
                                 "PathPrefix" := pathPrefix, "PolicyUsageFilter" := usageFilter])
  }

  /** `list_policies` as written: the call is made, and then the status check's
      unknown keyword raises whatever the answer. */
  function ListPolicies(scope: Value, onlyAttached: Value, pathPrefix: Value, usageFilter: Value,
                        client: Client): (r: Result<(seq<Value>, map<Value, Value>, Dict)>)
    ensures r.Err?
    ensures var out := client(ListPoliciesRequest(scope, onlyAttached, pathPrefix, usageFilter));
            r.failure == if out.Raised? then SdkFault(out.fault) else Defect
  {
    var _ :- Call(client, ListPoliciesRequest(scope, onlyAttached, pathPrefix, usageFilter));
    Err(Defect)
  }

  /** The policy records of a list_policies response. */
  function PolicyRecords(resp: Dict): (r: Result<seq<Value>>)
    ensures r.Ok? <==> "Policies" in resp && resp["Policies"].VList?
    ensures r.Ok? ==> r.value == resp["Policies"].items
    ensures r.Err? ==> r.failure == LookupFailed
  {
    var policies :- Get(resp, "Policies");
    Elements(policies)
  }

  /** `list_policies` with the status check enforced (a status other than 200
      raises): on status 200, the policy names in response order with duplicates
      kept, the dict from each name to the Arn of its last record, and the full
      response. `IsTruncated` must be present
      but its value changes nothing (it is only logged). */
  function ListPoliciesChecked(scope: Value, onlyAttached: Value, pathPrefix: Value, usageFilter: Value,
                               client: Client): (r: Result<(seq<Value>, map<Value, Value>, Dict)>)
    ensures var out := client(ListPoliciesRequest(scope, onlyAttached, pathPrefix, usageFilter));
            out.Raised? ==> r == Err(SdkFault(out.fault))
    ensures var out := client(ListPoliciesRequest(scope, onlyAttached, pathPrefix, usageFilter));
            out.Answered? && FailedStatus(out.response) ==> r == Err(Defect)
    ensures var out := client(ListPoliciesRequest(scope, onlyAttached, pathPrefix, usageFilter));
            r.Ok? <==> && out.Answered? && Succeeded(out.response) && "IsTruncated" in out.response
                       && PolicyRecords(out.response).Ok?
                       && KeyNames(PolicyRecords(out.response).value, "PolicyName").Ok?
                       && Pluck(PolicyRecords(out.response).value, "Arn").Ok?
    ensures var out := client(ListPoliciesRequest(scope, onlyAttached, pathPrefix, usageFilter));
            r.Ok? ==> && out.Answered?
                      && var records := PolicyRecords(out.response).value;
                         && Aligned(r.value.0, records, "PolicyName")
                         && IsLastWins(r.value.0, Pluck(records, "Arn").value, r.value.1)
                         && r.value.2 == out.response
  {
    var resp :- Call(client, ListPoliciesRequest(scope, onlyAttached, pathPrefix, usageFilter));
    var _ :- RequireSuccess(resp);
    var _ :- Get(resp, "IsTruncated");
    var records :- PolicyRecords(resp);
    var names :- KeyNames(records, "PolicyName");
    var arns :- Pluck(records, "Arn");
    LastWinsSpec(names, arns);
    Ok((names, LastWins(names, arns), resp))
  }

  /** A policy named in the listing maps to the Arn of the last policy record
      carrying that name. */
  lemma {:induction false} ListedPolicyArn(scope: Value, onlyAttached: Value, pathPrefix: Value, usageFilter: Value,
                                           client: Client, name: Value)
    requires ListPoliciesChecked(scope, onlyAttached, pathPrefix, usageFilter, client).Ok?
    requires name in ListPoliciesChecked(scope, onlyAttached, pathPrefix, usageFilter, client).value.0
    ensures var records := PolicyRecords(client(ListPoliciesRequest(scope, onlyAttached, pathPrefix, usageFilter)).response).value;
            var (names, arns, _) := ListPoliciesChecked(scope, onlyAttached, pathPrefix, usageFilter, client).value;
            var k := LastIndex(names, name);
            && name in arns
            && HasField(records[k], "PolicyName") && records[k].entries["PolicyName"] == name
            && HasField(records[k], "Arn") && arns[name] == records[k].entries["Arn"]
            && forall j :: k < j < |records| ==> records[j].entries["PolicyName"] != name
  {
    var records := PolicyRecords(client(ListPoliciesRequest(scope, onlyAttached, pathPrefix, usageFilter)).response).value;
    var (names, arns, _) := ListPoliciesChecked(scope, onlyAttached, pathPrefix, usageFilter, client).value;
    var k := LastIndex(names, name);
    assert names[k] == name;
  }

  /** The two listings `get_policy_arn` consults, in order. */
  function PermissionsPolicyRequest(): Request {
    ListPoliciesRequest(VStr("All"), VBool(false), VStr("/"), VStr("PermissionsPolicy"))
  }

  function PermissionsBoundaryRequest(): Request {
    ListPoliciesRequest(VStr("All"), VBool(false), VStr("/"), VStr("PermissionsBoundary"))
  }

  /** `get_policy_arn` as written: its first listing never returns. */
  function GetPolicyArn(policyName: Value, client: Client): (r: Result<Value>)
    ensures r.Err?
    ensures var out := client(PermissionsPolicyRequest());
            r.failure == if out.Raised? then SdkFault(out.fault) else Defect
  {
    // The first listing fails, so the lookup fails with it.
    Err(ListPolicies(VStr("All"), VBool(false), VStr("/"), VStr("PermissionsPolicy"), client).failure)
  }

  function PermissionsListing(client: Client): Result<(seq<Value>, map<Value, Value>, Dict)> {
    ListPoliciesChecked(VStr("All"), VBool(false), VStr("/"), VStr("PermissionsPolicy"), client)
  }

  function BoundaryListing(client: Client): Result<(seq<Value>, map<Value, Value>, Dict)> {
    ListPoliciesChecked(VStr("All"), VBool(false), VStr("/"), VStr("PermissionsBoundary"), client)
  }

  /** `get_policy_arn` over the corrected listing: the ARN from the
      PermissionsPolicy listing if the name is there, else from the
      PermissionsBoundary listing, else False; a failed listing fails the lookup. */
  function GetPolicyArnChecked(policyName: Value, client: Client): (r: Result<Value>)
    ensures PermissionsListing(client).Err? ==> r == Err(PermissionsListing(client).failure)
    ensures PermissionsListing(client).Ok? && policyName in PermissionsListing(client).value.0 ==>
              policyName in PermissionsListing(client).value.1
              && r == Ok(PermissionsListing(client).value.1[policyName])
    ensures PermissionsListing(client).Ok? && policyName !in PermissionsListing(client).value.0 ==>
              && (BoundaryListing(client).Err? ==> r == Err(BoundaryListing(client).failure))
              && (BoundaryListing(client).Ok? && policyName in BoundaryListing(client).value.0 ==>
                    policyName in BoundaryListing(client).value.1
                    && r == Ok(BoundaryListing(client).value.1[policyName]))
              && (BoundaryListing(client).Ok? && policyName !in BoundaryListing(client).value.0 ==>
                    r == Ok(VBool(false)))
  {
    var (names, arns, _) :- PermissionsListing(client);
    if policyName in names then
      assert policyName in arns by { LastWinsSpec(names, Pluck(PolicyRecords(client(PermissionsPolicyRequest()).response).value, "Arn").value); }
      Ok(arns[policyName])
    else
      var (boundaryNames, boundaryArns, _) :- BoundaryListing(client);
      if policyName in boundaryNames then
        assert policyName in boundaryArns;
        Ok(boundaryArns[policyName])
      else Ok(VBool(false))
  }

  /** The boundary listing is consulted only for a name the permissions listing
      lacks: a name found in the first listing gets its ARN from there even when
      the second listing would fail. */
  lemma PermissionsListingDecides(policyName: Value, client: Client, other: Client)
    requires client(PermissionsPolicyRequest()) == other(PermissionsPolicyRequest())
    requires PermissionsListing(client).Ok? && policyName in PermissionsListing(client).value.0
    ensures GetPolicyArnChecked(policyName, client) == GetPolicyArnChecked(policyName, other)
  {
  }

  // ---------------------------------------------------------------- stubs

  /** `attach_managed_policy_to_role`: raises an exception class that is not defined. */
  function AttachManagedPolicyToRole(): (r: Result<()>)
    ensures r == Err(Defect)
  {
    Err(Defect)
  }

  /** `attach_inline_policy_to_role`: likewise. */
  function AttachInlinePolicyToRole(): (r: Result<()>)
    ensures r == Err(Defect)
  {
    Err(Defect)
  }
}
