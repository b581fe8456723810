/** The DynamoDB wrappers: the create_table request built from a primary and an
    optional secondary key, and the parts of each response that are returned. */
module DynamoDb {
  import opened Values
  import opened Sdk
  import opened AwsCommon

  /** An entry of KeySchema or AttributeDefinitions for the secondary key, or the
      empty dict standing in for it when there is no secondary key. */
  function SecondaryEntry(secondaryKey: Value, field: string, kind: string): (e: Value)
    ensures Truthy(secondaryKey) ==> e == VDict(map["AttributeName" := secondaryKey, field := VStr(kind)])
    ensures !Truthy(secondaryKey) ==> e == VDict(map[])
  {
    if Truthy(secondaryKey) then VDict(map["AttributeName" := secondaryKey, field := VStr(kind)])
    else VDict(map[])
  }

  /** The create_table request. The table schema, the other attributes and the
      region are not parameters: the source never uses them. */
  function CreateTableRequest(tableName: Value, primaryKey: Value, secondaryKey: Value, billingMode: Value): (req: Request)
    ensures req.operation == "create_table"
    ensures req.params.Keys == {"TableName", "KeySchema", "AttributeDefinitions", "BillingMode"}
    ensures req.params["TableName"] == tableName && req.params["BillingMode"] == billingMode
    ensures req.params["KeySchema"] == VList([
              VDict(map["AttributeName" := primaryKey, "KeyType" := VStr("HASH")]),
              SecondaryEntry(secondaryKey, "KeyType", "RANGE")])
    ensures req.params["AttributeDefinitions"] == VList([
              VDict(map["AttributeName" := primaryKey, "AttributeType" := VStr("S")]),
              SecondaryEntry(secondaryKey, "AttributeType", "N")])
  {
    Request("create_table", map[
      "TableName" := tableName,
      "KeySchema" := VList([
        VDict(map["AttributeName" := primaryKey, "KeyType" := VStr("HASH")]),
        SecondaryEntry(secondaryKey, "KeyType", "RANGE")]),
      "AttributeDefinitions" := VList([
        VDict(map["AttributeName" := primaryKey, "AttributeType" := VStr("S")]),
        SecondaryEntry(secondaryKey, "AttributeType", "N")]),
      "BillingMode" := billingMode])
  }

  /** Both key lists always have two entries: the primary key first (HASH, type
      S), then the secondary key (RANGE, type N) or, without one, an empty dict. */
  lemma KeyListsHaveTwoEntries(tableName: Value, primaryKey: Value, secondaryKey: Value, billingMode: Value)
    ensures var p := CreateTableRequest(tableName, primaryKey, secondaryKey, billingMode).params;
            && |p["KeySchema"].items| == 2 && |p["AttributeDefinitions"].items| == 2
            && p["KeySchema"].items[0].entries["KeyType"] == VStr("HASH")
            && p["AttributeDefinitions"].items[0].entries["AttributeType"] == VStr("S")
            && (Truthy(secondaryKey) <==> p["KeySchema"].items[1] != VDict(map[]))
            && (Truthy(secondaryKey) <==> p["AttributeDefinitions"].items[1] != VDict(map[]))
            && (Truthy(secondaryKey) ==>
                  && p["KeySchema"].items[1].entries["KeyType"] == VStr("RANGE")
                  && p["AttributeDefinitions"].items[1].entries["AttributeType"] == VStr("N"))
  {
    var p := CreateTableRequest(tableName, primaryKey, secondaryKey, billingMode).params;
    if Truthy(secondaryKey) {
      assert "AttributeName" in p["KeySchema"].items[1].entries;
      assert "AttributeName" in p["AttributeDefinitions"].items[1].entries;
    }
  }

  /** `resp[outer][inner]`. */
  function Field2(resp: Dict, outer: string, inner: string): (r: Result<Value>)
    ensures r.Ok? <==> outer in resp && HasField(resp[outer], inner)
    ensures r.Ok? ==> r.value == resp[outer].entries[inner]
    ensures r.Err? ==> r.failure == LookupFailed
  {
    var o :- Get(resp, outer);
    Subscript(o, inner)
  }

  /** `create_table`: (TableArn, TableId, TableDescription) on status 200. The
      schema, the other attributes and the region do not change the request. */
  function CreateTable(tableName: Value, tableSchema: Value, primaryKey: Value, secondaryKey: Value,
                       billingMode: Value, otherAttributes: Value, region: string,
                       client: Client): (r: Result<(Value, Value, Value)>)
    ensures var out := client(CreateTableRequest(tableName, primaryKey, secondaryKey, billingMode));
            && (out.Raised? ==> r == Err(SdkFault(out.fault)))
            && (out.Answered? && FailedStatus(out.response) ==> r == Err(Defect))
            && (r.Ok? <==> && out.Answered? && Succeeded(out.response)
                           && Field2(out.response, "TableDescription", "TableArn").Ok?
                           && Field2(out.response, "TableDescription", "TableId").Ok?)
            && (r.Ok? ==> var d := out.response["TableDescription"];
                          r.value == (d.entries["TableArn"], d.entries["TableId"], d))
  {
    var resp :- Call(client, CreateTableRequest(tableName, primaryKey, secondaryKey, billingMode));
    var _ :- RequireSuccess(resp);
    var arn :- Field2(resp, "TableDescription", "TableArn");
    var id :- Field2(resp, "TableDescription", "TableId");
    Ok((arn, id, resp["TableDescription"]))
  }

  function DeleteTableRequest(tableName: Value): Request {
    Request("delete_table", map["TableName" := tableName])
  }

  /** `delete_table`: (the deleted table's name, its description) on status 200. */
  function DeleteTable(tableName: Value, region: string, client: Client): (r: Result<(Value, Value)>)
    ensures var out := client(DeleteTableRequest(tableName));
            && (out.Raised? ==> r == Err(SdkFault(out.fault)))
            && (out.Answered? && FailedStatus(out.response) ==> r == Err(Defect))
            && (r.Ok? <==> out.Answered? && Succeeded(out.response)
                           && Field2(out.response, "TableDescription", "TableName").Ok?)
            && (r.Ok? ==> var d := out.response["TableDescription"];
                          r.value == (d.entries["TableName"], d))
  {
    var resp :- Call(client, DeleteTableRequest(tableName));
    var _ :- RequireSuccess(resp);
    var name :- Field2(resp, "TableDescription", "TableName");
    Ok((name, resp["TableDescription"]))
  }

  /** `list_tables`: the 'TableNames' of the first page, as returned. */
  function ListTables(region: string, client: Client): (r: Result<Value>)
    ensures var out := client(Request("list_tables", map[]));
            && (out.Raised? ==> r == Err(SdkFault(out.fault)))
            && (out.Answered? && FailedStatus(out.response) ==> r == Err(Defect))
            && (r.Ok? <==> out.Answered? && Succeeded(out.response) && "TableNames" in out.response)
            && (r.Ok? ==> r.value == out.response["TableNames"])
  {
    var resp :- Call(client, Request("list_tables", map[]));
    var _ :- RequireSuccess(resp);
    Get(resp, "TableNames")
  }

  function DescribeTableRequest(tableName: Value): Request {
    Request("describe_table", map["TableName" := tableName])
  }

  /** `describe_table`: the response's 'Table'. */
  function DescribeTable(tableName: Value, region: string, client: Client): (r: Result<Value>)
    ensures var out := client(DescribeTableRequest(tableName));
            && (out.Raised? ==> r == Err(SdkFault(out.fault)))
            && (out.Answered? && FailedStatus(out.response) ==> r == Err(Defect))
            && (r.Ok? <==> out.Answered? && Succeeded(out.response) && "Table" in out.response)
            && (r.Ok? ==> r.value == out.response["Table"])
  {
    var resp :- Call(client, DescribeTableRequest(tableName));
    var _ :- RequireSuccess(resp);
    Get(resp, "Table")
  }
}
