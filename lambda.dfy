/** The Lambda wrappers: the function listing, read page by page with a status
    check on every page, and the description of one function. */
module Lambda {
  import opened Values
  import opened Sdk
  import opened AwsCommon
  import opened Listing

  /** One page of list_functions: its status must be 200; then the FunctionName
      of every function on it, and the functions. */
  function FunctionsPage(page: Dict): (r: Result<(seq<Value>, seq<Value>)>)
    ensures FailedStatus(page) ==> r == Err(Defect)
    ensures r.Ok? <==> && Succeeded(page) && "Functions" in page && page["Functions"].VList?
                       && Pluck(page["Functions"].items, "FunctionName").Ok?
    ensures r.Ok? ==> r.value.1 == page["Functions"].items && Aligned(r.value.0, r.value.1, "FunctionName")
  {
    var _ :- RequireSuccess(page);
    var functions :- Get(page, "Functions");
    var items :- Elements(functions);
    var names :- Pluck(items, "FunctionName");
    Ok((names, items))
  }

  /** `list_functions`: the names and the records of the functions of all pages,
      in page order. The region argument is not used. */
  method ListFunctions(region: string, pages: seq<Dict>) returns (r: Result<(seq<Value>, seq<Value>)>)
    ensures r == Paged(pages, FunctionsPage)
    ensures r.Ok? ==> Aligned(r.value.0, r.value.1, "FunctionName")
  {
    PagedAligned(pages, FunctionsPage, "FunctionName");
    var names: seq<Value> := [];
    var functions: seq<Value> := [];
    var k := 0;
    while k < |pages|
      invariant 0 <= k <= |pages|
      invariant Paged(pages[..k], FunctionsPage) == Ok((names, functions))
    {
      var page := ReadFunctionsPage(pages[k]);
      PagedExtend(pages, FunctionsPage, k, names, functions);
      if page.Err? {
        return Err(page.failure);
      }
      names := names + page.value.0;
      functions := functions + page.value.1;
      k := k + 1;
    }
    assert pages[..k] == pages;
    return Ok((names, functions));
  }

  /** The body of the page loop of `list_functions`: the status check, then the
      FunctionName of every function on the page. */
  method ReadFunctionsPage(page: Dict) returns (r: Result<(seq<Value>, seq<Value>)>)
    ensures r == FunctionsPage(page)
  {
    var status := CheckResponseStatus(page);
    if status.Err? {
      return Err(LookupFailed);
    }
    if !status.value.ok {
      // raise AWS_API_CallFailed, a name that is not defined
      return Err(Defect);
    }
    if "Functions" !in page || !page["Functions"].VList? {
      return Err(LookupFailed);
    }
    var items := page["Functions"].items;
    var names := NamesOf(items, "FunctionName");
    if names.Err? {
      return Err(names.failure);
    }
    return Ok((names.value, items));
  }

  /** A page with a status other than 200 spoils the whole listing: no partial
      result is returned. */
  lemma BadPageSpoilsListing(pages: seq<Dict>, i: nat)
    requires i < |pages| && FailedStatus(pages[i])
    ensures Paged(pages, FunctionsPage).Err?
  {
    assert pages[..i + 1][..i] == pages[..i] && pages[..i + 1][i] == pages[i];
    PagedErrPersists(pages, FunctionsPage, i + 1);
  }

  /** `get_function`: on status 200, the response without 'ResponseMetadata' and
      with every other key kept. */
  function GetFunction(funcName: Value, client: Client): (r: Result<Dict>)
    ensures var out := client(Request("get_function", map["FunctionName" := funcName]));
            && (out.Raised? ==> r == Err(SdkFault(out.fault)))
            && (out.Answered? && FailedStatus(out.response) ==> r == Err(Defect))
            && (r.Ok? <==> out.Answered? && Succeeded(out.response))
            && (r.Ok? ==> && r.value.Keys == out.response.Keys - {"ResponseMetadata"}
                          && forall k :: k in r.value ==> r.value[k] == out.response[k])
  {
    var resp :- Call(client, Request("get_function", map["FunctionName" := funcName]));
    var _ :- RequireSuccess(resp);
    Ok(resp - {"ResponseMetadata"})
  }
}
