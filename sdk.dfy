/** The cloud SDK as the library uses it: one request per call, answered by a
    response dictionary or by an exception. The SDK is not modelled; every
    operation receives it as a client function from requests to outcomes. */
module Sdk {
  import opened Values

  /** One SDK call: the client method's name and its keyword arguments. */
  datatype Request = Request(operation: string, params: Dict)

  /** What the SDK does with a request. */
  datatype Outcome = Answered(response: Dict) | Raised(fault: Fault)

  /** The SDK: any answer to any request. */
  type Client = Request -> Outcome

  /** Error codes of boto3's modelled IAM exceptions. */
  const ENTITY_ALREADY_EXISTS: string := "EntityAlreadyExists"
  const NO_SUCH_ENTITY: string := "NoSuchEntity"

  /** A call made outside any `try`: the response, or the SDK's exception passed on. */
  function Call(client: Client, req: Request): (r: Result<Dict>)
    ensures client(req).Answered? <==> r.Ok?
    ensures r.Ok? ==> r.value == client(req).response
    ensures r.Err? ==> r.failure == SdkFault(client(req).fault)
  {
    match client(req)
    case Answered(resp) => Ok(resp)
    case Raised(fault) => Err(SdkFault(fault))
  }
}
