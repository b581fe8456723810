/** The response classifier shared by the AWS wrappers. */
module AwsCommon {
  import opened Values

  /** What `check_response_status` returns: the verdict and the status code as found. */
  datatype Status = Status(ok: bool, code: Value)

  /** `resp['ResponseMetadata']['HTTPStatusCode']`, compared with 200. The `is`
      comparison of the source is integer equality for the status codes boto3 returns. */
  function CheckResponseStatus(resp: Dict): (r: Result<Status>)
    ensures r.Ok? <==> "ResponseMetadata" in resp && HasField(resp["ResponseMetadata"], "HTTPStatusCode")
    ensures r.Err? ==> r.failure == LookupFailed
    ensures r.Ok? ==> r.value.code == resp["ResponseMetadata"].entries["HTTPStatusCode"]
    ensures r.Ok? ==> (r.value.ok <==> r.value.code == VInt(200))
  {
    var meta :- Get(resp, "ResponseMetadata");
    var code :- Subscript(meta, "HTTPStatusCode");
    Ok(Status(code == VInt(200), code))
  }

  /** The response reports HTTP 200. */
  predicate Succeeded(resp: Dict) {
    CheckResponseStatus(resp) == Ok(Status(true, VInt(200)))
  }

  /** The response's metadata is readable and reports a status other than 200. */
  predicate FailedStatus(resp: Dict) {
    CheckResponseStatus(resp).Ok? && !CheckResponseStatus(resp).value.ok
  }

  /** A response carrying the given status code. */
  function WithStatus(payload: Dict, code: int): Dict {
    payload["ResponseMetadata" := VDict(map["HTTPStatusCode" := VInt(code)])]
  }

  /** Exactly status 200 counts as success; 204 and every other 2xx code do not. */
  lemma OnlyTwoHundredSucceeds(payload: Dict, code: int)
    ensures CheckResponseStatus(WithStatus(payload, code)) == Ok(Status(code == 200, VInt(code)))
    ensures Succeeded(WithStatus(payload, code)) <==> code == 200
  {
  }

  /** Every readable status is either a success or a failure, never both. */
  lemma SuccessOrFailure(resp: Dict)
    requires CheckResponseStatus(resp).Ok?
    ensures Succeeded(resp) != FailedStatus(resp)
  {
  }

  /** The status check followed by `raise AWS_API_CallFailed` when it fails. That
      exception class is not defined, so the raise itself fails: a generic defect. */
  function RequireSuccess(resp: Dict): (r: Result<Dict>)
    ensures r.Ok? <==> Succeeded(resp)
    ensures r.Ok? ==> r.value == resp
    ensures FailedStatus(resp) ==> r == Err(Defect)
    ensures CheckResponseStatus(resp).Err? ==> r == Err(LookupFailed)
  {
    var status :- CheckResponseStatus(resp);
    if status.ok then Ok(resp) else Err(Defect)
  }
}
