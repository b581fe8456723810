/** Python values as the library sees them: the arguments it passes to the cloud SDK
    and the dictionaries the SDK answers with, and the ways reading them can fail. */
module Values {

  /** A Python value of the JSON-like kind boto3 requests and responses are made of. */
  datatype Value =
    | VNone
    | VBool(b: bool)
    | VInt(i: int)
    | VStr(s: string)
    | VBytes(data: seq<bv8>)
    | VList(items: seq<Value>)
    | VDict(entries: map<string, Value>)

  /** A Python dict with string keys: an SDK request's keyword arguments or an SDK response. */
  type Dict = map<string, Value>

  datatype Option<+T> = None | Some(value: T)

  /** Python truthiness, as used by `if x` and `x if x else y`. */
  predicate Truthy(v: Value) {
    match v
    case VNone => false
    case VBool(b) => b
    case VInt(i) => i != 0
    case VStr(s) => s != ""
    case VBytes(d) => d != []
    case VList(xs) => xs != []
    case VDict(m) => m != map[]
  }

  /** A value Python accepts as a dict key (lists and dicts are unhashable). */
  predicate Hashable(v: Value) {
    !v.VList? && !v.VDict?
  }

  /** `v[key]` succeeds exactly on a dict that has the key. */
  predicate HasField(v: Value, key: string) {
    v.VDict? && key in v.entries
  }

  /** An exception raised by the SDK itself. boto3's modelled service exceptions
      (EntityAlreadyExistsException, NoSuchEntityException, ...) are ClientErrors
      distinguished by their error code; anything else is OtherFault. */
  datatype Fault = ClientError(code: string) | OtherFault

  /** The ways an operation of the library ends with an exception instead of a value. */
  datatype Failure =
      /** KeyError or TypeError while reading a response, a ledger or a record */
    | LookupFailed
      /** an exception the authors did not intend: a raise of a name that is not
          defined, a call with a keyword the callee lacks, an attribute never set */
    | Defect
      /** aws_exceptions.AWS_RegionNotImplemented */
    | RegionNotImplemented
      /** preprocessing_exceptions.MLPRE_SplitMethodNotImplemented(message) */
    | SplitMethodNotImplemented(message: string)
      /** a failed `assert` */
    | AssertionFailed
      /** an SDK exception that the library does not catch */
    | SdkFault(fault: Fault)
      /** ValueError from `list.remove` of an element the list does not hold */
    | NotInList
      /** TypeError or ValueError from a TensorFlow int64 feature: a value that
          is not an integer, or one outside 64 bits */
    | FeatureRejected

  datatype Result<+T> = Ok(value: T) | Err(failure: Failure) {
    predicate IsFailure() {
      Err?
    }

    function PropagateFailure<U>(): Result<U>
      requires Err?
    {
      Err(failure)
    }

    function Extract(): T
      requires Ok?
    {
      value
    }
  }

  /** `d[key]` on a dict. */
  function Get(d: Dict, key: string): (r: Result<Value>)
    ensures r.Ok? <==> key in d
    ensures r.Ok? ==> r.value == d[key]
    ensures r.Err? ==> r.failure == LookupFailed
  {
    if key in d then Ok(d[key]) else Err(LookupFailed)
  }

  /** `v[key]` on a value that should be a dict. */
  function Subscript(v: Value, key: string): (r: Result<Value>)
    ensures r.Ok? <==> HasField(v, key)
    ensures r.Ok? ==> r.value == v.entries[key]
    ensures r.Err? ==> r.failure == LookupFailed
  {
    if HasField(v, key) then Ok(v.entries[key]) else Err(LookupFailed)
  }

  /** The elements a `for` loop visits, for a value that should be a list. */
  function Elements(v: Value): (r: Result<seq<Value>>)
    ensures r.Ok? <==> v.VList?
    ensures r.Ok? ==> r.value == v.items
    ensures r.Err? ==> r.failure == LookupFailed
  {
    if v.VList? then Ok(v.items) else Err(LookupFailed)
  }

  /** The set of elements of a sequence. */
  function Elems<T>(s: seq<T>): set<T> {
    set x | x in s
  }
}
