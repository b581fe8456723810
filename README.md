# pylibs: the AWS wrappers and the ML helpers, modelled in Dafny

This project models the core of `pylibs`, a personal Python library of thin
wrappers around the AWS SDK (boto3), together with two machine-learning helpers.

- **AWS wrappers.** They cover IAM roles and policies, S3 objects and buckets,
  DynamoDB tables, Lambda functions, EC2 instances and IoT Core things.
  - Each wrapper sends one SDK request, or a few. It checks the response's HTTP
    status and reshapes the answer into names, records or ARNs.
  - The IAM wrappers return the library's own error record in place of some SDK
    exceptions.
- **Image converter.** It turns a labelled list of images into sharded TFRecord
  files, split across threads.
- **Train/validation split helper.** It accepts only the scikit-learn method.

How the model is built:

- **The SDK is a parameter.** A `Client` is any function from a request (the
  operation's name and its keyword arguments) to an outcome: either an answered
  response dict or a raised fault. Every contract holds for every SDK.
  - A contract that names the request states exactly what the wrapper sends.
  - The outcome states what the wrapper makes of every possible answer.
- **Python values** are a datatype `Value` (None, bool, int, str, bytes, list,
  dict).
- **Exceptions** are the `Err` side of a `Result`. The failure kinds are:
  - a lookup that fails (KeyError or TypeError);
  - `list.remove` of a value the list does not hold (ValueError);
  - a label, height or width that a TensorFlow int64 feature refuses (TypeError
    for a value that is not an integer, ValueError for one outside 64 bits);
  - an unsupported region;
  - an unsupported split method, together with its message;
  - a failed `assert`;
  - an SDK exception passed on;
  - `Defect`: an exception the authors did not intend. This covers a raise of
    the undefined `AWS_API_CallFailed`, a keyword argument the callee lacks, the
    undefined `FLAGS`, and an attribute that is never set.
- **Objects the source updates in place are classes.** These are the IoT thing
  and the IoT ledger of things, the EC2 instance, the EC2 instance table, and a
  Python dict shared between two names (`PyDict`).
  - Their methods state the whole new state.
- **Loops become methods with loop invariants**, proved against specification
  functions. These are the paginated listings, the per-page and per-record loops,
  and the shard and image loops of the converter.
- **Pure code becomes functions and lemmas.** This covers the listing
  comprehensions, the error table, shard naming and the split helper.

The modules follow the repository's files:

| module | file |
|---|---|
| `Values` | Python values |
| `Sdk` | the SDK as a parameter |
| `AwsSettings` | `cloud/aws/config/aws_settings.py` |
| `ErrorCodes` | `cloud/aws/config/aws_error_codes.py` |
| `AwsCommon` | `cloud/aws/common/aws_common_utils.py` |
| `Listing` | the name and record reshaping shared by the listings |
| `Iam` | `cloud/aws/iam/iam_utils.py` |
| `S3` | `cloud/aws/s3/s3_utils.py` |
| `DynamoDb` | `cloud/aws/dynamodb/dynamodb_utils.py` |
| `Lambda` | `cloud/aws/lambda/lambda_utils.py` |
| `Ec2Params`, `Ec2` | `cloud/aws/ec2/ec2_utils.py` |
| `Ec2Legacy` | the older `cloud/aws/ec2_utils.py` |
| `IotCore` | `cloud/aws/iot_core/iot_core_utils.py` |
| `Decimal` | Python's integer formatting |
| `TfRecord` | `ml/io/images2tferecord.py` |
| `TrainVal` | `ml/preprocessing/train_val_utils.py` |

## Model

| member | source | states |
|---|---|---|
| `AwsCommon.CheckResponseStatus` | cloud/aws/common/aws_common_utils.py:3-8 | The verdict is true exactly when `ResponseMetadata.HTTPStatusCode` equals 200. The code is returned as found. A response without metadata or without a status fails the lookup. |
| `AwsCommon.OnlyTwoHundredSucceeds` | cloud/aws/common/aws_common_utils.py:7 | For every integer code, the response succeeds exactly when the code is 200. Codes 204 and every other 2xx are failures. |
| `AwsCommon.SuccessOrFailure` | cloud/aws/common/aws_common_utils.py:3-8 | A readable status is either a success or a failure, never both. |
| `AwsCommon.RequireSuccess` | cloud/aws/iam/iam_utils.py:59-63 | The check-then-raise idiom passes the response on exactly when the status is 200. On any other status it fails with a defect, because the raised name is undefined. Missing metadata is a lookup failure. |
| `ErrorCodes.MsgFromCode` | cloud/aws/config/aws_error_codes.py:9-20 | Each defined code has its table message. Any other code gets "Error code <n> does not exist", with n in decimal. |
| `ErrorCodes.MsgFromCodeInjective` | cloud/aws/config/aws_error_codes.py:15-20 | Different codes never share a message, so a message identifies its code. |
| `ErrorCodes.DefinedMessageShape` | cloud/aws/config/aws_error_codes.py:9-13 | No table message reads like the fallback sentence. |
| `ErrorCodes.ConstructResponse` | cloud/aws/config/aws_error_codes.py:23-30 | The record has exactly three keys. "Error" is always True, even for AWS_NO_ERROR. It also carries the code and the code's message. |
| `Decimal.Digits` | cloud/aws/config/aws_error_codes.py:20 | `str(n)` for n >= 0: digits whose value is n, with no leading zero. |
| `Decimal.FormatInt` | cloud/aws/config/aws_error_codes.py:20 | `str(n)` for any integer: a leading '-' exactly for negatives, then the digits of the absolute value. |
| `Decimal.FormatIntInjective` | cloud/aws/config/aws_error_codes.py:20 | Different integers are rendered differently. |
| `Decimal.FormatPadded` | ml/io/images2tferecord.py:227 | `'%.5d'`: digits whose value is n, zero-padded to at least the width. A negative n gets a sign, then the digits of -n. |
| `Decimal.PaddedValue` | ml/io/images2tferecord.py:227 | Zero-padding keeps the value. The length is the larger of the width and the digit count. |
| `Decimal.DigitsLength` | ml/io/images2tferecord.py:227 | A number below 10^k has at most k digits, so `%.5d` of a number below 100000 is exactly five characters. |
| `Sdk.Call` | cloud/aws/lambda/lambda_utils.py:65 | An SDK call outside any `try` yields the response when answered. Otherwise it passes on the SDK's fault. |
| `Values.Get` | cloud/aws/iam/iam_utils.py:97 | `d[key]` succeeds exactly when the key is present, and then yields its value. Otherwise it is a lookup failure. |
| `Values.Subscript` | cloud/aws/common/aws_common_utils.py:6 | `v[key]` succeeds exactly on a dict holding the key. |
| `Values.Elements` | cloud/aws/lambda/lambda_utils.py:48 | A `for` loop over a value visits the items of a list. It fails on anything else. |
| `Listing.Pluck` | cloud/aws/s3/s3_utils.py:173 | `[x[key] for x in items]` succeeds exactly when every item has the field. The names are then aligned index by index with the items. |
| `Listing.NamesOf` | cloud/aws/iot_core/iot_core_utils.py:150-151 | The append loop equals the comprehension. It succeeds exactly when every record has the field, and the names it returns are aligned with the records. |
| `Listing.AlignedConcat` | cloud/aws/s3/s3_utils.py:95-100 | Appending two aligned listings gives an aligned listing. |
| `Listing.AlignedUnique` | cloud/aws/s3/s3_utils.py:98-100 | Two name lists aligned with the same records are equal, so the names of a listing are determined by its records. |
| `Listing.FirstIndex` | cloud/aws/iam/iam_utils.py:100 | The first position of an element: it holds the element, and no earlier position does. |
| `Listing.FirstOccurrencesSpec` | cloud/aws/iam/iam_utils.py:98-100 | `list(d.keys())` of a dict filled from a sequence has no duplicates and holds exactly the sequence's elements. They appear in order of first occurrence. |
| `Listing.LastIndex` | cloud/aws/iam/iam_utils.py:98 | The last position of an element: it holds the element, and no later position does. |
| `Listing.LastWinsSpec` | cloud/aws/iam/iam_utils.py:98 | A dict comprehension over key/value pairs has one key per distinct key. Each key maps to the value paired with its last occurrence. |
| `Listing.DictFromPairs` | cloud/aws/iam/iam_utils.py:97-100 | Filling a dict pair by pair gives exactly Python's dict and key list, as in the two lemmas above. |
| `Listing.KeyNames` | cloud/aws/iam/iam_utils.py:278-279 | Using each record's field as a dict key fails when a record lacks the field (KeyError) or the field is unhashable (TypeError). Otherwise the keys are aligned with the records. |
| `Listing.PagedErrPersists` | cloud/aws/lambda/lambda_utils.py:41-47 | Once a prefix of the pages fails, the whole listing fails the same way. |
| `Listing.PagedAligned` | cloud/aws/lambda/lambda_utils.py:41-50 | If every page pairs names with records, so does the whole listing. |
| `Listing.EmptyPageAddsNothing` | cloud/aws/s3/s3_utils.py:97 | A page that reads as empty can be dropped without changing the listing. |
| `Listing.PagedExtend` | cloud/aws/lambda/lambda_utils.py:41-50 | A page that reads extends the listing by its names and records. A page that fails ends the listing with its failure. |
| `Iam.CreateRoleRequest` | cloud/aws/iam/iam_utils.py:41-49 | The create_role request has exactly six arguments. MaxSessionDuration is None when the argument is falsy, and the argument otherwise. |
| `Iam.CreateRole` | cloud/aws/iam/iam_utils.py:19-65 | "EntityAlreadyExists" gives (False, the "already exists" record) without any status check. Status 200 gives (Role.Arn, response). Any other status is a defect, and any other SDK fault passes through. |
| `Iam.RoleRecords` | cloud/aws/iam/iam_utils.py:97 | The role records are `resp['Roles']` when it is a list. Otherwise the lookup fails. |
| `Iam.ListRoles` | cloud/aws/iam/iam_utils.py:68-105 | On status 200 it gives three things: the role names, each once in order of first occurrence; the dict from name to the last record with that name; and the response without its metadata, every other key kept. |
| `Iam.ListRolesNamesItsRecords` | cloud/aws/iam/iam_utils.py:97-100 | Every listed role's name is in the name list, and it maps to a record carrying that name. |
| `Iam.DeleteRole` | cloud/aws/iam/iam_utils.py:108-139 | "NoSuchEntity" gives (False, the "does not exist" record). Status 200 gives (True, the "no error" record). Any other status is a defect. |
| `Iam.DeleteRoleRecordAlwaysFlagsError` | cloud/aws/iam/iam_utils.py:123-139 | Every returned record says "Error": True. Only its code tells a deletion (0) from a missing role (2). |
| `Iam.GetRoleArn` | cloud/aws/iam/iam_utils.py:142-163 | On status 200 it gives (Role.Arn, the full response). Otherwise it is a defect. |
| `Iam.CreatePolicyRequest` | cloud/aws/iam/iam_utils.py:188-190 | The create_policy request carries exactly the name, document, path and description. |
| `Iam.CreatePolicy` | cloud/aws/iam/iam_utils.py:166-201 | As written, it never returns a value. An answered call fails at the status check's unknown keyword. "Already exists" raises an undefined name, and other faults pass through. |
| `Iam.CreatePolicyChecked` | cloud/aws/iam/iam_utils.py:166-201 | With the status check enforced, status 200 gives (Policy.Arn, response), and any other status raises (a defect). The already-exists path is still a defect. |
| `Iam.DeletePolicy` | cloud/aws/iam/iam_utils.py:204-229 | As written, it never returns a value. |
| `Iam.DeletePolicyChecked` | cloud/aws/iam/iam_utils.py:204-229 | With the status check enforced, the result is True exactly on status 200, and any other status raises (a defect). |
| `Iam.ListPoliciesRequest` | cloud/aws/iam/iam_utils.py:262-265 | The list_policies request carries exactly the scope, the attachment flag, the path prefix and the usage filter. |
| `Iam.ListPolicies` | cloud/aws/iam/iam_utils.py:232-281 | As written, the call is made and then the status check raises, whatever the answer. |
| `Iam.PolicyRecords` | cloud/aws/iam/iam_utils.py:274 | The policy records are `resp['Policies']` when it is a list. |
| `Iam.ListPoliciesChecked` | cloud/aws/iam/iam_utils.py:232-281 | With the status check enforced, any status other than 200 raises (a defect). On status 200 it gives the policy names, in order and with repeats, and the name-to-Arn dict (the last record wins). IsTruncated must be present, but its value changes nothing. |
| `Iam.ListedPolicyArn` | cloud/aws/iam/iam_utils.py:278-279 | A listed policy name maps to the Arn of the last record carrying that name. |
| `Iam.GetPolicyArn` | cloud/aws/iam/iam_utils.py:283-308 | As written, it never returns a value, because its first listing fails. |
| `Iam.GetPolicyArnChecked` | cloud/aws/iam/iam_utils.py:283-308 | With the corrected listing, a name in the PermissionsPolicy listing gives its Arn. Otherwise a name in the PermissionsBoundary listing gives its Arn, and otherwise False. A failed listing fails the lookup. |
| `Iam.PermissionsListingDecides` | cloud/aws/iam/iam_utils.py:287-295 | A name found in the first listing is answered without consulting the second listing. |
| `Iam.AttachManagedPolicyToRole` | cloud/aws/iam/iam_utils.py:311-312 | It always raises an undefined exception class. |
| `Iam.AttachInlinePolicyToRole` | cloud/aws/iam/iam_utils.py:314-316 | It always raises an undefined exception class. |
| `S3.UploadBody` | cloud/aws/s3/s3_utils.py:43-55 | Bytes are uploaded as they are. A str is the path of a file whose contents are uploaded, and it fails when the file is missing. Any other type uploads nothing. |
| `S3.PutObject` | cloud/aws/s3/s3_utils.py:25-70 | A region other than the default raises first. An unreadable source is a failure code. A ClientError is a failure code. Any answer is success, with no status check. |
| `S3.PageObjects` | cloud/aws/s3/s3_utils.py:96-100 | A page without 'Contents' adds nothing. Otherwise the page gives the Key of every object and the objects, aligned. |
| `S3.ListS3Objects` | cloud/aws/s3/s3_utils.py:73-101 | The page loop equals the concatenation of all pages' keys and objects, in page order, with names aligned to objects. |
| `S3.ReadObjectsPage` | cloud/aws/s3/s3_utils.py:96-100 | The body of the page loop equals the page's specification. |
| `S3.PagedObjectsAligned` | cloud/aws/s3/s3_utils.py:95-101 | In every listing of objects, the i-th name is the i-th object's Key. |
| `S3.PageWithoutContentsAddsNothing` | cloud/aws/s3/s3_utils.py:97 | An empty page (without Contents) can be dropped without changing the listing. |
| `S3.SinglePageListing` | cloud/aws/s3/s3_utils.py:95-101 | A one-page listing is that page's reading. |
| `S3.ListS3Buckets` | cloud/aws/s3/s3_utils.py:150-174 | On the default region and status 200, it gives every bucket's Name in order, aligned with the bucket list. Other regions are refused before any call. |
| `S3.CreateS3Bucket` | cloud/aws/s3/s3_utils.py:104-147 | A bucket already listed is reported without a create call. Otherwise any ClientError is a failure code, and status 200 is success. The ACL is ignored. |
| `S3.ListedBucketNeedsNoCreate` | cloud/aws/s3/s3_utils.py:115-118 | For a listed bucket, the result depends only on the listing. |
| `S3.DeleteS3Bucket` | cloud/aws/s3/s3_utils.py:177-216 | Other regions are refused. Any ClientError is a failure code. Status 200 is success, and any other status is a defect. |
| `DynamoDb.SecondaryEntry` | cloud/aws/dynamodb/dynamodb_utils.py:60-63 | A truthy secondary key gives its schema entry. Otherwise the placeholder is an empty dict. |
| `DynamoDb.CreateTableRequest` | cloud/aws/dynamodb/dynamodb_utils.py:53-76 | The request has exactly four arguments. The primary key comes first (HASH, type S), followed by the secondary key (RANGE, type N) or an empty dict. |
| `DynamoDb.KeyListsHaveTwoEntries` | cloud/aws/dynamodb/dynamodb_utils.py:55-74 | Both key lists always have two entries. The second is non-empty exactly when the secondary key is truthy. |
| `DynamoDb.Field2` | cloud/aws/dynamodb/dynamodb_utils.py:85-86 | `resp[outer][inner]` succeeds exactly when both lookups do. |
| `DynamoDb.CreateTable` | cloud/aws/dynamodb/dynamodb_utils.py:19-87 | On status 200 it gives (TableArn, TableId, TableDescription). Any other status is a defect. |
| `DynamoDb.DeleteTable` | cloud/aws/dynamodb/dynamodb_utils.py:90-115 | On status 200 it gives (the deleted table's name, its description). |
| `DynamoDb.ListTables` | cloud/aws/dynamodb/dynamodb_utils.py:118-140 | On status 200 it gives the first page's TableNames. |
| `DynamoDb.DescribeTable` | cloud/aws/dynamodb/dynamodb_utils.py:142-163 | It gives the response's Table. |
| `Lambda.FunctionsPage` | cloud/aws/lambda/lambda_utils.py:42-50 | A page with a status other than 200 is a defect. Otherwise the page gives every FunctionName, aligned with the functions. |
| `Lambda.ListFunctions` | cloud/aws/lambda/lambda_utils.py:20-51 | The page loop equals the paged listing of all functions: names and records aligned, in page order, with the first bad page failing it all. |
| `Lambda.ReadFunctionsPage` | cloud/aws/lambda/lambda_utils.py:42-50 | The body of the page loop equals the page's specification. |
| `Lambda.BadPageSpoilsListing` | cloud/aws/lambda/lambda_utils.py:43-47 | Any page with a status other than 200 fails the whole listing, so no partial result is returned. |
| `Lambda.GetFunction` | cloud/aws/lambda/lambda_utils.py:53-76 | On status 200 it gives the response without ResponseMetadata, with every other key unchanged. |
| `Ec2Params.Overlay` | cloud/aws/ec2/ec2_utils.py:37 | `a.update(b)` as a value: b's keys take b's values, and every other key of a keeps its value. |
| `Ec2Params.OverlayIdempotent` | cloud/aws/ec2/ec2_utils.py:37 | A second update with the same dict changes nothing. |
| `Ec2Params.PyDict.Update` | cloud/aws/ec2/ec2_utils.py:37 | The shared dict's contents become the overlay of the old contents. |
| `Ec2Params.DefaultParams` | cloud/aws/ec2/ec2_utils.py:27-33 | The defaults are t3.micro, MaxCount 1, MinCount 1 and the project's security group sg-05811705b74edb37e. |
| `Ec2Params.DefaultsWin` | cloud/aws/ec2/ec2_utils.py:23-37 | After `_set_defaults`, the four defaults override the caller's values, and every other caller key is kept. |
| `Ec2.SingleInstance.constructor` | cloud/aws/ec2/ec2_utils.py:16-20 | The parameters are the caller's own dict object, with the defaults written into it, so the caller sees the change. |
| `Ec2.SingleInstance.SetDefaults` | cloud/aws/ec2/ec2_utils.py:23-37 | The parameters alias the caller's dict, which is updated with the defaults. Nothing else changes. |
| `Ec2.SingleInstance.LaunchInstance` | cloud/aws/ec2/ec2_utils.py:45-63 | The launch parameters are the same dict object, updated with launch_dict. The run_instances answer is recorded and returned. |
| `Ec2.AllInstances.StoreInstance` | cloud/aws/ec2/ec2_utils.py:75-85 | The instance is filed under its name, and every other entry is kept. An instance without a name fails and stores nothing. |
| `Ec2.GetAllInstancesInRegion` | cloud/aws/ec2/ec2_utils.py:87-109 | Other regions are refused before any call. Otherwise it gives the describe_instances response. |
| `Ec2Legacy.SingleInstance.constructor` | cloud/aws/ec2_utils.py:14-18 | As in `Ec2`, the caller's dict becomes the parameters, with the defaults written in. |
| `Ec2Legacy.SingleInstance.SetDefaults` | cloud/aws/ec2_utils.py:20-35 | As in `Ec2`. |
| `Ec2Legacy.SingleInstance.LaunchInstance` | cloud/aws/ec2_utils.py:37-57 | As in `Ec2`; the session opened here is not modelled. |
| `Ec2Legacy.AllInstances.StoreInstance` | cloud/aws/ec2_utils.py:69-79 | As in `Ec2`. |
| `IotCore.CreateThingRequest` | cloud/aws/iot_core/iot_core_utils.py:50-59 | billingGroupName is sent exactly when it is truthy. The other three arguments are always sent. |
| `IotCore.IotThing.CreateThing` | cloud/aws/iot_core/iot_core_utils.py:36-61 | An answer is recorded as the creation response and returned. An SDK fault passes through, and nothing is recorded. |
| `IotCore.IotThing.DeleteThing` | cloud/aws/iot_core/iot_core_utils.py:64-71 | The delete_thing answer is returned as is. |
| `IotCore.RemoveFirst` | cloud/aws/iot_core/iot_core_utils.py:124 | `list.remove` drops exactly the first occurrence: one element fewer, and the multiset minus one copy. |
| `IotCore.RemoveFirstElems` | cloud/aws/iot_core/iot_core_utils.py:124 | Removing the only copy of a name drops it from the name set. Removing one of several copies keeps it. |
| `IotCore.AllThings.CreateThing` | cloud/aws/iot_core/iot_core_utils.py:84-110 | On an answer, the name is appended, and it maps to a fresh thing holding the response. Other entries are unchanged. The invariant that the list and the dict name the same things is kept. |
| `IotCore.AllThings.DeleteThing` | cloud/aws/iot_core/iot_core_utils.py:113-126 | An unknown name fails before any call (KeyError). On an answer, the first occurrence leaves the list and the key leaves the dict; a name missing from the list raises ValueError and the dict keeps its key. The invariant is kept unless the name was listed twice. |
| `IotCore.AllThings.ListAllThings` | cloud/aws/iot_core/iot_core_utils.py:129-152 | It gives every thingName of 'things', in order and aligned, together with the response. It fails exactly when a record lacks the field. |
| `IotCore.IotThingType.ListAllThingTypes` | cloud/aws/iot_core/iot_core_utils.py:204-220 | It gives every thingTypeName of 'thingTypes', in order and aligned. |
| `IotCore.IotThingType.GetThingTypeProperties` | cloud/aws/iot_core/iot_core_utils.py:223-234 | It sends list_thing_types with the given thingTypeName and gives the answer's 'thingTypes' with no status check. An answer without 'thingTypes' is a KeyError, and an SDK fault passes on. |
| `IotCore.CheckResponseStatus` | cloud/aws/iot_core/iot_core_utils.py:236-241 | The module's copy agrees with the shared status check: the verdict is true exactly for 200. |
| `TfRecord.IsPng` | ml/io/images2tferecord.py:150-159 | True exactly when the name ends in the lower-case ".png". |
| `TfRecord.PngTestIsCaseSensitive` | ml/io/images2tferecord.py:159 | ".PNG" is not recognised. |
| `TfRecord.Int64Values` | ml/io/images2tferecord.py:80 | An int64 list is accepted exactly when every value is an int within 64 bits or a bool, and then holds those integers in order. Anything else is refused. |
| `TfRecord.Int64Feature` | ml/io/images2tferecord.py:76-80 | A list is used as the feature's values, and anything else becomes a one-element list. The feature is refused exactly when some value is not a 64-bit integer. |
| `TfRecord.BytesFeature` | ml/io/images2tferecord.py:83-85 | The value becomes the one entry of a bytes list. |
| `TfRecord.Int64FeatureStable` | ml/io/images2tferecord.py:76-80 | Re-wrapping an accepted feature's values as a list gives the same feature. |
| `TfRecord.TextLabelRefused` | ml/io/images2tferecord.py:76-80 | The text "dog", a list holding it, and 2^63 are refused. The int 7 becomes [7]. |
| `TfRecord.Basename` | ml/io/images2tferecord.py:114 | `os.path.basename` is no longer than the path and holds no '/'. |
| `TfRecord.BasenameIsLastComponent` | ml/io/images2tferecord.py:114 | `os.path.basename` is the suffix after the last '/': it contains no '/', and it is preceded by '/' when shorter than the path. |
| `TfRecord.ConvertToExample` | ml/io/images2tferecord.py:88-116 | An Example is made exactly when the label is a 64-bit integer (or a list of them) and the height and width fit 64 bits. Otherwise the feature is refused. The Example holds the fixed RGB colorspace, 3 channels and JPEG format. It also holds the height, width, label feature, text, encoded bytes and the file's basename. |
| `TfRecord.ExampleFilenameIsBase` | ml/io/images2tferecord.py:114 | The stored file name of a made Example never contains a '/'. |
| `TfRecord.TextLabelRefusesExample` | ml/io/images2tferecord.py:88-116 | A text label such as 'dog' makes no Example. |
| `TfRecord.ShardsPerBatch` | ml/io/images2tferecord.py:213-215 | Success exactly when the thread count divides the shard count. Otherwise the assert fails, and with zero threads the modulo divides by zero. |
| `TfRecord.ShardsSplitEvenly` | ml/io/images2tferecord.py:210-215 | After the check, the shards per thread times the thread count is the shard count. |
| `TfRecord.ThreadShards` | ml/io/images2tferecord.py:226 | Thread t writes shards t*k .. t*k+k-1, in order. |
| `TfRecord.ShardsCoverExactlyOnce` | ml/io/images2tferecord.py:210-226 | Together the threads write every shard 0 .. n*k-1 exactly once, in order. |
| `TfRecord.ThreadsDisjoint` | ml/io/images2tferecord.py:226 | Different threads never compute the same shard number. |
| `TfRecord.ShardOwner` | ml/io/images2tferecord.py:226 | Each shard j below n*k is shard j % k of thread j / k. |
| `TfRecord.ShardName` | ml/io/images2tferecord.py:227 | `'%s-%.5d-of-%.5d' % (name, shard, num_shards)` starts with the data set name and '-', and is at least 15 characters longer than the name. |
| `TfRecord.ShardNameLayout` | ml/io/images2tferecord.py:227 | Below 100000, the file name is the data set name plus 15 characters. The five-digit shard and total sit at fixed places and denote the numbers. |
| `TfRecord.ShardNameInjective` | ml/io/images2tferecord.py:227 | Different shards of one data set get different names, at any size. |
| `TfRecord.ShardNameExample` | ml/io/images2tferecord.py:225 | Shard 2 of 10 of "train" is named "train-00002-of-00010". |
| `TfRecord.Join` | ml/io/images2tferecord.py:228 | `os.path.join` ends with the file name, and an absolute file name replaces the directory. |
| `TfRecord.JoinInjective` | ml/io/images2tferecord.py:228 | `os.path.join` with one directory keeps different relative names apart. |
| `TfRecord.ShardPathsDistinct` | ml/io/images2tferecord.py:227-228 | Different shards are written to different files. |
| `TfRecord.DecodableCount` | ml/io/images2tferecord.py:234-244 | At most one decodable file per position of the range. |
| `TfRecord.ImageConvertible` | ml/io/images2tferecord.py:246-247 | A decoded image's Example is made exactly when its label and size are 64-bit integers. |
| `TfRecord.Conversions` | ml/io/images2tferecord.py:239-247 | File i yields nothing exactly when it fails to decode; a file that decodes yields its Example or the refusal of its label or size. |
| `TfRecord.ShardExamples` | ml/io/images2tferecord.py:232-249 | A shard holds one example per decodable file of its range, in order. A refused Example stops the loop: the shard then holds fewer, and the failure is the refusal. |
| `TfRecord.ShardStopsAtRefusal` | ml/io/images2tferecord.py:246-247 | Once an Example is refused, the later files of the shard add nothing. |
| `TfRecord.ShardCompletesIff` | ml/io/images2tferecord.py:234-249 | A shard's loop runs to its end exactly when every file of its range is skipped or converted. |
| `TfRecord.WriteImage` | ml/io/images2tferecord.py:234-249 | One pass of the inner loop moves the shard from files lo .. i-1 to lo .. i, and the shard counter grows exactly when an Example was written. |
| `TfRecord.WriteShard` | ml/io/images2tferecord.py:231-250 | The inner loop writes exactly the shard's examples, in order, and stops at the first refused Example. A file that fails to decode is skipped. |
| `TfRecord.ThreadFiles` | ml/io/images2tferecord.py:223-257 | A thread's first s shards give at most s files, and exactly s when no Example is refused. A stopped thread has at least one file, and its failure is the refusal. |
| `TfRecord.ThreadStopsAtRefusal` | ml/io/images2tferecord.py:223-257 | Once a thread has stopped, its later shards change nothing. |
| `TfRecord.ThreadCompletesIff` | ml/io/images2tferecord.py:223-257 | A thread writes all s shards exactly when every file in their ranges is skipped or converted. |
| `TfRecord.RefusedShardIsLast` | ml/io/images2tferecord.py:223-250 | A shard with a refused Example is the thread's last: the thread ends refused, with that shard's file and no later one. |
| `TfRecord.ConvertibleImagesComplete` | ml/io/images2tferecord.py:223-257 | When every image is skipped or converted, a thread writes all its shards. |
| `TfRecord.ThreadFilesShards` | ml/io/images2tferecord.py:226 | The j-th file of a thread holds shard first + j. |
| `TfRecord.ThreadFilesFollowThreadShards` | ml/io/images2tferecord.py:223-226 | The shard files a thread writes are, in order, a prefix of the shard numbers t*k .. t*k+k-1 it owns. |
| `TfRecord.ThreadFilesStep` | ml/io/images2tferecord.py:223-257 | Each outer iteration of a running thread appends the next shard's file and ends as that shard's loop ended. The counter grows by that file's examples. |
| `TfRecord.ProcessImageFilesBatch` | ml/io/images2tferecord.py:194-264 | As written, it returns only when there are no shards. A thread count that does not divide the shards fails the assert. Otherwise the undefined FLAGS fails it. |
| `TfRecord.ProcessImageFilesBatchInto` | ml/io/images2tferecord.py:194-264 | The corrected thread: its loops produce exactly that thread's shard files, the final image counter and how the thread ended. A refused Example ends the thread after its partly written shard. |
| `TfRecord.CounterCountsDecoded` | ml/io/images2tferecord.py:239-250 | Each image is counted once. The counter is at most the number of decodable files across the thread's shard ranges, and equal to it when no Example is refused. |
| `TfRecord.ThreadsWriteDisjointShards` | ml/io/images2tferecord.py:223-227 | Two threads of one run never write the same shard. |
| `TfRecord.ThreadsWriteDisjointFiles` | ml/io/images2tferecord.py:226-229 | Two threads of one run never write the same file. |
| `TfRecord.EveryShardWritten` | ml/io/images2tferecord.py:210-226 | Every shard j of a run is written, by thread j / k as its file j % k, unless a refused Example stopped that thread. |
| `TfRecord.ProcessImageFiles` | ml/io/images2tferecord.py:267-309 | As written, unequal list lengths fail the asserts. Otherwise the undefined FLAGS fails it. |
| `TfRecord.ProcessImageFilesWith` | ml/io/images2tferecord.py:267-309 | The corrected driver fails the assert on unequal lengths. Otherwise it gives each thread's files, counter and outcome from the corrected thread. A stopped thread does not stop the others. |
| `TrainVal.SplitTrainVal` | ml/preprocessing/train_val_utils.py:12-30 | Success exactly for "sklearn". Any other method raises SplitMethodNotImplemented("unsupported split method: " + the method). |
| `TrainVal.RefusalNamesTheMethod` | ml/preprocessing/train_val_utils.py:28-30 | Two refusals carry the same message exactly when the same method was asked for. |
| `TrainVal.EmptyDataUnknownMethodRefused` | ml/preprocessing/tests/test_preprocessing.py:11-15 | Empty data with an unknown method is refused, with the method in the message. |

## Left out

- Creating SDK clients and sessions, and credentials. The SDK is the `Client` parameter.
- Logging and `print`, including the converter's progress lines every 1000 images.
- Pagination itself is not modelled. The pages of a listing are an input sequence.
- Only the first page is read by `list_roles`, `list_policies` and `list_tables`, as in the source.
- `pickle` and the other file I/O of the repository outside the named wrappers.
- TensorFlow is not modelled:
  - JPEG/PNG decoding, `ImageCoder`, and the PNG-to-JPEG conversion of `_process_image`. Decoding is a `Decoder` parameter, which answers None when anything in it raises.
  - Example serialisation and `TFRecordWriter`. A shard file is its shard number and its list of examples.
- TfRecord: `np.linspace` is not modelled. The file ranges of the threads and the shard boundaries of each thread are inputs, constrained only to fit the file list and the counts.
- TfRecord: the threads run one after another. Thread interleaving, `Coordinator` and `join` are not modelled, and each thread's outcome is returned on its own.
- TfRecord: `as_bytes` keeps strings as strings. Their UTF-8 encoding is not modelled.
- TfRecord: label texts are strings. A text that is not a string would raise in `as_bytes`, outside the `try`, and end the thread the way a refused label does; that case is not modelled.
- TfRecord: the int64 feature is taken to accept a bool as the integer 0 or 1, as Python's bool is an int.
- TfRecord.ProcessImageFilesBatchInto: a refused Example ends the thread before `writer.close()`. The model keeps the examples written before the refusal as that shard's file, and does not model records still buffered in the writer.
- TfRecord.ShardsPerBatch: the source computes `int(num_shards / num_threads)` in floating point, and the model uses exact integer division. The two agree while the shard count is below 2^53.
- TfRecord: the output directory and thread count, read from the undefined `FLAGS`, are arguments of the corrected members.
- TrainVal: the split itself is absent (the source returns None after the method check). The floating-point defaults `SK_SPLIT_DEF_PARAMS` are not modelled.
- The test at ml/preprocessing/tests/test_preprocessing.py:19-50 unpacks the None result. It is not modelled.
- Iterating over a value that is not a list is treated as a lookup failure (TypeError).
- Listing.DictFromPairs: a `map<Value, Value>` keeps `True` and `1` (and `False` and `0`) apart, where a Python dict merges keys that compare equal. Every listing here keys its dict by names that are strings, where the two agree.
- IoT thing names are strings.
- IoT: the thing-type create, deprecate and delete methods (cloud/aws/iot_core/iot_core_utils.py:162-201) pass their answers through unchanged, so they are not modelled separately.
- `terminate_instances` (cloud/aws/ec2/ec2_utils.py:111) is not modelled. It has no logic of its own.
- Ec2.GetAllInstancesInRegion: the filter argument is ignored, as in the source.
- Ec2.AllInstances.StoreInstance: no code sets `name`. So on a `SingleInstance` built by the constructor, storing always fails. The `defaultdict` default value is never read and is not modelled.
- S3.PutObject: the response status is not checked, as in the source.
- S3.CreateS3Bucket: the ACL argument is ignored, as in the source.
- The region arguments of the Lambda and DynamoDB wrappers are unused, as in the source.
- Iam.CreatePolicyChecked: its "already exists" branch stays a defect, because the source's error code for it is undefined.
- AwsCommon.CheckResponseStatus: Python's `is 200` is modelled as integer equality. This is how CPython behaves for the small integers boto3 returns.

## Findings

| source | as written | input that shows it | evidently intended | confidence | as-written member | corrected member |
|---|---|---|---|---|---|---|
| cloud/aws/iam/iam_utils.py:191 | `check_response_status(resp, check_failure=True)`, but the function takes one argument, so every answered create_policy raises TypeError | any answered create_policy call, e.g. status 200 | the status check enforced (a status other than 200 raises), then return the policy ARN | not executed | `Iam.CreatePolicy` | `Iam.CreatePolicyChecked` |
| cloud/aws/iam/iam_utils.py:218 | same keyword in delete_policy | any answered delete_policy call | the status check enforced (a status other than 200 raises), then True | not executed | `Iam.DeletePolicy` | `Iam.DeletePolicyChecked` |
| cloud/aws/iam/iam_utils.py:266 | same keyword in list_policies, so get_policy_arn never returns either | any answered list_policies call | the status check enforced (a status other than 200 raises), then the names and name-to-ARN dict | not executed | `Iam.ListPolicies`, `Iam.GetPolicyArn` | `Iam.ListPoliciesChecked`, `Iam.GetPolicyArnChecked` |
| ml/io/images2tferecord.py:228 | `FLAGS.output_directory`, but `FLAGS` is never defined | any thread with at least one shard, e.g. 2 shards on 1 thread | write the shard files into a given output directory | not executed | `TfRecord.ProcessImageFilesBatch` | `TfRecord.ProcessImageFilesBatchInto` |
| ml/io/images2tferecord.py:282 | `FLAGS.num_threads`, undefined | any consistent image list | split the files over a given number of threads | not executed | `TfRecord.ProcessImageFiles` | `TfRecord.ProcessImageFilesWith` |
