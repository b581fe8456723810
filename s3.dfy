/** The S3 wrappers: uploading an object, listing a bucket's objects across
    pages, and creating, listing and deleting buckets. Every operation except
    bucket creation first rejects any region other than the default one. */
module S3 {
  import opened Values
  import opened Sdk
  import opened AwsCommon
  import opened Listing
  import opened AwsSettings

  /** The result codes of the S3 settings; their values are not part of this
      model, only that they are distinct. */
  datatype S3Code =
    | PutObjectSuccess
    | PutObjectFail
    | BucketAlreadyExists
    | CreateBucketSuccess
    | CreateBucketFailed
    | BucketDeleteSuccess
    | BucketDeleteFailed

  /** The bucket configuration used when none is given. */
  const DEFAULT_BUCKET_REGION: Value := VDict(map["LocationConstraint" := VStr(AWS_DEFAULT_REGION)])

  /** The files `open(path, 'rb')` can read, by path, and their contents. */
  type FileSystem = map<string, seq<bv8>>

  /** What `put_object` uploads: bytes as they are, a str as the path of a file
      to open; nothing when the file cannot be opened or the source has any
      other type. */
  function UploadBody(srcData: Value, files: FileSystem): (body: Option<seq<bv8>>)
    ensures srcData.VBytes? ==> body == Some(srcData.data)
    ensures srcData.VStr? ==> (body.Some? <==> srcData.s in files)
    ensures srcData.VStr? && srcData.s in files ==> body == Some(files[srcData.s])
    ensures !srcData.VBytes? && !srcData.VStr? ==> body == None
  {
    match srcData
    case VBytes(data) => Some(data)
    case VStr(path) => if path in files then Some(files[path]) else None
    case _ => None
  }

  function PutObjectRequest(bucket: Value, key: Value, body: seq<bv8>): Request {
    Request("put_object", map["Bucket" := bucket, "Key" := key, "Body" := VBytes(body)])
  }

  /** `put_object`: a wrong region raises before anything else; a source that
      cannot be read fails without an upload; a ClientError during the upload is
      a failure code; any answer at all is success (its status is not checked). */
  function PutObject(bucket: Value, key: Value, srcData: Value, region: string,
                     files: FileSystem, client: Client): (r: Result<S3Code>)
    ensures region != AWS_DEFAULT_REGION ==> r == Err(RegionNotImplemented)
    ensures region == AWS_DEFAULT_REGION && UploadBody(srcData, files).None? ==> r == Ok(PutObjectFail)
    ensures region == AWS_DEFAULT_REGION && UploadBody(srcData, files).Some? ==>
              var out := client(PutObjectRequest(bucket, key, UploadBody(srcData, files).value));
              && (out.Answered? ==> r == Ok(PutObjectSuccess))
              && (out.Raised? && out.fault.ClientError? ==> r == Ok(PutObjectFail))
              && (out == Raised(OtherFault) ==> r == Err(SdkFault(OtherFault)))
    ensures r.Ok? ==> r.value in {PutObjectSuccess, PutObjectFail}
  {
    if region != AWS_DEFAULT_REGION then Err(RegionNotImplemented)
    else match UploadBody(srcData, files)
      case None => Ok(PutObjectFail)
      case Some(body) =>
        match client(PutObjectRequest(bucket, key, body))
        case Answered(_) => Ok(PutObjectSuccess)
        case Raised(ClientError(_)) => Ok(PutObjectFail)
        case Raised(OtherFault) => Err(SdkFault(OtherFault))
  }

  /** One page of list_objects: the Key of every object under 'Contents', and
      the objects; a page without 'Contents' has none. */
  function PageObjects(page: Dict): (r: Result<(seq<Value>, seq<Value>)>)
    ensures "Contents" !in page ==> r == Ok(([], []))
    ensures "Contents" in page ==>
              (r.Ok? <==> page["Contents"].VList? && Pluck(page["Contents"].items, "Key").Ok?)
    ensures r.Ok? && "Contents" in page ==> r.value.1 == page["Contents"].items
    ensures r.Ok? ==> Aligned(r.value.0, r.value.1, "Key")
    ensures r.Err? ==> r.failure == LookupFailed
  {
    if "Contents" !in page then Ok(([], []))
    else
      var objects :- Elements(page["Contents"]);
      var names :- Pluck(objects, "Key");
      Ok((names, objects))
  }

  /** `list_s3_objects`: the keys and the objects of all pages, in page order. */
  method ListS3Objects(bucket: Value, region: string, pages: seq<Dict>) returns (r: Result<(seq<Value>, seq<Value>)>)
    ensures region != AWS_DEFAULT_REGION ==> r == Err(RegionNotImplemented)
    ensures region == AWS_DEFAULT_REGION ==> r == Paged(pages, PageObjects)
    ensures r.Ok? ==> Aligned(r.value.0, r.value.1, "Key")
  {
    if region != AWS_DEFAULT_REGION {
      return Err(RegionNotImplemented);
    }
    PagedObjectsAligned(pages);
    var names: seq<Value> := [];
    var objects: seq<Value> := [];
    var k := 0;
    while k < |pages|
      invariant 0 <= k <= |pages|
      invariant Paged(pages[..k], PageObjects) == Ok((names, objects))
    {
      var page := ReadObjectsPage(pages[k]);
      PagedExtend(pages, PageObjects, k, names, objects);
      if page.Err? {
        return Err(page.failure);
      }
      names := names + page.value.0;
      objects := objects + page.value.1;
      k := k + 1;
    }
    assert pages[..k] == pages;
    return Ok((names, objects));
  }

  /** The body of the page loop of `list_s3_objects`: the Key of every object in
      'Contents'; a page without 'Contents' adds nothing. */
  method ReadObjectsPage(page: Dict) returns (r: Result<(seq<Value>, seq<Value>)>)
    ensures r == PageObjects(page)
  {
    if "Contents" !in page {
      return Ok(([], []));
    }
    if !page["Contents"].VList? {
      return Err(LookupFailed);
    }
    var contents := page["Contents"].items;
    var names := NamesOf(contents, "Key");
    if names.Err? {
      return Err(names.failure);
    }
    return Ok((names.value, contents));
  }

  lemma PagedObjectsAligned(pages: seq<Dict>)
    ensures Paged(pages, PageObjects).Ok? ==>
              Aligned(Paged(pages, PageObjects).value.0, Paged(pages, PageObjects).value.1, "Key")
  {
    PagedAligned(pages, PageObjects, "Key");
  }

  /** Pages without 'Contents' (an empty bucket's pages) can be dropped without
      changing the listing. */
  lemma PageWithoutContentsAddsNothing(pages: seq<Dict>, i: nat)
    requires i < |pages| && "Contents" !in pages[i]
    ensures Paged(pages, PageObjects) == Paged(pages[..i] + pages[i + 1..], PageObjects)
  {
    EmptyPageAddsNothing(pages, PageObjects, i);
  }

  /** The listing of a single page is that page's objects. */
  lemma SinglePageListing(page: Dict)
    ensures Paged([page], PageObjects) == PageObjects(page)
  {
    assert [page][..0] == [];
    var p := PageObjects(page);
    if p.Ok? {
      assert [] + p.value.0 == p.value.0 && [] + p.value.1 == p.value.1;
    }
  }

  const LIST_BUCKETS_REQUEST: Request := Request("list_buckets", map[])

  /** `list_s3_buckets`: on status 200, the Name of every bucket in order, and
      the bucket list itself. */
  function ListS3Buckets(region: string, client: Client): (r: Result<(seq<Value>, Value)>)
    ensures region != AWS_DEFAULT_REGION ==> r == Err(RegionNotImplemented)
    ensures region == AWS_DEFAULT_REGION ==>
              var out := client(LIST_BUCKETS_REQUEST);
              && (out.Raised? ==> r == Err(SdkFault(out.fault)))
              && (out.Answered? && FailedStatus(out.response) ==> r == Err(Defect))
              && (r.Ok? <==> && out.Answered? && Succeeded(out.response) && "Buckets" in out.response
                             && out.response["Buckets"].VList?
                             && Pluck(out.response["Buckets"].items, "Name").Ok?)
              && (r.Ok? ==> r.value.1 == out.response["Buckets"]
                            && Aligned(r.value.0, r.value.1.items, "Name"))
  {
    if region != AWS_DEFAULT_REGION then Err(RegionNotImplemented)
    else
      var resp :- Call(client, LIST_BUCKETS_REQUEST);
      var _ :- RequireSuccess(resp);
      var buckets :- Get(resp, "Buckets");
      var items :- Elements(buckets);
      var names :- Pluck(items, "Name");
      Ok((names, buckets))
  }

  function CreateBucketRequest(bucketName: Value, config: Value): Request {
    Request("create_bucket", map["Bucket" := bucketName, "CreateBucketConfiguration" := config])
  }

  /** `create_s3_bucket`: the default region's buckets are listed first, and a
      name already listed is reported without a create call. Otherwise any
      ClientError (whatever its code) is a failure code and status 200 is
      success. The ACL argument is accepted and never used. */
  function CreateS3Bucket(bucketName: Value, acl: Value, config: Value, client: Client): (r: Result<S3Code>)
    ensures ListS3Buckets(AWS_DEFAULT_REGION, client).Err? ==>
              r == Err(ListS3Buckets(AWS_DEFAULT_REGION, client).failure)
    ensures ListS3Buckets(AWS_DEFAULT_REGION, client).Ok? ==>
              var (names, _) := ListS3Buckets(AWS_DEFAULT_REGION, client).value;
              var out := client(CreateBucketRequest(bucketName, config));
              && (bucketName in names ==> r == Ok(BucketAlreadyExists))
              && (bucketName !in names ==>
                    && (out.Raised? && out.fault.ClientError? ==> r == Ok(CreateBucketFailed))
                    && (out == Raised(OtherFault) ==> r == Err(SdkFault(OtherFault)))
                    && (out.Answered? ==> (r == Ok(CreateBucketSuccess) <==> Succeeded(out.response)))
                    && (out.Answered? && FailedStatus(out.response) ==> r == Err(Defect)))
    ensures r.Ok? ==> r.value in {BucketAlreadyExists, CreateBucketSuccess, CreateBucketFailed}
  {
    var (names, _) :- ListS3Buckets(AWS_DEFAULT_REGION, client);
    if bucketName in names then Ok(BucketAlreadyExists)
    else match client(CreateBucketRequest(bucketName, config))
      case Raised(ClientError(_)) => Ok(CreateBucketFailed)
      case Raised(OtherFault) => Err(SdkFault(OtherFault))
      case Answered(resp) =>
        var _ :- RequireSuccess(resp);
        Ok(CreateBucketSuccess)
  }

  /** A listed bucket is reported as existing whatever the create call would have
      answered: two SDKs that list the same buckets give the same result. */
  lemma ListedBucketNeedsNoCreate(bucketName: Value, acl: Value, config: Value, client: Client, other: Client)
    requires client(LIST_BUCKETS_REQUEST) == other(LIST_BUCKETS_REQUEST)
    requires ListS3Buckets(AWS_DEFAULT_REGION, client).Ok?
    requires bucketName in ListS3Buckets(AWS_DEFAULT_REGION, client).value.0
    ensures CreateS3Bucket(bucketName, acl, config, client) == CreateS3Bucket(bucketName, acl, config, other)
    ensures CreateS3Bucket(bucketName, acl, config, client) == Ok(BucketAlreadyExists)
  {
  }

  function DeleteBucketRequest(bucketName: Value): Request {
    Request("delete_bucket", map["Bucket" := bucketName])
  }

  /** `delete_s3_bucket`: any ClientError (NoSuchBucket or another) is a failure
      code, status 200 is success. */
  function DeleteS3Bucket(bucketName: Value, region: string, client: Client): (r: Result<S3Code>)
    ensures region != AWS_DEFAULT_REGION ==> r == Err(RegionNotImplemented)
    ensures region == AWS_DEFAULT_REGION ==>
              var out := client(DeleteBucketRequest(bucketName));
              && (out.Raised? && out.fault.ClientError? ==> r == Ok(BucketDeleteFailed))
              && (out == Raised(OtherFault) ==> r == Err(SdkFault(OtherFault)))
              && (out.Answered? ==> (r == Ok(BucketDeleteSuccess) <==> Succeeded(out.response)))
              && (out.Answered? && FailedStatus(out.response) ==> r == Err(Defect))
    ensures r.Ok? ==> r.value in {BucketDeleteSuccess, BucketDeleteFailed}
  {
    if region != AWS_DEFAULT_REGION then Err(RegionNotImplemented)
    else match client(DeleteBucketRequest(bucketName))
      case Raised(ClientError(_)) => Ok(BucketDeleteFailed)
      case Raised(OtherFault) => Err(SdkFault(OtherFault))
      case Answered(resp) =>
        var _ :- RequireSuccess(resp);
        Ok(BucketDeleteSuccess)
  }
}
