/** The object store as the image processor sees it: byte blobs under
    (bucket, key), reached either directly or through an "s3://bucket/key"
    path. The store is a value; a bucket in `failing` stands for a bucket
    whose every request the storage client rejects, so that the error paths
    of each operation can be stated. */
module S3Storage {
  import opened Wrappers
  import opened JavaText

  type Data = seq<int>

  datatype S3 = S3(objects: map<(string, string), Data>, failing: set<string>)

  const Scheme: string := "s3://"

  /** The URL `storeData` reports for an object. */
  function S3Url(bucket: string, key: string): string {
    Scheme + bucket + "/" + key
  }

  /** The path parsing shared by `downloadFile` and `uploadFile`: the
      scheme is required, and the bucket runs up to the first '/' after
      it, which must exist; the key is everything after that '/'. */
  function ParseS3Path(path: string): (r: Result<(string, string)>)
    ensures !StartsWith(path, Scheme) ==> r == Failure("S3 path must start with s3://")
    ensures StartsWith(path, Scheme) && '/' !in path[5..] ==> r == Failure("Invalid S3 path format")
    ensures r.Success? <==> StartsWith(path, Scheme) && '/' in path[5..]
    ensures r.Success? ==> '/' !in r.value.0 && path == S3Url(r.value.0, r.value.1)
  {
    if !StartsWith(path, Scheme) then Failure("S3 path must start with s3://")
    else
      var rest := path[5..];
      var slash := IndexOf(rest, '/');
      if slash == -1 then Failure("Invalid S3 path format")
      else
        assert rest == rest[..slash] + "/" + rest[slash + 1..];
        assert path == Scheme + rest;
        Success((rest[..slash], rest[slash + 1..]))
  }

  /** Parsing an S3 URL gives back its bucket and key whenever the bucket
      has no '/' of its own, which together with the ensures of
      `ParseS3Path` makes parsing and `S3Url` inverse to each other. */
  lemma ParseS3Url(bucket: string, key: string)
    requires '/' !in bucket
    ensures ParseS3Path(S3Url(bucket, key)) == Success((bucket, key))
  {
    var path := S3Url(bucket, key);
    var rest := path[5..];
    assert rest == bucket + "/" + key;
    assert rest[|bucket|] == '/' && rest[..|bucket|] == bucket;
    IndexOfFirst(rest, '/', |bucket|);
    assert rest[|bucket| + 1..] == key;
  }

  /** `retrieveData`: the stored blob; a missing object or a failing
      bucket is reported with one fixed message. */
  function RetrieveData(s3: S3, bucket: string, key: string): (r: Result<Data>)
    ensures r.Success? <==> bucket !in s3.failing && (bucket, key) in s3.objects
    ensures r.Success? ==> r.value == s3.objects[(bucket, key)]
    ensures r.Failure? ==> r.error == "Failed to retrieve data from S3"
  {
    if bucket in s3.failing || (bucket, key) !in s3.objects then Failure("Failed to retrieve data from S3")
    else Success(s3.objects[(bucket, key)])
  }

  /** `storeData`: writes the blob and reports its "s3://bucket/key" URL. */
  function StoreData(s3: S3, bucket: string, key: string, data: Data): (r: Result<(S3, string)>)
    ensures r.Success? <==> bucket !in s3.failing
    ensures r.Success? ==> r.value == (s3.(objects := s3.objects[(bucket, key) := data]), S3Url(bucket, key))
    ensures r.Failure? ==> r.error == "Failed to store data in S3"
  {
    if bucket in s3.failing then Failure("Failed to store data in S3")
    else Success((s3.(objects := s3.objects[(bucket, key) := data]), S3Url(bucket, key)))
  }

  /** `objectExists`: every exception, a missing key included, reads as
      false. */
  function ObjectExists(s3: S3, bucket: string, key: string): (r: bool)
    ensures r <==> RetrieveData(s3, bucket, key).Success?
  {
    bucket !in s3.failing && (bucket, key) in s3.objects
  }

  /** `deleteObject`: removes the key; deleting an absent key succeeds. */
  function DeleteObject(s3: S3, bucket: string, key: string): (r: Result<S3>)
    ensures r.Success? <==> bucket !in s3.failing
    ensures r.Success? ==> r.value.failing == s3.failing && r.value.objects.Keys == s3.objects.Keys - {(bucket, key)}
    ensures r.Success? ==> forall o :: o in r.value.objects ==> r.value.objects[o] == s3.objects[o]
    ensures r.Failure? ==> r.error == "Failed to delete object"
  {
    if bucket in s3.failing then Failure("Failed to delete object")
    else Success(s3.(objects := s3.objects - {(bucket, key)}))
  }

  /** `downloadFile`: parse, then retrieve; any failure, a malformed path
      included, is rethrown with the one message of this operation. */
  function DownloadFile(s3: S3, path: string): (r: Result<Data>)
    ensures r.Success? <==> (ParseS3Path(path).Success? &&
      RetrieveData(s3, ParseS3Path(path).value.0, ParseS3Path(path).value.1).Success?)
    ensures r.Success? ==> r.value == s3.objects[ParseS3Path(path).value]
    ensures r.Failure? ==> r.error == "Failed to download file from S3"
  {
    match ParseS3Path(path)
    case Failure(_) => Failure("Failed to download file from S3")
    case Success((bucket, key)) =>
      match RetrieveData(s3, bucket, key)
      case Failure(_) => Failure("Failed to download file from S3")
      case Success(data) => Success(data)
  }

  /** `uploadFile`: parse, then store; on success the URL returned is the
      path given. */
  function UploadFile(s3: S3, path: string, data: Data): (r: Result<(S3, string)>)
    ensures r.Success? <==> ParseS3Path(path).Success? && ParseS3Path(path).value.0 !in s3.failing
    ensures r.Success? ==> (r.value.1 == path &&
      r.value.0 == s3.(objects := s3.objects[ParseS3Path(path).value := data]))
    ensures r.Failure? ==> r.error == "Failed to upload file to S3"
  {
    match ParseS3Path(path)
    case Failure(_) => Failure("Failed to upload file to S3")
    case Success((bucket, key)) =>
      match StoreData(s3, bucket, key, data)
      case Failure(_) => Failure("Failed to upload file to S3")
      case Success(stored) => Success(stored)
  }

  /** What is uploaded to a path is downloaded from it. */
  lemma UploadThenDownload(s3: S3, path: string, data: Data)
    requires UploadFile(s3, path, data).Success?
    ensures DownloadFile(UploadFile(s3, path, data).value.0, path) == Success(data)
  {
  }
}
