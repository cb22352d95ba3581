/**
 Uploaders: the `AmvUploaderBase` defaults and `AwsUploader`, which stores
 a file as a public-read object in an S3 bucket. The storage service is
 abstract: an object is known by its bucket and key, and its public URL
 is determined by the same two.
 */
module Uploader {
  import opened Wrappers
  import opened RubyCore
  import E = Effects

  datatype UploaderClass = UploaderBase | AwsUploader

  /** The connection parameters handed to the uploader. */
  datatype AwsParams = AwsParams(endpoint: string, key: string, secret: string, bucket: string)

  /** A stored object: `bucket.objects.create(name, ..)` returns the object under key `name`. */
  datatype S3Object = S3Object(bucket: string, key: string)

  /** The public URL of an object, abstract beyond the object it names. */
  datatype PublicUrl = PublicUrl(bucket: string, key: string)

  /** `ready`: false for the base class; AwsUploader always answers true. */
  function Ready(c: UploaderClass): (ready: RubyBool) {
    match c
    case UploaderBase => False
    case AwsUploader => True
  }

  /** AwsUploader never fails its readiness check, and the base class always does. */
  lemma ReadyOnlyForAws(c: UploaderClass)
    ensures Ready(c) == True <==> c == AwsUploader
  {
  }

  /** What `put` gives back: the stored object and the events, or the NoMethodError of `nil.path`. */
  datatype PutResult = Stored(obj: S3Object, trace: seq<E.Event>) | NoMethodError

  /**
   `AwsUploader#put(src, type, filename = nil)`: store `src` under `filename`,
   or under the basename of its path when no filename is given, public-read
   with content type `contentType`. With neither a file nor a filename the
   source evaluates `nil.path` and raises.
   */
  function Put(params: AwsParams, src: Option<E.Artifact>, contentType: Option<string>,
               filename: Option<string>): (r: PutResult)
    ensures r.NoMethodError? <==> src.None? && filename.None?
    ensures r.Stored? ==> r.obj.bucket == params.bucket
    ensures r.Stored? && filename.Some? ==> r.obj.key == filename.value
    ensures r.Stored? && filename.None? ==> r.obj.key == Basename(src.value.path)
    ensures r.Stored? ==> r.trace == [E.Put(params.bucket, r.obj.key, contentType, src)]
  {
    if filename.None? && src.None? then NoMethodError
    else
      var name := if filename.Some? then filename.value else Basename(src.value.path);
      var obj := S3Object(params.bucket, name);
      Stored(obj, [E.Put(params.bucket, name, contentType, src)])
  }

  /** A media file in a temporary directory is stored under its own file name. */
  lemma PutUnderFileName(params: AwsParams, dir: string, name: string, contentType: Option<string>)
    requires 0 < |name| && forall i :: 0 <= i < |name| ==> name[i] != '/'
    ensures Put(params, Some(E.Artifact(dir + "/" + name)), contentType, None).obj.key == name
  {
    BasenameOfJoin(dir, name);
  }

  /** `AwsUploader#get_url`: the public URL of the stored object. */
  function GetUrl(obj: S3Object): (r: (PublicUrl, seq<E.Event>)) {
    (PublicUrl(obj.bucket, obj.key), [E.GetUrl(obj.bucket, obj.key)])
  }
}
