/**
 * One invocation of the handler, from the first record's bucket and key to
 * its result. Fetching, decoding, encoding and uploading are outside the
 * model: their results are given as an `Environment`, and the run records
 * the calls the handler makes so that their order and arguments can be
 * stated.
 */
module Pipeline {

  import opened Wrappers
  import opened Naming
  import opened TypeInference
  import opened Formats
  import opened Scaling
  import opened Validation

  /** Result of building the storage client and asking it for the source object. */
  datatype FetchResult = Fetched | FetchFailed

  /** Result of decoding the object's bytes: an image, no reader for them, or an I/O error. */
  datatype DecodeResult = Decoded(width: Dimension, height: Dimension) | NoReader | ReadError

  /** Result of re-encoding the thumbnail: the number of bytes written, or an I/O error. */
  datatype EncodeResult = Encoded(byteCount: nat) | WriteError

  /** Result of the upload: stored, refused by the service, or failed on the client side. */
  datatype UploadResult = Stored | ServiceError(message: string) | ClientError

  datatype Environment = Environment(
    fetch: FetchResult, decode: DecodeResult, encode: EncodeResult, upload: UploadResult)

  /** Metadata of the uploaded object; the content type stays unset unless the type is known. */
  datatype Metadata = Metadata(contentLength: nat, contentType: Option<string>)

  datatype Call =
    | GetObject(bucket: string, key: string)
    | Encode(imageType: string, size: Size)
    | PutObject(bucket: string, key: string, meta: Metadata)

  /** Exceptions that leave the handler. */
  datatype Failure =
    | WrappedIOException  // an IOException, rethrown as a RuntimeException
    | FetchException      // unchecked exception from the storage client before upload
    | NullImage           // no image reader: the decoded image is null and is dereferenced
    | BadThumbnailSize    // a thumbnail side of 0 is refused by the image constructor
    | UploadException     // unchecked client-side failure of the upload

  datatype Outcome = Returned(value: string) | Threw(failure: Failure) | Exited(status: int)

  datatype Run = Run(outcome: Outcome, calls: seq<Call>)

  /**
   * The handler: validation, then the steps that follow it. It returns ""
   * exactly for the keys validation skips, and never writes into the bucket
   * it reads from, so its own output cannot trigger it again on that bucket.
   */
  function HandleRequest(srcBucket: string, srcKey: string, env: Environment): (r: Run)
    ensures r.outcome == Returned("") <==> Classify(srcBucket, srcKey).Skip?
    ensures forall c :: c in r.calls && c.PutObject? ==>
      c.bucket == srcBucket + "-resized" && c.bucket != srcBucket && c.key == "resized-" + srcKey
  {
    var d := Classify(srcBucket, srcKey);
    CallsFollowPipelineOrder(srcBucket, srcKey, d, env);
    if d.Process? then
      ProcessedNamesAndFormat(srcBucket, srcKey);
      Execute(srcBucket, srcKey, d, env)
    else
      Execute(srcBucket, srcKey, d, env)
  }

  /**
   * The handler's control flow after validation has decided, step by step.
   * A skip returns "" before any call, so a skipped key is never fetched;
   * nothing else returns "", and the only other value returned is "Ok".
   */
  function Execute(srcBucket: string, srcKey: string, d: Decision, env: Environment): (r: Run)
    ensures r.outcome == Returned("") <==> d.Skip?
    ensures d.Skip? ==> r.calls == []
    ensures r.outcome.Returned? ==> r.outcome.value in {"", "Ok"}
  {
    match d
    case Skip(_) => Run(Returned(""), [])
    case Process(dstBucket, dstKey, format) =>
      var imageType := TypeName(format);
      var fetched := [GetObject(srcBucket, srcKey)];
      match env.fetch
      case FetchFailed => Run(Threw(FetchException), fetched)
      case Fetched =>
        match env.decode
        case ReadError => Run(Threw(WrappedIOException), fetched)
        case NoReader => Run(Threw(NullImage), fetched)
        case Decoded(w, h) =>
          var size := TargetSize(w, h);
          if size.width <= 0 || size.height <= 0 then Run(Threw(BadThumbnailSize), fetched)
          else
            var encoded := fetched + [Encode(imageType, size)];
            match env.encode
            case WriteError => Run(Threw(WrappedIOException), encoded)
            case Encoded(n) =>
              var put := encoded + [PutObject(dstBucket, dstKey, Metadata(n, ContentType(imageType)))];
              match env.upload
              case Stored => Run(Returned("Ok"), put)
              case ServiceError(_) => Run(Exited(1), put)
              case ClientError => Run(Threw(UploadException), put)
  }

  /** Every step succeeds: the object is fetched and decoded to an image whose thumbnail has no empty side, and it is encoded and stored. */
  ghost predicate AllStepsSucceed(env: Environment)
  {
    && env.fetch == Fetched
    && env.decode.Decoded?
    && TargetSize(env.decode.width, env.decode.height).width > 0
    && TargetSize(env.decode.width, env.decode.height).height > 0
    && env.encode.Encoded?
    && env.upload == Stored
  }

  /**
   * "Ok" is returned exactly when the key is accepted and every step succeeds,
   * and then the source was fetched, the thumbnail encoded in the key's type,
   * and uploaded to the destination with its byte count and MIME type.
   */
  lemma OkIffEveryStepSucceeds(srcBucket: string, srcKey: string, d: Decision, env: Environment)
    ensures Execute(srcBucket, srcKey, d, env).outcome == Returned("Ok") <==> d.Process? && AllStepsSucceed(env)
    ensures Execute(srcBucket, srcKey, d, env).outcome == Returned("Ok") ==>
      Execute(srcBucket, srcKey, d, env).calls == [
        GetObject(srcBucket, srcKey),
        Encode(TypeName(d.format), TargetSize(env.decode.width, env.decode.height)),
        PutObject(d.dstBucket, d.dstKey, Metadata(env.encode.byteCount, Some(Mime(d.format))))]
  {
    if d.Process? {
      ContentTypeMatchesFormat(TypeName(d.format));
    }
  }

  /**
   * Every call made starts with the fetch of the source, made only for a
   * processed key; the upload, when attempted, is the last call and writes
   * the decided destination.
   */
  lemma CallsFollowPipelineOrder(srcBucket: string, srcKey: string, d: Decision, env: Environment)
    ensures var calls := Execute(srcBucket, srcKey, d, env).calls;
      && (calls != [] ==> d.Process? && calls[0] == GetObject(srcBucket, srcKey))
      && (forall k :: 1 <= k < |calls| ==> !calls[k].GetObject?)
      && (forall k :: 0 <= k < |calls| - 1 ==> !calls[k].PutObject?)
      && (forall c :: c in calls && c.PutObject? ==> c.bucket == d.dstBucket && c.key == d.dstKey)
      && |calls| <= 3
  {
  }

  /**
   * Only a service-side refusal of the upload ends the process, with status 1,
   * and only after the upload was attempted as the last call.
   */
  lemma ExitsOnlyOnUploadRefusal(srcBucket: string, srcKey: string, d: Decision, env: Environment)
    ensures var run := Execute(srcBucket, srcKey, d, env);
      && (run.outcome.Exited? <==> run.calls != [] && run.calls[|run.calls| - 1].PutObject? && env.upload.ServiceError?)
      && (run.outcome.Exited? ==> run.outcome.status == 1)
  {
  }

  /**
   * An I/O error is rethrown exactly when reading the fetched object or
   * writing the thumbnail hits one; the handler does not exit for it.
   */
  lemma IOErrorsAreRethrown(srcBucket: string, srcKey: string, d: Decision, env: Environment)
    ensures Execute(srcBucket, srcKey, d, env).outcome == Threw(WrappedIOException) <==>
      && d.Process?
      && env.fetch == Fetched
      && (|| env.decode == ReadError
          || (&& env.decode.Decoded?
              && TargetSize(env.decode.width, env.decode.height).width > 0
              && TargetSize(env.decode.width, env.decode.height).height > 0
              && env.encode == WriteError))
  {
  }

  /**
   * Because the thumbnail size is not clamped, an accepted image more than
   * 100 times wider than tall is fetched and then fails: it is never uploaded.
   */
  lemma ExtremeRatioFails(srcBucket: string, srcKey: string, d: Decision, env: Environment)
    requires d.Process?
    requires env.fetch == Fetched && env.decode.Decoded?
    requires 100 * env.decode.height < env.decode.width
    ensures Execute(srcBucket, srcKey, d, env) == Run(Threw(BadThumbnailSize), [GetObject(srcBucket, srcKey)])
  {
    ZeroSideIffExtremeRatio(env.decode.width, env.decode.height);
  }

  /**
   * A 400 by 200 PNG at "photos/pics/cat.png" becomes a 100 by 50 PNG at
   * "photos-resized/resized-pics/cat.png" with the encoder's byte count and
   * type "image/png".
   */
  lemma CatPictureScenario(byteCount: nat)
    ensures HandleRequest("photos", "pics/cat.png",
              Environment(Fetched, Decoded(400, 200), Encoded(byteCount), Stored))
      == Run(Returned("Ok"), [
           GetObject("photos", "pics/cat.png"),
           Encode("png", Size(100, 50)),
           PutObject("photos-resized", "resized-pics/cat.png", Metadata(byteCount, Some("image/png")))])
  {
    var env := Environment(Fetched, Decoded(400, 200), Encoded(byteCount), Stored);
    var d := Process("photos-resized", "resized-pics/cat.png", Png);
    ClassifyProcessExample();
    assert HandleRequest("photos", "pics/cat.png", env) == Execute("photos", "pics/cat.png", d, env);
    TargetSizeExamples();
    assert AllStepsSucceed(env);
    OkIffEveryStepSucceeds("photos", "pics/cat.png", d, env);
  }
}
