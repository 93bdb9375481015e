/**
 * Event validation of the handler: derive the destination, refuse a
 * destination bucket equal to the source bucket, infer the image type and
 * refuse anything but "jpg" and "png". Every refusal is a neutral skip.
 */
module Validation {

  import opened Wrappers
  import opened Naming
  import opened TypeInference
  import opened Formats

  datatype SkipReason =
    | SameBucket   // "Destination bucket must not match source bucket."
    | UnknownType  // "Unable to infer image type for key ..."
    | NotAnImage   // "Skipping non-image ..."

  datatype Decision =
    | Skip(reason: SkipReason)
    | Process(dstBucket: string, dstKey: string, format: ImageFormat)

  /**
   * The checks of the handler on the first record's bucket and URL-decoded
   * key, in their order. The bucket sanity check never fires: no decision is
   * a skip because the buckets match.
   */
  function Classify(srcBucket: string, srcKey: string): (d: Decision)
    ensures d != Skip(SameBucket)
  {
    var dstBucket := DestinationBucket(srcBucket);
    var dstKey := DestinationKey(srcKey);
    if srcBucket == dstBucket then Skip(SameBucket)
    else match InferType(srcKey)
      case None => Skip(UnknownType)
      case Some(imageType) =>
        match ParseType(imageType)
        case None => Skip(NotAnImage)
        case Some(format) => Process(dstBucket, dstKey, format)
  }

  /**
   * A key is processed exactly when the pattern matches it and the text after
   * its last dot is "jpg" or "png"; it is skipped as untyped exactly when the
   * pattern does not match, and as a non-image otherwise.
   */
  lemma ClassifyAcceptsExactly(srcBucket: string, srcKey: string)
    ensures Classify(srcBucket, srcKey).Process? <==>
      exists i :: MatchesAt(srcKey, i) && (srcKey[i + 1..] == JpgType || srcKey[i + 1..] == PngType)
    ensures Classify(srcBucket, srcKey) == Skip(UnknownType) <==> !Matches(srcKey)
    ensures Classify(srcBucket, srcKey) == Skip(NotAnImage) <==>
      exists i :: MatchesAt(srcKey, i) && srcKey[i + 1..] != JpgType && srcKey[i + 1..] != PngType
  {
    DestinationBucketDiffers(srcBucket);
    InferTypeIsRegexMatch(srcKey);
    if Classify(srcBucket, srcKey).Process? {
      assert MatchesAt(srcKey, LastDot(srcKey).value);
    }
  }

  /**
   * A processed key keeps its source in the destination's names, and its
   * format is the one its inferred type names.
   */
  lemma ProcessedNamesAndFormat(srcBucket: string, srcKey: string)
    requires Classify(srcBucket, srcKey).Process?
    ensures var d := Classify(srcBucket, srcKey);
      && d.dstBucket == srcBucket + "-resized"
      && d.dstKey == "resized-" + srcKey
      && d.dstBucket != srcBucket
      && InferType(srcKey) == Some(TypeName(d.format))
  {
    DestinationBucketDiffers(srcBucket);
  }

  /** A key with no dot is skipped as untyped, whatever the bucket. */
  lemma NoDotIsSkipped(srcBucket: string, srcKey: string)
    requires '.' !in srcKey
    ensures Classify(srcBucket, srcKey) == Skip(UnknownType)
  {
    DestinationBucketDiffers(srcBucket);
    NoDotNoType(srcKey);
  }

  /** Keys the handler skips: wrong letter case, a longer spelling, an empty type, no dot. */
  lemma ClassifySkipExamples(srcBucket: string)
    ensures Classify(srcBucket, "icon.PNG") == Skip(NotAnImage)
    ensures Classify(srcBucket, "a.jpeg") == Skip(NotAnImage)
    ensures Classify(srcBucket, "file.") == Skip(NotAnImage)
    ensures Classify(srcBucket, "noextension") == Skip(UnknownType)
  {
    DestinationBucketDiffers(srcBucket);
    InferTypeVerbatimExamples();
    assert ParseType("PNG") == None;
    assert ParseType("") == None;
    TypeIsSuffixAfterLastDot("a.jpeg", 1);
    assert ParseType("jpeg") == None;
    NoTypeExamples();
  }

  /** A PNG under a prefix in bucket "photos" goes to "photos-resized" as "resized-pics/cat.png". */
  lemma ClassifyProcessExample()
    ensures Classify("photos", "pics/cat.png") == Process("photos-resized", "resized-pics/cat.png", Png)
  {
    DestinationBucketDiffers("photos");
    InferTypeExamples();
    assert ParseType("png") == Some(Png);
    assert Classify("photos", "pics/cat.png")
      == Process(DestinationBucket("photos"), DestinationKey("pics/cat.png"), Png);
    DestinationExample();
  }
}
