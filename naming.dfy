/**
 * Destination naming of the thumbnail handler: the resized copy of
 * `srcBucket/srcKey` is written to `srcBucket-resized/resized-srcKey`.
 */
module Naming {

  const BucketSuffix: string := "-resized"
  const KeyPrefix: string := "resized-"

  /** `String.format("%s-resized", srcBucket)`: the source name is a proper prefix of the result. */
  function DestinationBucket(srcBucket: string): (dst: string)
    ensures srcBucket < dst
    ensures dst[|srcBucket|..] == BucketSuffix
  {
    srcBucket + BucketSuffix
  }

  /** `String.format("resized-%s", srcKey)`: the source key follows a fixed prefix. */
  function DestinationKey(srcKey: string): (dst: string)
    ensures KeyPrefix <= dst
    ensures dst[|KeyPrefix|..] == srcKey
  {
    KeyPrefix + srcKey
  }

  /** The destination bucket can never be the source bucket, whatever the source is called. */
  lemma DestinationBucketDiffers(srcBucket: string)
    ensures DestinationBucket(srcBucket) != srcBucket
    ensures |DestinationBucket(srcBucket)| == |srcBucket| + 8
  {
  }

  /** Nor can the destination key be the source key. */
  lemma DestinationKeyDiffers(srcKey: string)
    ensures DestinationKey(srcKey) != srcKey
    ensures |DestinationKey(srcKey)| == |srcKey| + 8
  {
  }

  /** Two distinct source buckets never share a destination bucket. */
  lemma DestinationBucketInjective(a: string, b: string)
    ensures DestinationBucket(a) == DestinationBucket(b) <==> a == b
  {
    if DestinationBucket(a) == DestinationBucket(b) {
      assert |a| == |b|;
      assert a == DestinationBucket(a)[..|a|];
      assert b == DestinationBucket(b)[..|b|];
    }
  }

  /** Two distinct source keys never share a destination key. */
  lemma DestinationKeyInjective(a: string, b: string)
    ensures DestinationKey(a) == DestinationKey(b) <==> a == b
  {
    if DestinationKey(a) == DestinationKey(b) {
      assert a == DestinationKey(a)[|KeyPrefix|..];
    }
  }

  /** The bucket "photos" and the key "pics/cat.png" name the thumbnail "photos-resized/resized-pics/cat.png". */
  lemma DestinationExample()
    ensures DestinationBucket("photos") == "photos-resized"
    ensures DestinationKey("pics/cat.png") == "resized-pics/cat.png"
  {
  }
}
