# Thumbnail handler for storage events — Dafny model

The handler (`src/main/java/ttrzcinski/Handler.java`) is invoked when an
image object is created in a bucket. It derives a destination bucket and key,
refuses to write into the source bucket, infers the image type from the key
with the regular expression `.*\.([^\.]*)`, accepts only `jpg` and `png`,
fetches and decodes the object, computes a thumbnail size that fits a
100 by 100 box, re-encodes the thumbnail and uploads it with its length and
MIME type, returning `"Ok"`, or `""` for a skipped event.

This project models the deterministic core of that handler as pure
functions, with lemmas about them:

- `naming.dfy` (module `Naming`): the destination bucket `<bucket>-resized`
  and key `resized-<key>`.
- `type_inference.dfy` (module `TypeInference`): the regular expression as a
  reference predicate (`MatchesAt`, `Matches`), including Java's rule that
  `.` does not match a line terminator while `[^\.]` does, and the
  executable inference `InferType` through `LastDot`.
- `formats.dfy` (module `Formats`): the two accepted types, their MIME types,
  the case-sensitive acceptance test and the content-type selection.
- `scaling.dfy` (module `Scaling`): the scaling factor
  `min(MAX_WIDTH / w, MAX_HEIGHT / h)` as an exact fraction and the
  truncated thumbnail sides.
- `validation.dfy` (module `Validation`): the checks of the handler in their
  order, giving `Skip(reason)` or `Process(dstBucket, dstKey, format)`.
- `pipeline.dfy` (module `Pipeline`): one invocation, `HandleRequest`, is
  validation followed by `Execute`, a function of the validation decision and
  of the results of the fetch, decode, encode and upload steps that returns
  the outcome and the calls made. Most properties of the steps after
  validation are stated of `Execute` for every decision, and so hold of
  `HandleRequest`.
- `wrappers.dfy` (module `Wrappers`): `Option`.

The thumbnail size is modelled in exact rational arithmetic, while
`Handler.java:124-127` computes it in `float`. The statements below about
sizes hold in that exact arithmetic; "## Left out" says where the `float`
code differs.

Behaviour of the code that the model keeps:

- The code does not clamp the thumbnail sides. In exact arithmetic, a source
  more than 100 times longer on one side than the other gets a side of 0
  (`Scaling.ZeroSideIffExtremeRatio`), and the image constructor at
  `Handler.java:129` then throws (`Pipeline.ExtremeRatioFails`).
- Both sides can reach the box edge: in exact arithmetic a square source
  gives 100 by 100 (`Scaling.SquareFillsBox`).
- No bucket name equals its own destination name
  (`Naming.DestinationBucketDiffers`), so the check at `Handler.java:60` never
  fires (`Validation.Classify`).
- A failed fetch is not wrapped like the I/O errors of decoding and encoding.
  The storage client's exceptions are unchecked, so they leave the handler
  unchanged (`FetchException`). A decoder that finds no reader returns
  `null`, which is then dereferenced (`NullImage`).
- Images smaller than the box are enlarged to fill it. For example, 20 by 10
  becomes 100 by 50 (`Scaling.TargetSizeExamples`).

## Model

| member | source | states |
|---|---|---|
| `Naming.DestinationBucket` | src/main/java/ttrzcinski/Handler.java:55 | the source bucket name is a proper prefix of the destination bucket name, followed by exactly `-resized` |
| `Naming.DestinationKey` | src/main/java/ttrzcinski/Handler.java:56 | the destination key is `resized-` followed by exactly the source key |
| `Naming.DestinationBucketDiffers` | src/main/java/ttrzcinski/Handler.java:55-65 | no bucket name equals its own destination name, which is 8 characters longer |
| `Naming.DestinationKeyDiffers` | src/main/java/ttrzcinski/Handler.java:56 | no key equals its own destination key, which is 8 characters longer |
| `Naming.DestinationBucketInjective` | src/main/java/ttrzcinski/Handler.java:55 | two source buckets share a destination bucket if and only if they are the same bucket |
| `Naming.DestinationKeyInjective` | src/main/java/ttrzcinski/Handler.java:56 | two source keys share a destination key if and only if they are the same key |
| `Naming.DestinationExample` | src/main/java/ttrzcinski/Handler.java:55-56 | "photos" and "pics/cat.png" give "photos-resized" and "resized-pics/cat.png" |
| `TypeInference.LastDot` | src/main/java/ttrzcinski/Handler.java:68 | there is no answer exactly when the string has no dot; otherwise the answer is the index of a dot with no dot after it |
| `TypeInference.InferType` | src/main/java/ttrzcinski/Handler.java:68-74 | when a type is inferred, the key ends in a dot followed by exactly that type, the type holds no dot, and no line terminator comes before that dot; `InferTypeIsRegexMatch` proves it answers exactly when the pattern matches |
| `TypeInference.MatchIsAtLastDot` | src/main/java/ttrzcinski/Handler.java:68-69 | wherever the pattern's escaped dot can sit in a matching key, it sits at the key's last dot |
| `TypeInference.InferTypeIsRegexMatch` | src/main/java/ttrzcinski/Handler.java:68-74 | a type is inferred if and only if the whole key matches `.*\.([^\.]*)`, and the type is then the text group 1 captures |
| `TypeInference.NoDotNoType` | src/main/java/ttrzcinski/Handler.java:68-72 | a key without a dot does not match and gets no type |
| `TypeInference.TypeIsSuffixAfterLastDot` | src/main/java/ttrzcinski/Handler.java:68-74 | a key with no line terminator before its last dot has as its type everything after that dot, possibly empty |
| `TypeInference.LineTerminatorBeforeDot` | src/main/java/ttrzcinski/Handler.java:68-72 | a line terminator before some dot of the key makes the match fail |
| `TypeInference.InferTypeExamples` | src/main/java/ttrzcinski/Handler.java:68-74 | "photo.jpg" and "pics/cat.png" get the types "jpg" and "png" |
| `TypeInference.InferTypeManyDotsExample` | src/main/java/ttrzcinski/Handler.java:68-74 | "archive.tar.gz" gets the type "gz": only the last dot counts |
| `TypeInference.InferTypeVerbatimExamples` | src/main/java/ttrzcinski/Handler.java:68-74 | "icon.PNG" gets "PNG" and "file." gets the empty type, and a line terminator after the last dot is kept in the type |
| `TypeInference.NoTypeExamples` | src/main/java/ttrzcinski/Handler.java:68-72 | "noextension", and keys with a line terminator before the last dot, get no type |
| `Formats.TypeName` | src/main/java/ttrzcinski/Handler.java:34-36 | each format is recognised by a non-empty name without a dot, so a key can end in it; `ParseTypeInvertsTypeName` proves the name parses back to the format |
| `Formats.Mime` | src/main/java/ttrzcinski/Handler.java:35-37 | each format is uploaded with a MIME type under "image/"; `MimeInjective` proves the two differ |
| `Formats.ParseType` | src/main/java/ttrzcinski/Handler.java:75-78 | a type is accepted only as the format it names; a string naming no format is refused |
| `Formats.ParseTypeInvertsTypeName` | src/main/java/ttrzcinski/Handler.java:34-36 | each format's name parses back to that format, and a string parses to a format if and only if it is that format's name |
| `Formats.ParseTypeRefuses` | src/main/java/ttrzcinski/Handler.java:75-78 | "PNG", "JPG", "jpeg" and the empty string are refused: the test is case-sensitive and exact |
| `Formats.ContentType` | src/main/java/ttrzcinski/Handler.java:93-100 | when the content type is set, it is the MIME type of a format the type string names, and it is set whenever the string names a format |
| `Formats.ContentTypeMatchesFormat` | src/main/java/ttrzcinski/Handler.java:93-100 | the content type is set if and only if the type is accepted, and then it is that format's MIME type |
| `Formats.MimeInjective` | src/main/java/ttrzcinski/Handler.java:34-37 | the two formats have different MIME types |
| `Scaling.Factor` | src/main/java/ttrzcinski/Handler.java:124-125 | the factor is at most `MAX_WIDTH / w` and at most `MAX_HEIGHT / h`, and equal to one of them |
| `Scaling.Scale` | src/main/java/ttrzcinski/Handler.java:126-127 | a scaled side is the largest integer not above the exact product of factor and side: the `(int)` cast of a non-negative product |
| `Scaling.TargetSize` | src/main/java/ttrzcinski/Handler.java:124-127 | in exact arithmetic, both thumbnail sides lie between 0 and 100, and the side whose ratio gives the factor is exactly 100 |
| `Scaling.ScaleBounds` | src/main/java/ttrzcinski/Handler.java:126-127 | a side whose exact product is at most `k` scales to at most `k`, and to 0 exactly when the product is below 1 |
| `Scaling.ScaleExact` | src/main/java/ttrzcinski/Handler.java:126-127 | the side whose ratio is the factor scales to exactly the box edge |
| `Scaling.TargetSizeByLongerSide` | src/main/java/ttrzcinski/Handler.java:124-127 | with `m` the longer source side, the thumbnail is `(100 * w) / m` by `(100 * h) / m` |
| `Scaling.TargetSizeKeepsAspect` | src/main/java/ttrzcinski/Handler.java:124-127 | the cross products `width * h` and `height * w` differ by less than the longer source side |
| `Scaling.ZeroSideIffExtremeRatio` | src/main/java/ttrzcinski/Handler.java:126-129 | a thumbnail side is 0 if and only if the other source side is more than 100 times longer; nothing clamps it |
| `Scaling.TargetSizeExamples` | src/main/java/ttrzcinski/Handler.java:124-127 | 400 by 200 gives 100 by 50, 640 by 640 gives 100 by 100, 20 by 10 gives 100 by 50, 1000 by 1 gives 100 by 0 |
| `Scaling.SquareFillsBox` | src/main/java/ttrzcinski/Handler.java:124-127 | every square source gives a 100 by 100 thumbnail |
| `Validation.Classify` | src/main/java/ttrzcinski/Handler.java:55-78 | the checks in their order; no decision is ever a skip because the buckets match, so the branch at lines 60-65 is dead |
| `Validation.ClassifyAcceptsExactly` | src/main/java/ttrzcinski/Handler.java:68-78 | a key is processed if and only if it matches the pattern with group "jpg" or "png"; it is skipped as untyped if and only if it does not match, and as a non-image if and only if it matches with another group |
| `Validation.ProcessedNamesAndFormat` | src/main/java/ttrzcinski/Handler.java:55-78 | a processed key goes to `<bucket>-resized` as `resized-<key>`, a bucket other than the source, in the format its inferred type names |
| `Validation.NoDotIsSkipped` | src/main/java/ttrzcinski/Handler.java:68-72 | a key without a dot is skipped as untyped in any bucket |
| `Validation.ClassifySkipExamples` | src/main/java/ttrzcinski/Handler.java:68-78 | "icon.PNG", "a.jpeg" and "file." are skipped as non-images and "noextension" as untyped |
| `Validation.ClassifyProcessExample` | src/main/java/ttrzcinski/Handler.java:55-78 | "photos" / "pics/cat.png" is processed as PNG into "photos-resized" / "resized-pics/cat.png" |
| `Pipeline.HandleRequest` | src/main/java/ttrzcinski/Handler.java:46-115 | the result is "" if and only if validation skips the key; every upload goes to `<bucket>-resized` as `resized-<key>`, never into the source bucket |
| `Pipeline.Execute` | src/main/java/ttrzcinski/Handler.java:80-113 | a skip returns "" before any call, so a skipped key is never fetched; "" is returned for nothing else, and the only other returned value is "Ok" |
| `Pipeline.OkIffEveryStepSucceeds` | src/main/java/ttrzcinski/Handler.java:80-111 | "Ok" comes back if and only if the key was accepted and every step succeeds; the calls are then the fetch of the source, the encoding of the thumbnail in the key's type, and the upload to the destination with the byte count and the format's MIME type |
| `Pipeline.CallsFollowPipelineOrder` | src/main/java/ttrzcinski/Handler.java:80-105 | any call sequence starts with the one fetch of the notified object, made only for an accepted key; an upload can only be the last call and writes the decided destination; there are at most three calls |
| `Pipeline.ExitsOnlyOnUploadRefusal` | src/main/java/ttrzcinski/Handler.java:104-109 | the process exits, with status 1, if and only if the upload was attempted, as the last call, and the service refused it |
| `Pipeline.IOErrorsAreRethrown` | src/main/java/ttrzcinski/Handler.java:86-113 | an I/O error is rethrown if and only if the key was accepted, the object fetched, and reading it, or writing the non-empty thumbnail, hit one |
| `Pipeline.ExtremeRatioFails` | src/main/java/ttrzcinski/Handler.java:124-130 | an accepted image more than 100 times wider than tall is fetched, then fails on the empty thumbnail, and is never uploaded |
| `Pipeline.CatPictureScenario` | src/main/java/ttrzcinski/Handler.java:46-127 | a 400 by 200 PNG at "photos/pics/cat.png" is uploaded as a 100 by 50 PNG to "photos-resized/resized-pics/cat.png" with its byte count and "image/png", and "Ok" is returned |

## Left out

- `Scaling.TargetSize`: the factor and the products are exact rationals here, but the code computes them in 32-bit `float`. Rounding can put a product just below an integer and truncate that side by one more. So the side that gives the factor need not be 100: 97 by 97 gives 99 by 99 in the code, where the model gives 100 by 100. A source exactly 100 times longer on one side can get a side of 0 and then fail at the image constructor: 4100 by 41 gives 100 by 0 in the code, where the model gives 100 by 1 and `Pipeline.Execute` returns "Ok". `Scaling.SquareFillsBox`, `Scaling.ScaleExact`, `Scaling.ZeroSideIffExtremeRatio` and `Pipeline.ExtremeRatioFails` are facts of the exact arithmetic and share this gap.
- Fetching the object, building the storage client, decoding and encoding the image, and uploading are calls into libraries this model does not contain; their results are inputs (`Pipeline.Environment`), and a failure to build the client is counted as a failed fetch.
- The white background fill and the bilinear redraw of the thumbnail are raster operations inside the imaging library; only the size of the thumbnail is modelled.
- Log and error output, and the process exit itself, are not modelled; the exit is the outcome `Exited(1)`.
- The event record: only the first record's bucket name and URL-decoded key are inputs. The URL decoding belongs to the event library, and an event with no record is not modelled.
- `Pipeline.ExtremeRatioFails` relies on the image constructor refusing a side of 0, which is documented library behaviour outside this model.
