/**
 * The two image types the handler accepts, each bound to the type name it is
 * recognised by (and passed to the encoder as) and to its MIME type.
 */
module Formats {

  import opened Wrappers

  const JpgType: string := "jpg"
  const JpgMime: string := "image/jpeg"
  const PngType: string := "png"
  const PngMime: string := "image/png"

  datatype ImageFormat = Jpg | Png

  /** The name a format is recognised by: a non-empty text without a dot, so a key can end in it. */
  function TypeName(f: ImageFormat): (name: string)
    ensures name != [] && '.' !in name
  {
    match f
    case Jpg => JpgType
    case Png => PngType
  }

  /** The MIME type uploaded with a format: always a subtype of "image/". */
  function Mime(f: ImageFormat): (mime: string)
    ensures "image/" < mime
  {
    match f
    case Jpg => JpgMime
    case Png => PngMime
  }

  /**
   * The acceptance test on the inferred type: exact, case-sensitive equality
   * with "jpg" or "png"; every other string is refused.
   */
  function ParseType(t: string): (r: Option<ImageFormat>)
    ensures r.Some? ==> TypeName(r.value) == t
    ensures r.None? ==> forall f: ImageFormat :: TypeName(f) != t
  {
    if t == JpgType then Some(Jpg)
    else if t == PngType then Some(Png)
    else None
  }

  /**
   * The content type put into the upload metadata: unset at first, then set
   * by two independent checks on the type name, one per known type.
   */
  function ContentType(t: string): (r: Option<string>)
    ensures r.Some? ==> exists f: ImageFormat :: TypeName(f) == t && r.value == Mime(f)
    ensures (exists f: ImageFormat :: TypeName(f) == t) ==> r.Some?
  {
    var unset: Option<string> := None;
    var afterJpg := if t == JpgType then Some(JpgMime) else unset;
    assert TypeName(Jpg) == JpgType && TypeName(Png) == PngType;
    if t == PngType then Some(PngMime) else afterJpg
  }

  /** Every format is recognised by its own name, and only by it. */
  lemma ParseTypeInvertsTypeName(f: ImageFormat, t: string)
    ensures ParseType(TypeName(f)) == Some(f)
    ensures ParseType(t) == Some(f) <==> t == TypeName(f)
  {
  }

  /** Names that differ from "jpg" and "png" in case or spelling are refused. */
  lemma ParseTypeRefuses()
    ensures ParseType("PNG") == None
    ensures ParseType("JPG") == None
    ensures ParseType("jpeg") == None
    ensures ParseType("") == None
  {
  }

  /** An accepted type gets exactly its format's MIME type, and a refused one would get none. */
  lemma ContentTypeMatchesFormat(t: string)
    ensures ContentType(t).Some? <==> ParseType(t).Some?
    ensures ParseType(t).Some? ==> ContentType(t) == Some(Mime(ParseType(t).value))
  {
  }

  /** The MIME table is one-to-one: an uploaded content type tells the format apart. */
  lemma MimeInjective(f: ImageFormat, g: ImageFormat)
    ensures Mime(f) == Mime(g) <==> f == g
  {
  }
}
