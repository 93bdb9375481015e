/**
 * Image-type inference: the key is matched as a whole against the Java regular
 * expression `.*\.([^\.]*)` and group 1 is the inferred type.
 *
 * In Java's default mode `.` matches any character except a line terminator,
 * while the negated class `[^\.]` matches every character but the dot,
 * line terminators included.
 */
module TypeInference {

  import opened Wrappers

  /** The characters Java's `.` refuses outside DOTALL and UNIX_LINES mode. */
  predicate IsLineTerminator(c: char)
  {
    c == '\n' || c == '\r' || c == '\U{85}' || c == '\U{2028}' || c == '\U{2029}'
  }

  /** What `.*` can consume. */
  predicate NoLineTerminator(s: string)
  {
    forall j :: 0 <= j < |s| ==> !IsLineTerminator(s[j])
  }

  /**
   * Reference semantics of `.*\.([^\.]*)` matched against all of `s`, with
   * the escaped dot at index `i`: `.*` takes `s[..i]`, `\.` takes `s[i]` and
   * the group takes `s[i + 1..]`.
   */
  ghost predicate MatchesAt(s: string, i: int)
  {
    0 <= i < |s| && s[i] == '.' && NoLineTerminator(s[..i]) && '.' !in s[i + 1..]
  }

  /** `Matcher.matches()` for the pattern. */
  ghost predicate Matches(s: string)
  {
    exists i :: MatchesAt(s, i)
  }

  /** Index of the last `.` in `s`, if there is one. */
  function LastDot(s: string): (r: Option<nat>)
    ensures r.None? <==> '.' !in s
    ensures r.Some? ==> r.value < |s| && s[r.value] == '.' && '.' !in s[r.value + 1..]
  {
    if s == [] then None
    else if s[|s| - 1] == '.' then Some(|s| - 1)
    else
      var init := s[..|s| - 1];
      assert s == init + [s[|s| - 1]];
      var r := LastDot(init);
      assert r.Some? ==> s[r.value + 1..] == init[r.value + 1..] + [s[|s| - 1]];
      r
  }

  /**
   * The type the handler infers from a key: `None` when the pattern does not
   * match, else group 1, the (possibly empty) text after the last dot.
   */
  function InferType(key: string): (r: Option<string>)
    ensures r.Some? ==> |r.value| < |key| && key[|key| - |r.value| - 1] == '.'
    ensures r.Some? ==> key[|key| - |r.value|..] == r.value && '.' !in r.value
    ensures r.Some? ==> NoLineTerminator(key[..|key| - |r.value| - 1])
  {
    match LastDot(key)
    case None => None
    case Some(i) => if NoLineTerminator(key[..i]) then Some(key[i + 1..]) else None
  }

  /** `'.' !in s[a..]`, read index by index. */
  lemma NoDotFrom(s: string, a: nat)
    requires a <= |s| && '.' !in s[a..]
    ensures forall k :: a <= k < |s| ==> s[k] != '.'
  {
    forall k | a <= k < |s|
      ensures s[k] != '.'
    {
      assert s[k] == s[a..][k - a];
    }
  }

  /** Only the last dot of a key can be the pattern's escaped dot. */
  lemma MatchIsAtLastDot(s: string, i: int)
    requires MatchesAt(s, i)
    ensures LastDot(s) == Some(i)
  {
    assert s[i] in s;
    var last := LastDot(s).value;
    NoDotFrom(s, last + 1);
    NoDotFrom(s, i + 1);
  }

  /**
   * `InferType` agrees with the regular expression: it answers exactly when the
   * key matches, and then with the text the group captures.
   */
  lemma InferTypeIsRegexMatch(key: string)
    ensures InferType(key).Some? <==> Matches(key)
    ensures forall i :: MatchesAt(key, i) ==> InferType(key) == Some(key[i + 1..])
  {
    forall i | MatchesAt(key, i)
      ensures InferType(key) == Some(key[i + 1..])
    {
      MatchIsAtLastDot(key, i);
    }
    if InferType(key).Some? {
      assert MatchesAt(key, LastDot(key).value);
    }
  }

  /** A key without a dot never matches. */
  lemma NoDotNoType(key: string)
    requires '.' !in key
    ensures InferType(key) == None && !Matches(key)
  {
    InferTypeIsRegexMatch(key);
  }

  /** With no line terminator before it, the last dot decides the type, even when nothing follows it. */
  lemma TypeIsSuffixAfterLastDot(key: string, i: nat)
    requires i < |key| && key[i] == '.' && '.' !in key[i + 1..]
    requires NoLineTerminator(key[..i])
    ensures InferType(key) == Some(key[i + 1..])
  {
    assert MatchesAt(key, i);
    InferTypeIsRegexMatch(key);
  }

  /** A line terminator anywhere before the last dot defeats `.*`, so the key does not match. */
  lemma LineTerminatorBeforeDot(key: string, j: nat, i: nat)
    requires j < i < |key| && IsLineTerminator(key[j]) && key[i] == '.'
    ensures InferType(key) == None
  {
    assert key[i] in key;
    var last := LastDot(key).value;
    NoDotFrom(key, last + 1);
    assert key[..last][j] == key[j];
  }

  /** Keys with a dot: the type is whatever follows it. */
  lemma InferTypeExamples()
    ensures InferType("photo.jpg") == Some("jpg")
    ensures InferType("pics/cat.png") == Some("png")
  {
    TypeIsSuffixAfterLastDot("photo.jpg", 5);
    TypeIsSuffixAfterLastDot("pics/cat.png", 8);
  }

  /** With several dots, only the last one counts. */
  lemma InferTypeManyDotsExample()
    ensures InferType("archive.tar.gz") == Some("gz")
  {
    TypeIsSuffixAfterLastDot("archive.tar.gz", 11);
  }

  /** No normalisation: letter case is kept, the type may be empty, and the group may hold a line terminator. */
  lemma InferTypeVerbatimExamples()
    ensures InferType("icon.PNG") == Some("PNG")
    ensures InferType("file.") == Some("")
    ensures InferType("a.jp\ng") == Some("jp\ng")
  {
    TypeIsSuffixAfterLastDot("icon.PNG", 4);
    TypeIsSuffixAfterLastDot("file.", 4);
    assert "file."[5..] == "";
    TypeIsSuffixAfterLastDot("a.jp\ng", 1);
  }

  /** Keys the pattern refuses: no dot at all, or a line terminator before the last dot. */
  lemma NoTypeExamples()
    ensures InferType("noextension") == None
    ensures InferType("a\nb.jpg") == None
    ensures InferType("a.b\r.c") == None
  {
    NoDotNoType("noextension");
    LineTerminatorBeforeDot("a\nb.jpg", 1, 3);
    LineTerminatorBeforeDot("a.b\r.c", 3, 4);
  }
}
