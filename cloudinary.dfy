/**
 * The image-upload helper: extraction of a Cloudinary public id from a
 * delivery URL (the regular expression `/\/upload\/(?:v\d+\/)?(.+)\.[a-zA-Z]+$/`)
 * and the decision, after a successful upload, of which old image to destroy.
 */
module CloudinaryConfig {
  import opened Common

  const UploadMarker := "/upload/"
  const HostMarker := "cloudinary.com"

  predicate IsAsciiLetter(c: char)
  {
    'a' <= c <= 'z' || 'A' <= c <= 'Z'
  }

  /** The characters `.` in a JavaScript regular expression does not match. */
  predicate IsLineTerminator(c: char)
  {
    c == '\n' || c == '\r' || c == '\U{2028}' || c == '\U{2029}'
  }

  /** `[a-zA-Z]+` */
  predicate Extension(s: string)
  {
    s != [] && forall i :: 0 <= i < |s| ==> IsAsciiLetter(s[i])
  }

  /** `.+` can match all of `s` only when `s` has no line terminator. */
  predicate SingleLine(s: string)
  {
    forall i :: 0 <= i < |s| ==> !IsLineTerminator(s[i])
  }

  /** `v\d+\/` */
  predicate VersionSegment(s: string)
  {
    |s| >= 3 && s[0] == 'v' && s[|s| - 1] == '/' && AllDigits(s[1..|s| - 1])
  }

  /** `s` is `id`, a dot and an extension, as `(.+)\.[a-zA-Z]+$` reads it. */
  predicate Splits(s: string, id: string, ext: string)
  {
    s == id + "." + ext && id != "" && SingleLine(id) && Extension(ext)
  }

  /** Index of the last `.` of `s`, or -1. */
  function LastDot(s: string): (k: int)
    ensures -1 <= k < |s|
    ensures k >= 0 ==> s[k] == '.'
    ensures forall j :: k < j < |s| ==> s[j] != '.'
  {
    if s == [] then -1
    else if s[|s| - 1] == '.' then |s| - 1
    else LastDot(s[..|s| - 1])
  }

  lemma {:induction false} LastDotOfSuffix(s: string, j: nat)
    requires j <= |s| && LastDot(s[j..]) >= 0
    ensures LastDot(s) == j + LastDot(s[j..])
  {
    var k := LastDot(s[j..]);
    assert s[j + k] == s[j..][k] == '.';
    forall x | j + k < x < |s|
      ensures s[x] != '.'
    {
      assert s[x] == s[j..][x - j];
    }
  }

  /** `(.+)\.[a-zA-Z]+$` matched against all of `s`: the captured id. */
  function IdBeforeExtension(s: string): (r: Option<string>)
    ensures r.Some? ==> |r.value| == LastDot(s) && Splits(s, r.value, s[|r.value| + 1..])
  {
    var k := LastDot(s);
    if 1 <= k && Extension(s[k + 1..]) && SingleLine(s[..k]) then
      assert s == s[..k] + "." + s[k + 1..];
      Some(s[..k])
    else
      None
  }

  /** The split is unique: an extension holds no dot, so the id ends at the last dot. */
  lemma IdBeforeExtensionExact(s: string, id: string, ext: string)
    requires Splits(s, id, ext)
    ensures IdBeforeExtension(s) == Some(id)
  {
    assert s[|id|] == '.';
    forall j | |id| < j < |s|
      ensures s[j] != '.'
    {
      assert s[j] == ext[j - |id| - 1];
    }
    assert LastDot(s) == |id|;
    assert s[..|id|] == id && s[|id| + 1..] == ext;
  }

  /** End of the run of digits of `s` that starts at `i`. */
  function DigitRunEnd(s: string, i: nat): (j: nat)
    requires i <= |s|
    ensures i <= j <= |s| && AllDigits(s[i..j]) && (j == |s| || !IsDigit(s[j]))
    decreases |s| - i
  {
    if i < |s| && IsDigit(s[i]) then
      var j := DigitRunEnd(s, i + 1);
      assert s[i..j] == [s[i]] + s[i + 1..j];
      j
    else i
  }

  /** Length of the `v\d+\/` prefix of `s` that `(?:v\d+\/)?` consumes, or 0. */
  function VersionLength(s: string): (n: nat)
    ensures n <= |s|
    ensures n > 0 ==> VersionSegment(s[..n])
  {
    if |s| >= 1 && s[0] == 'v' then
      var j := DigitRunEnd(s, 1);
      if j > 1 && j < |s| && s[j] == '/' then
        assert s[..j + 1][1..j] == s[1..j];
        j + 1
      else 0
    else 0
  }

  lemma VersionLengthOfSegment(v: string, rest: string)
    requires VersionSegment(v)
    ensures VersionLength(v + rest) == |v|
  {
    var s := v + rest;
    assert s[..|v|] == v;
    var j := DigitRunEnd(s, 1);
    forall x | 1 <= x < |v| - 1
      ensures IsDigit(s[x])
    {
      assert s[x] == v[1..|v| - 1][x - 1];
    }
    forall x | 1 <= x < j
      ensures IsDigit(s[x])
    {
      assert s[x] == s[1..j][x - 1];
    }
    assert !IsDigit(s[|v| - 1]);
  }

  /**
   * The part of the pattern after `/upload/`, matched against the rest `t`
   * of the URL: first with the optional version segment, then, by
   * backtracking, without it.
   */
  function MatchAfterUpload(t: string): (r: Option<string>)
  {
    IdBeforeExtension(t[CaptureStart(t)..])
  }

  /** Where the capture group starts: after the version segment when the rest matches, else at once. */
  function CaptureStart(t: string): (n: nat)
    ensures n <= |t|
  {
    var n := VersionLength(t);
    if n > 0 && IdBeforeExtension(t[n..]).Some? then n else 0
  }

  /** The leftmost `/upload/` at or after `i` from which the pattern matches. */
  function MatchFrom(url: string, i: nat): (r: Option<string>)
    ensures r.Some? ==> exists j :: i <= j && OccursAt(url, UploadMarker, j)
    ensures r.Some? ==> var k := LastDot(url);
      |r.value| <= k && url[k - |r.value|..k] == r.value && Extension(url[k + 1..])
    decreases |url| - i
  {
    if i + |UploadMarker| > |url| then None
    else if OccursAt(url, UploadMarker, i) && MatchAfterUpload(url[i + |UploadMarker|..]).Some? then
      MatchAfterUploadSound(url, i);
      MatchAfterUpload(url[i + |UploadMarker|..])
    else MatchFrom(url, i + 1)
  }

  lemma SliceOfSuffix(s: string, a: nat, b: nat)
    requires a + b <= |s|
    ensures s[a..][..b] == s[a..a + b] && s[a..][b..] == s[a + b..]
  {
  }

  lemma ConcatParts(a: string, b: string, c: string)
    ensures (a + b + c)[|a|..|a| + |b|] == b && (a + b + c)[|a| + |b|..] == c
  {
  }

  /** An id found in a suffix of the URL sits right before the URL's last dot. */
  lemma IdInSuffix(url: string, start: nat)
    requires start <= |url| && IdBeforeExtension(url[start..]).Some?
    ensures var id := IdBeforeExtension(url[start..]).value; var k := LastDot(url);
      k == start + |id| && url[start..k] == id && Extension(url[k + 1..])
  {
    var u := url[start..];
    var id := IdBeforeExtension(u).value;
    LastDotOfSuffix(url, start);
    SliceOfSuffix(url, start, |id|);
    SliceOfSuffix(url, start, |id| + 1);
  }

  /** A match found after the marker at `i` ends the URL: the id sits right before its last dot. */
  lemma MatchAfterUploadSound(url: string, i: nat)
    requires i + |UploadMarker| <= |url|
    requires MatchAfterUpload(url[i + |UploadMarker|..]).Some?
    ensures var r := MatchAfterUpload(url[i + |UploadMarker|..]); var k := LastDot(url);
      |r.value| <= k && url[k - |r.value|..k] == r.value && Extension(url[k + 1..])
  {
    var s := i + |UploadMarker|;
    var n := CaptureStart(url[s..]);
    SliceOfSuffix(url, s, n);
    IdInSuffix(url, s + n);
  }

  /** `extractPublicIdFromUrl(url)`: `matches ? matches[1] : null`. */
  function ExtractPublicIdFromUrl(url: string): (r: Option<string>)
    ensures r.Some? ==> Includes(url, UploadMarker)
    ensures r.Some? ==> var k := LastDot(url);
      |r.value| <= k && url[k - |r.value|..k] == r.value && Extension(url[k + 1..])
  {
    MatchFrom(url, 0)
  }

  lemma {:induction false} MatchFromSkips(url: string, i: nat, target: nat)
    requires i <= target
    requires forall j :: i <= j < target ==> !OccursAt(url, UploadMarker, j)
    ensures MatchFrom(url, i) == MatchFrom(url, target)
    decreases target - i
  {
    if i < target {
      MatchFromSkips(url, i + 1, target);
    }
  }

  /**
   * Round trip: the URL Cloudinary returns for public id `id` (a prefix
   * without an earlier `/upload/`, the marker, a version segment, the id
   * and an extension) gives back exactly `id`.
   */
  lemma {:induction false} ExtractRoundTrip(url: string, prefix: string, version: string, tail: string, id: string, ext: string)
    requires url == prefix + UploadMarker + (version + tail)
    requires VersionSegment(version) && Splits(tail, id, ext)
    requires forall j :: 0 <= j < |prefix| ==> !OccursAt(url, UploadMarker, j)
    ensures ExtractPublicIdFromUrl(url) == Some(id)
  {
    MatchFromSkips(url, 0, |prefix|);
    ConcatParts(prefix, UploadMarker, version + tail);
    assert OccursAt(url, UploadMarker, |prefix|);
    var t := url[|prefix| + |UploadMarker|..];
    VersionLengthOfSegment(version, tail);
    assert t[|version|..] == tail;
    IdBeforeExtensionExact(tail, id, ext);
    assert MatchAfterUpload(t) == Some(id);
  }

  /**
   * The same round trip without a version segment: an id that does not
   * start with `v` cannot be mistaken for one, and comes back whole.
   */
  lemma {:induction false} ExtractRoundTripUnversioned(url: string, prefix: string, tail: string, id: string, ext: string)
    requires url == prefix + UploadMarker + tail
    requires Splits(tail, id, ext) && id[0] != 'v'
    requires forall j :: 0 <= j < |prefix| ==> !OccursAt(url, UploadMarker, j)
    ensures ExtractPublicIdFromUrl(url) == Some(id)
  {
    MatchFromSkips(url, 0, |prefix|);
    ConcatParts(prefix, UploadMarker, tail);
    assert OccursAt(url, UploadMarker, |prefix|);
    var t := url[|prefix| + |UploadMarker|..];
    assert t == tail && t[0] == id[0];
    assert VersionLength(t) == 0;
    IdBeforeExtensionExact(tail, id, ext);
    assert t[0..] == t;
    assert MatchAfterUpload(t) == Some(id);
  }

  /** Only the last extension is dropped: the greedy capture keeps the inner dot. */
  lemma ExampleInnerDotKept()
    ensures ExtractPublicIdFromUrl("/upload/a.b.png") == Some("a.b")
  {
    var url := "/upload/a.b.png";
    assert url == "" + UploadMarker + "a.b.png";
    assert Splits("a.b.png", "a.b", "png");
    ExtractRoundTripUnversioned(url, "", "a.b.png", "a.b", "png");
  }

  /** A URL without `/upload/` yields no public id. */
  lemma {:induction false} NoMarkerNoId(url: string)
    requires !Includes(url, UploadMarker)
    ensures ExtractPublicIdFromUrl(url) == None
  {
  }

  /** A URL that does not end in a letter (`.jp2`, a trailing slash) yields no public id. */
  lemma NoLetterAtEndNoId(url: string)
    ensures ExtractPublicIdFromUrl(url).Some? ==> url != [] && IsAsciiLetter(url[|url| - 1])
  {
    if ExtractPublicIdFromUrl(url).Some? {
      var k := LastDot(url);
      assert url[k + 1..][|url| - k - 2] == url[|url| - 1];
    }
  }

  lemma ExampleVersionedUrl()
    ensures ExtractPublicIdFromUrl(UploadMarker + "v123/" + "utilisateurs/abc.jpg") == Some("utilisateurs/abc")
  {
    var url := UploadMarker + "v123/" + "utilisateurs/abc.jpg";
    assert url == "" + UploadMarker + ("v123/" + "utilisateurs/abc.jpg");
    assert VersionSegment("v123/") by {
      assert "v123/"[1..4] == "123";
    }
    assert Splits("utilisateurs/abc.jpg", "utilisateurs/abc", "jpg");
    ExtractRoundTrip(url, "", "v123/", "utilisateurs/abc.jpg", "utilisateurs/abc", "jpg");
  }

  /** An extension that ends in a digit is not matched, so no id is extracted. */
  lemma ExampleDigitInExtension()
    ensures ExtractPublicIdFromUrl("https://res.cloudinary.com/upload/abc.jp2") == None
  {
    NoLetterAtEndNoId("https://res.cloudinary.com/upload/abc.jp2");
  }

  // ---------------------------------------------------------------------
  // handleImageUpload
  // ---------------------------------------------------------------------

  /** What the helper resolves to. */
  datatype UploadOutcome =
    | NoFile                                          // `return null` when no file was sent
    | UploadError                                     // rethrown as "Erreur lors de l'upload de l'image"
    | Uploaded(secureUrl: string, destroyed: Option<string>)  // the old image destroyed, if any

  /**
   * The public id of the previous image to destroy after an upload: only a
   * non-empty old URL on `cloudinary.com` whose public id can be extracted.
   */
  function OldImageToDestroy(oldImageUrl: Option<string>): (r: Option<string>)
    ensures r.Some? ==> Filled(oldImageUrl) && Includes(oldImageUrl.value, HostMarker)
    ensures r.Some? ==> ExtractPublicIdFromUrl(oldImageUrl.value) == r
    ensures Filled(oldImageUrl) && Includes(oldImageUrl.value, HostMarker) ==> r == ExtractPublicIdFromUrl(oldImageUrl.value)
  {
    if Filled(oldImageUrl) && Includes(oldImageUrl.value, HostMarker) then ExtractPublicIdFromUrl(oldImageUrl.value)
    else None
  }

  /**
   * `handleImageUpload(file, oldImageUrl)`. `hasFile` is `file` being
   * truthy, `hasBuffer` is `file.buffer` being truthy, `upload` is the
   * Cloudinary result (`None` when the upload stream reports an error).
   * A failed destroy of the old image is only logged, so it is not an input.
   */
  function HandleImageUpload(hasFile: bool, hasBuffer: bool, upload: Option<string>, oldImageUrl: Option<string>): (r: UploadOutcome)
    ensures r.NoFile? <==> !hasFile
    ensures r.Uploaded? <==> hasFile && hasBuffer && upload.Some?
    ensures r.Uploaded? ==> r.secureUrl == upload.value && r.destroyed == OldImageToDestroy(oldImageUrl)
  {
    if !hasFile then NoFile
    else if !hasBuffer || upload.None? then UploadError
    else Uploaded(upload.value, OldImageToDestroy(oldImageUrl))
  }
}
