/** Recovering an object key from a stored S3 URL, and who may view a recording
    (src/lib/security/presigned-urls.ts).

    `new URL(s3Url)` is not modelled: a URL is given as its parsed `hostname`
    and `pathname`, or as `None` when it does not parse.  Signing and the
    database lookup are outside the model; the lookup's answer is a parameter. */
module PresignedUrls {
  import opened Text

  datatype ParsedUrl = ParsedUrl(hostname: string, pathname: string)

  /** `parts.filter(Boolean)` on strings: the non-empty ones, in order. */
  function NonEmpty(parts: seq<string>): (r: seq<string>)
    ensures |r| <= |parts|
    ensures forall k :: 0 <= k < |r| ==> r[k] != "" && r[k] in parts
  {
    if |parts| == 0 then []
    else if parts[0] == "" then NonEmpty(parts[1..])
    else [parts[0]] + NonEmpty(parts[1..])
  }

  lemma {:induction false} NonEmptyAppend(a: seq<string>, b: seq<string>)
    ensures NonEmpty(a + b) == NonEmpty(a) + NonEmpty(b)
  {
    if |a| > 0 {
      assert (a + b)[1..] == a[1..] + b;
      NonEmptyAppend(a[1..], b);
    } else {
      assert a + b == b;
    }
  }

  lemma {:induction false} NonEmptyOfNonEmpty(parts: seq<string>)
    requires forall k :: 0 <= k < |parts| ==> parts[k] != ""
    ensures NonEmpty(parts) == parts
  {
    if |parts| > 0 {
      NonEmptyOfNonEmpty(parts[1..]);
    }
  }

  /** `extractS3Key`.  A host beginning "s3." is path-style: drop the first
      non-empty path segment, the bucket, and join the rest with '/'.  Any other
      host containing ".s3." is virtual-hosted: the pathname without its first
      character.  Anything else, or a URL that does not parse, has no key. */
  function ExtractS3Key(url: Option<ParsedUrl>): (key: Option<string>)
    ensures url.None? ==> key.None?
    ensures url.Some? && StartsWith(url.value.hostname, "s3.") ==>
      key == Some(Join(Drop1(NonEmpty(SplitOn(url.value.pathname, '/'))), "/"))
    ensures url.Some? && !StartsWith(url.value.hostname, "s3.") ==>
      (key.Some? <==> Contains(url.value.hostname, ".s3."))
    ensures url.Some? && !StartsWith(url.value.hostname, "s3.") && key.Some? ==>
      (|url.value.pathname| > 0 ==> [url.value.pathname[0]] + key.value == url.value.pathname)
  {
    match url
    case None => None
    case Some(u) =>
      if StartsWith(u.hostname, "s3.") then
        var pathParts := NonEmpty(SplitOn(u.pathname, '/'));
        Some(Join(Drop1(pathParts), "/"))
      else if Contains(u.hostname, ".s3.") then
        Some(if 1 <= |u.pathname| then u.pathname[1..] else "")
      else None
  }

  /** `Array.prototype.shift` for the remaining elements: the empty list stays empty. */
  function Drop1(parts: seq<string>): (r: seq<string>)
    ensures |parts| > 0 ==> [parts[0]] + r == parts
    ensures |parts| == 0 ==> r == []
  {
    if |parts| == 0 then [] else parts[1..]
  }

  /** Path-style: for a segment-free bucket and a key of non-empty segments, the
      key comes back; slashes doubled or leading never make empty segments. */
  lemma PathStyleKey(hostname: string, bucket: string, key: string)
    requires StartsWith(hostname, "s3.")
    requires bucket != "" && '/' !in bucket
    requires forall k :: 0 <= k < |SplitOn(key, '/')| ==> SplitOn(key, '/')[k] != ""
    ensures ExtractS3Key(Some(ParsedUrl(hostname, "/" + bucket + "/" + key))) == Some(key)
  {
    var path := "/" + bucket + "/" + key;
    assert path == "" + ['/'] + (bucket + ['/'] + key);
    SplitOnFirstPart("", bucket + ['/'] + key, '/');
    SplitOnFirstPart(bucket, key, '/');
    assert SplitOn(path, '/') == [""] + ([bucket] + SplitOn(key, '/'));
    NonEmptyAppend([""], [bucket] + SplitOn(key, '/'));
    NonEmptyAppend([bucket], SplitOn(key, '/'));
    NonEmptyOfNonEmpty(SplitOn(key, '/'));
    assert NonEmpty([""]) == [] && NonEmpty([bucket]) == [bucket];
    assert NonEmpty(SplitOn(path, '/')) == [bucket] + SplitOn(key, '/');
    JoinSplit(key, '/');
  }

  /** A path-style URL naming only a bucket yields the empty key. */
  lemma BucketOnlyPathStyleKey(hostname: string, bucket: string)
    requires StartsWith(hostname, "s3.")
    requires '/' !in bucket
    ensures ExtractS3Key(Some(ParsedUrl(hostname, "/" + bucket))) == Some("")
  {
    var path := "/" + bucket;
    assert path == "" + ['/'] + bucket;
    SplitOnFirstPart("", bucket, '/');
    SplitOnSeparatorFree(bucket, '/');
    assert SplitOn(path, '/') == ["", bucket];
    assert NonEmpty(["", bucket]) == NonEmpty([bucket]);
  }

  /** The URL `uploadToS3` returns (src/lib/s3.ts) for `folder/fileName`, as the
      URL parser splits it, when the bucket name does not begin with "s3." and
      the key needs no percent-encoding. */
  function UploadedUrl(bucket: string, region: string, folder: string, fileName: string): ParsedUrl {
    ParsedUrl(bucket + ".s3." + region + ".amazonaws.com", "/" + folder + "/" + fileName)
  }

  /** A character the URL parser keeps as it is in a path: an unreserved
      character of section 2.3 of RFC 3986, or the segment separator '/'. */
  predicate IsPlainPathChar(c: char) {
    ('a' <= c <= 'z') || ('A' <= c <= 'Z') || ('0' <= c <= '9')
    || c == '-' || c == '.' || c == '_' || c == '~' || c == '/'
  }

  /** A key part that `new URL` neither percent-encodes nor cuts short. */
  predicate NeedsNoEncoding(s: string) {
    forall i :: 0 <= i < |s| ==> IsPlainPathChar(s[i])
  }

  /** Round trip: the key extracted from an uploaded object's URL is the key it
      was stored under, for a key the URL parser keeps unchanged. */
  lemma UploadedUrlRoundTrip(bucket: string, region: string, folder: string, fileName: string)
    requires !StartsWith(bucket + ".s3." + region + ".amazonaws.com", "s3.")
    requires NeedsNoEncoding(folder) && NeedsNoEncoding(fileName)
    ensures ExtractS3Key(Some(UploadedUrl(bucket, region, folder, fileName))) == Some(folder + "/" + fileName)
  {
    var host := bucket + ".s3." + region + ".amazonaws.com";
    assert host == bucket + ".s3." + (region + ".amazonaws.com");
    ContainsAt(host, ".s3.", |bucket|);
    assert ("/" + folder + "/" + fileName)[1..] == folder + "/" + fileName;
  }

  datatype KeyResult = InvalidS3Url | Key(key: string)

  /** The guard of `getPresignedUrlFromS3Url`: a missing key and the empty key
      are both rejected with "Invalid S3 URL format". */
  function PresignKey(url: Option<ParsedUrl>): (r: KeyResult)
    ensures r.Key? <==> ExtractS3Key(url).Some? && ExtractS3Key(url).value != ""
    ensures r.Key? ==> r.key == ExtractS3Key(url).value
  {
    var key := ExtractS3Key(url);
    if key.None? || key.value == "" then InvalidS3Url else Key(key.value)
  }

  const INVALID_S3_URL_MESSAGE := "Invalid S3 URL format"

  /** `canAccessRecording`.  `owner` is the recruiter lookup for the submission:
      `None` when no row is found, `Some(None)` when the row has no test owner,
      `Some(Some(id))` otherwise.  It is consulted only for recruiters. */
  function CanAccessRecording(userId: string, userRole: string, owner: Option<Option<string>>): (allowed: bool)
    ensures userRole == "admin" ==> allowed
    ensures userRole == "recruiter" ==> (allowed <==> owner == Some(Some(userId)))
    ensures userRole != "admin" && userRole != "recruiter" ==> !allowed
  {
    if userRole == "admin" then true
    else if userRole == "recruiter" then
      match owner
      case None => false
      case Some(recruiterId) => recruiterId == Some(userId)
    else false
  }

  /** Access is granted only to an admin or to the recruiter who owns the test. */
  lemma AccessOnlyForAdminOrOwner(userId: string, userRole: string, owner: Option<Option<string>>)
    requires CanAccessRecording(userId, userRole, owner)
    ensures userRole == "admin" || (userRole == "recruiter" && owner == Some(Some(userId)))
  {
  }
}
