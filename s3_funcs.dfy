/**
 * s3funcs.go: the read path that turns a stored reference "bucket,key" into
 * a short-lived signed URL. The object store's presigner is an input.
 */
module S3Funcs {
  import opened Wrappers
  import opened Records
  import opened GoStrings

  /** `time.Minute * 3`. */
  const SignedUrlLifetime: Duration := 3 * 60 * 1000000000

  const MalformedReferenceError := Error("Failed to correctly parse VideoURL from video struct")

  /**
   * `generatePresignedURL`: the presigned URL, or, when presigning fails, the
   * empty string together with a nil error; no error ever comes back.
   */
  function GeneratePresignedUrl(presign: Presigner, bucket: string, key: string, expire: Duration): (r: (string, Option<Error>))
    ensures r.1.None?
    ensures r.0 == "" ==> presign(bucket, key, expire) == None || presign(bucket, key, expire) == Some("")
    ensures r.0 != "" ==> presign(bucket, key, expire) == Some(r.0)
  {
    var req := presign(bucket, key, expire);
    if req.None? then ("", None) else (req.value, None)
  }

  /** A stored reference that is present, not empty, and does not hold exactly one ','. */
  predicate IsMalformedReference(url: Option<string>)
  {
    url.Some? && url.value != "" && Count(url.value, ',') != 1
  }

  /**
   * `dbVideoToSignedVideo`: a missing or empty reference passes through; a
   * reference that does not split into exactly two pieces at ',' fails with
   * the zero Video; otherwise the two pieces are signed for three minutes and
   * the result replaces the reference in the returned copy.
   */
  function DbVideoToSignedVideo(presign: Presigner, video: Video): (r: (Video, Option<Error>))
    ensures video.videoUrl.None? || video.videoUrl.value == "" ==> r == (video, None)
    ensures r.1.Some? <==> IsMalformedReference(video.videoUrl)
    ensures r.1.Some? ==> r == (ZeroVideo, Some(MalformedReferenceError))
    ensures r.1.None? ==> r.0 == video.(videoUrl := r.0.videoUrl)
  {
    if video.videoUrl.None? || video.videoUrl.value == "" then (video, None)
    else
      var slicedUrl := Split(video.videoUrl.value, ',');
      if |slicedUrl| != 2 then (ZeroVideo, Some(MalformedReferenceError))
      else
        var bucket, key := slicedUrl[0], slicedUrl[1];
        var (url, err) := GeneratePresignedUrl(presign, bucket, key, SignedUrlLifetime);
        if err.Some? then (ZeroVideo, err)
        else (video.(videoUrl := Some(url)), None)
  }

  /**
   * A reference "bucket,key" whose halves hold no ',' is signed for exactly
   * that bucket and key; a failed presign leaves the empty string.
   */
  lemma {:induction false} SignsBothHalves(presign: Presigner, video: Video, bucket: string, key: string)
    requires video.videoUrl == Some(bucket + [','] + key)
    requires ',' !in bucket && ',' !in key
    ensures DbVideoToSignedVideo(presign, video).1 == None
    ensures DbVideoToSignedVideo(presign, video).0 ==
      video.(videoUrl := Some(
        var signed := presign(bucket, key, SignedUrlLifetime);
        if signed.Some? then signed.value else ""))
  {
    SplitJoin([bucket, key], ',');
    assert Join([bucket, key], ',') == bucket + [','] + key by {
      assert [bucket, key][1..] == [key];
    }
  }

  /** The reference "," has two empty halves, and is signed as bucket "" and key "". */
  lemma EmptyHalvesAccepted(presign: Presigner, video: Video)
    requires video.videoUrl == Some(",")
    ensures DbVideoToSignedVideo(presign, video).1 == None
    ensures presign("", "", SignedUrlLifetime) == Some("https://signed") ==>
      DbVideoToSignedVideo(presign, video).0.videoUrl == Some("https://signed")
  {
  }

  /** A missing or empty reference never consults the presigner. */
  lemma EmptyReferenceIgnoresSigner(p: Presigner, q: Presigner, video: Video)
    requires video.videoUrl.None? || video.videoUrl.value == ""
    ensures DbVideoToSignedVideo(p, video) == DbVideoToSignedVideo(q, video)
  {
  }
}
