/**
 * `getVideoAspectRatio` (get_video_aspect.go): classify a video by the
 * geometry of the first stream ffprobe reports. The probe run and the JSON
 * decoding are external; their outcome is an input. The source divides two
 * float64 values; here the ratio is the exact quotient, and the tolerance
 * bands are tested by integer cross-multiplication, proved equal to the
 * comparison of the exact quotient with 1.7, 1.8, 0.5 and 0.6. That matches
 * the float64 comparison only while the height stays below about 10^15 in
 * magnitude: beyond it a quotient just above 1.7 can round down to the double
 * nearest 1.7 (w = 3400000000000012, h = 2000000000000007 is "landscape" here
 * and "other" in float64).
 */
module VideoAspect {
  import opened Wrappers
  import opened Records

  /** One entry of ffprobe's "streams" array, as decoded. */
  datatype Stream = Stream(index: int, width: int, height: int)

  /** What running ffprobe and decoding its output produced. */
  datatype ProbeOutcome =
    | ProbeRunFailed(err: Error)         // cmd.Run() failed
    | OutputUndecodable(err: Error)      // json.Unmarshal failed
    | Decoded(streams: seq<Stream>)

  const NoStreamsError := Error("No streams present")
  const ZeroDimensionError := Error("Can't have zero height or width")

  const Landscape := "landscape"
  const Portrait := "portrait"
  const Other := "other"

  /** The width-to-height ratio, exactly. */
  function Ratio(w: int, h: int): real
    requires h != 0
  {
    w as real / h as real
  }

  /** The landscape tolerance band, on the exact ratio. */
  predicate IsLandscapeRatio(w: int, h: int)
    requires h != 0
  {
    1.7 < Ratio(w, h) < 1.8
  }

  /** The portrait tolerance band, on the exact ratio. */
  predicate IsPortraitRatio(w: int, h: int)
    requires h != 0
  {
    0.5 < Ratio(w, h) < 0.6
  }

  /** `1.7 < w/h < 1.8` without division; the comparisons flip when h is negative. */
  predicate InLandscapeBand(w: int, h: int)
  {
    if h > 0 then 17 * h < 10 * w < 18 * h else 18 * h < 10 * w < 17 * h
  }

  /** `0.5 < w/h < 0.6` without division. */
  predicate InPortraitBand(w: int, h: int)
  {
    if h > 0 then 5 * h < 10 * w < 6 * h else 6 * h < 10 * w < 5 * h
  }

  /** Comparing the quotient with a bound is comparing the numerator with the scaled bound. */
  lemma RatioComparison(w: int, h: int, c: real)
    requires h != 0
    ensures c < Ratio(w, h) <==> (if h > 0 then c * h as real < w as real else w as real < c * h as real)
    ensures Ratio(w, h) < c <==> (if h > 0 then w as real < c * h as real else c * h as real < w as real)
  {
  }

  lemma LandscapeBandIsRatio(w: int, h: int)
    requires h != 0
    ensures InLandscapeBand(w, h) <==> IsLandscapeRatio(w, h)
  {
    RatioComparison(w, h, 1.7);
    RatioComparison(w, h, 1.8);
  }

  lemma PortraitBandIsRatio(w: int, h: int)
    requires h != 0
    ensures InPortraitBand(w, h) <==> IsPortraitRatio(w, h)
  {
    RatioComparison(w, h, 0.5);
    RatioComparison(w, h, 0.6);
  }

  /**
   * The part of `getVideoAspectRatio` after decoding: reject an empty stream
   * list and a zero dimension of the first stream, then start from "other"
   * and let the landscape test and then the portrait test overwrite it.
   * Errors come back as Go does, with the empty string.
   */
  function AspectFromStreams(streams: seq<Stream>): (r: (string, Option<Error>))
    ensures |streams| == 0 ==> r == ("", Some(NoStreamsError))
    ensures |streams| > 0 && (streams[0].height == 0 || streams[0].width == 0) ==>
              r == ("", Some(ZeroDimensionError))
    ensures r.1.None? <==> |streams| > 0 && streams[0].height != 0 && streams[0].width != 0
    ensures r.1.None? ==> (r.0 == Landscape <==> IsLandscapeRatio(streams[0].width, streams[0].height))
    ensures r.1.None? ==> (r.0 == Portrait <==> IsPortraitRatio(streams[0].width, streams[0].height))
    ensures r.1.None? ==> (r.0 == Other <==>
              !IsLandscapeRatio(streams[0].width, streams[0].height) &&
              !IsPortraitRatio(streams[0].width, streams[0].height))
  {
    if |streams| == 0 then ("", Some(NoStreamsError))
    else
      var h, w := streams[0].height, streams[0].width;
      if h == 0 || w == 0 then ("", Some(ZeroDimensionError))
      else
        LandscapeBandIsRatio(w, h);
        PortraitBandIsRatio(w, h);
        var afterLandscape := if InLandscapeBand(w, h) then Landscape else Other;
        var afterPortrait := if InPortraitBand(w, h) then Portrait else afterLandscape;
        (afterPortrait, None)
  }

  /** `getVideoAspectRatio`: a failed probe run or undecodable output is passed on with "". */
  function GetVideoAspectRatio(probe: ProbeOutcome): (r: (string, Option<Error>))
    ensures probe.ProbeRunFailed? || probe.OutputUndecodable? ==> r == ("", Some(probe.err))
    ensures r.1.None? ==> r.0 == Landscape || r.0 == Portrait || r.0 == Other
    ensures r.1.Some? ==> r.0 == ""
    ensures probe.Decoded? ==> r == AspectFromStreams(probe.streams)
  {
    match probe
    case ProbeRunFailed(err) => ("", Some(err))
    case OutputUndecodable(err) => ("", Some(err))
    case Decoded(streams) => AspectFromStreams(streams)
  }

  /** The two bands do not overlap, so the order of the two tests does not matter. */
  lemma BandsDisjoint(w: int, h: int)
    requires h != 0
    ensures !(IsLandscapeRatio(w, h) && IsPortraitRatio(w, h))
    ensures !(InLandscapeBand(w, h) && InPortraitBand(w, h))
  {
  }

  /** Streams after the first never affect the classification. */
  lemma OnlyFirstStreamCounts(streams: seq<Stream>, later: seq<Stream>)
    requires |streams| > 0
    ensures AspectFromStreams([streams[0]] + later) == AspectFromStreams(streams)
  {
  }

  /** Common sizes, and the band endpoints, which are excluded. */
  lemma ClassificationExamples()
    ensures AspectFromStreams([Stream(0, 1920, 1080)]) == (Landscape, None)
    ensures AspectFromStreams([Stream(0, 1080, 1920)]) == (Portrait, None)
    ensures AspectFromStreams([Stream(0, 1000, 1000)]) == (Other, None)
    ensures AspectFromStreams([Stream(0, 17, 10)]) == (Other, None)
    ensures AspectFromStreams([Stream(0, 9, 5)]) == (Other, None)
    ensures AspectFromStreams([Stream(0, 1, 2)]) == (Other, None)
    ensures AspectFromStreams([Stream(0, 3, 5)]) == (Other, None)
    ensures AspectFromStreams([Stream(0, -1920, -1080)]) == (Landscape, None)
    ensures AspectFromStreams([Stream(0, 0, 1080), Stream(1, 1920, 1080)]) == ("", Some(ZeroDimensionError))
  {
  }
}
