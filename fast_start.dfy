/**
 * process_video_from_start.go: the ffmpeg "faststart" rewrite. Running ffmpeg
 * is external; whether it failed is an input.
 */
module FastStart {
  import opened Wrappers
  import opened Records

  const ProcessingSuffix := ".processing"

  /**
   * `processVideoForFastStart`: on success the path of the rewritten copy,
   * which extends the input path and so never is the input itself.
   */
  function ProcessVideoForFastStart(filePath: string, ffmpegFailure: Option<Error>): (r: (string, Option<Error>))
    ensures ffmpegFailure.Some? ==> r == ("", ffmpegFailure)
    ensures ffmpegFailure.None? ==>
      r.1.None? && |r.0| > |filePath| && r.0[..|filePath|] == filePath && r.0 != filePath
  {
    var outPath := filePath + ProcessingSuffix;
    if ffmpegFailure.Some? then ("", ffmpegFailure) else (outPath, None)
  }
}
