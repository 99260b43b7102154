/**
 * `handlerUploadVideo` (handler_upload_video.go) as a sequence of gates. Each
 * call into the outside world (token check, database, multipart parsing,
 * temporary files, ffprobe, ffmpeg, the object store) is an input outcome;
 * what the request does to the outside world is returned, in order, as a
 * ghost effect log. The deferred removals run, newest first, on every return
 * after the file they remove was made.
 */
module UploadVideo {
  import opened Wrappers
  import opened Records
  import opened Base64Url
  import opened VideoAspect
  import opened S3Funcs
  import opened FastStart
  import opened AssetNames

  /** `const maxMemory = 1 << 30`: the cap `http.MaxBytesReader` puts on the request body. */
  const MaxUploadBytes := 0x4000_0000

  const Mp4MediaType := "video/mp4"

  /** The outcomes of everything the handler asks of its collaborators. */
  datatype VideoUploadEnv = VideoUploadEnv(
    parsedId: Uuid,                                  // the UUID uuid.Parse returns for the path value "videoID"
    parseFailed: bool,                               // whether it also returned an error (never looked at)
    bodyLength: nat,                                 // size of the request body
    bearerToken: Option<string>,                     // auth.GetBearerToken
    validateJwt: (string, string) -> Option<Uuid>,   // auth.ValidateJWT(token, secret)
    getVideo: Uuid -> Option<Video>,                 // cfg.db.GetVideo
    presign: Presigner,                              // the S3 presign client
    formFileType: Option<string>,                    // r.FormFile("video"), body within the cap: the part's Content-Type
    parseMediaType: string -> Option<string>,        // mime.ParseMediaType
    tempFile: Option<string>,                        // os.CreateTemp: the file's name
    copyOk: bool,                                    // io.Copy into the temporary file
    seekOk: bool,                                    // videoTemp.Seek(0, io.SeekStart)
    probe: ProbeOutcome,                             // ffprobe run and JSON decoding
    ffmpegFailure: Option<Error>,                    // the faststart ffmpeg run
    openOk: bool,                                    // os.Open of the rewritten file
    random: seq<Byte>,                               // the bytes rand.Read puts in b
    putObjectOk: bool,                               // s3Client.PutObject (the handler never looks)
    updateOk: bool)                                  // cfg.db.UpdateVideo

  function Caller(cfg: ApiConfig, env: VideoUploadEnv): Option<Uuid>
  {
    BearerCaller(env.bearerToken, env.validateJwt, cfg.jwtSecret)
  }

  /** The caller is authenticated and owns the record asked for. */
  predicate OwnsRecord(cfg: ApiConfig, env: VideoUploadEnv)
  {
    Caller(cfg, env).Some? && env.getVideo(env.parsedId).Some? &&
    env.getVideo(env.parsedId).value.userId == Caller(cfg, env).value
  }

  /** The media type of the uploaded part, when the body fits and the part is there. */
  function UploadedMediaType(env: VideoUploadEnv): Option<string>
  {
    if env.bodyLength <= MaxUploadBytes && env.formFileType.Some? then env.parseMediaType(env.formFileType.value)
    else None
  }

  /** The caller owns the record and its old reference, if any, splits into bucket and key. */
  predicate ReferenceReadable(cfg: ApiConfig, env: VideoUploadEnv)
  {
    OwnsRecord(cfg, env) && !IsMalformedReference(env.getVideo(env.parsedId).value.videoUrl)
  }

  /** The uploaded part is exactly video/mp4 and a temporary file was made for it. */
  predicate PartStaged(env: VideoUploadEnv)
  {
    UploadedMediaType(env) == Some(Mp4MediaType) && env.tempFile.Some?
  }

  /** ... and it was copied, probed and classified, and rewritten by ffmpeg. */
  predicate PartRewritten(env: VideoUploadEnv)
  {
    PartStaged(env) && env.copyOk && env.seekOk &&
    GetVideoAspectRatio(env.probe).1.None? && env.ffmpegFailure.None?
  }

  /** ... and the rewritten copy could be opened for the upload. */
  predicate PartReady(env: VideoUploadEnv)
  {
    PartRewritten(env) && env.openOk
  }

  /** Every gate before the object store passed. */
  predicate ReachesUpload(cfg: ApiConfig, env: VideoUploadEnv)
  {
    ReferenceReadable(cfg, env) && PartReady(env)
  }

  /** The key the video is stored under. */
  function UploadKey(env: VideoUploadEnv): string
  {
    VideoObjectKey(GetVideoAspectRatio(env.probe).0, env.random)
  }

  /** The record handed to UpdateVideo: the stored one with only its reference replaced. */
  function CommittedRecord(cfg: ApiConfig, env: VideoUploadEnv): Video
    requires OwnsRecord(cfg, env)
  {
    env.getVideo(env.parsedId).value.(videoUrl := Some(StoredReference(cfg.s3Bucket, UploadKey(env))))
  }

  /** The log of a request that reaches the upload, from the form on, written out flat. */
  function UploadLog(cfg: ApiConfig, env: VideoUploadEnv, video: Video): seq<Effect>
    requires env.tempFile.Some?
  {
    var temp := env.tempFile.value;
    var processed := temp + ProcessingSuffix;
    [FormRead, TempFileCreated(temp), MediaProbed(temp), FastStartWritten(processed),
     ObjectPut(cfg.s3Bucket, UploadKey(env), Mp4MediaType),
     RecordUpdated(video.(videoUrl := Some(StoredReference(cfg.s3Bucket, UploadKey(env))))),
     FileRemoved(processed), FileRemoved(temp)]
  }

  /**
   * What lines 92-133 do to the outside world on the staged file `tempName`:
   * the probe; then, unless it or ffmpeg failed, the rewritten copy, the put
   * and the update when the copy opens, and the deferred removal of the copy.
   */
  ghost function ProcessLog(cfg: ApiConfig, env: VideoUploadEnv, video: Video, tempName: string, mediaType: string): seq<Effect>
  {
    if GetVideoAspectRatio(env.probe).1.Some? || env.ffmpegFailure.Some? then [MediaProbed(tempName)]
    else
      var processed := tempName + ProcessingSuffix;
      [MediaProbed(tempName), FastStartWritten(processed)] +
      (if env.openOk then
         [ObjectPut(cfg.s3Bucket, UploadKey(env), mediaType),
          RecordUpdated(video.(videoUrl := Some(StoredReference(cfg.s3Bucket, UploadKey(env)))))]
       else []) +
      [FileRemoved(processed)]
  }

  /**
   * What lines 53-133 do: the form read; then, for a staged mp4, the
   * temporary file, the processing when the copy and the seek succeeded, and
   * the deferred removal of the temporary file.
   */
  ghost function StoreLog(cfg: ApiConfig, env: VideoUploadEnv, video: Video): seq<Effect>
  {
    if !PartStaged(env) then [FormRead]
    else
      var temp := env.tempFile.value;
      [FormRead, TempFileCreated(temp)] +
      (if env.copyOk && env.seekOk then ProcessLog(cfg, env, video, temp, Mp4MediaType) else []) +
      [FileRemoved(temp)]
  }

  /** What the whole handler does to the outside world. */
  ghost function RequestLog(cfg: ApiConfig, env: VideoUploadEnv): seq<Effect>
  {
    if Caller(cfg, env).None? then []
    else if !ReferenceReadable(cfg, env) then [RecordFetched(env.parsedId)]
    else [RecordFetched(env.parsedId)] + StoreLog(cfg, env, env.getVideo(env.parsedId).value)
  }

  /**
   * `handlerUploadVideo`, lines 17-51: identify, authenticate, load and
   * authorize, and read the old reference through the signing path; the rest
   * of the handler is StoreUpload.
   */
  method HandlerUploadVideo(cfg: ApiConfig, env: VideoUploadEnv) returns (status: int, ghost effects: seq<Effect>)
    requires |env.random| == 32
    ensures status in {StatusOK, StatusBadRequest, StatusUnauthorized, StatusUnsupportedMediaType, StatusInternalServerError}
    ensures effects == RequestLog(cfg, env)
    // authentication comes first
    ensures Caller(cfg, env).None? ==> status == StatusUnauthorized
    // a malformed id does not stop the request: the lookup is for whatever uuid.Parse returned
    ensures Caller(cfg, env).Some? && env.getVideo(env.parsedId).None? ==> status == StatusBadRequest
    // a non-owner gets 401
    ensures Caller(cfg, env).Some? && env.getVideo(env.parsedId).Some? && !OwnsRecord(cfg, env) ==> status == StatusUnauthorized
    // a corrupt stored reference fails the upload before the form is read
    ensures OwnsRecord(cfg, env) && IsMalformedReference(env.getVideo(env.parsedId).value.videoUrl) ==>
              status == StatusInternalServerError
    // a body over the cap or a missing "video" part is the client's fault, a Content-Type that does not parse the server's
    ensures ReferenceReadable(cfg, env) && env.bodyLength > MaxUploadBytes ==> status == StatusBadRequest
    ensures ReferenceReadable(cfg, env) && env.bodyLength <= MaxUploadBytes && env.formFileType.None? ==>
              status == StatusBadRequest
    ensures ReferenceReadable(cfg, env) && env.bodyLength <= MaxUploadBytes && env.formFileType.Some? &&
            env.parseMediaType(env.formFileType.value).None? ==>
              status == StatusInternalServerError
    ensures ReferenceReadable(cfg, env) && UploadedMediaType(env).Some? && UploadedMediaType(env) != Some(Mp4MediaType) ==>
              status == StatusUnsupportedMediaType
    // once the part is an mp4, every failure is a 500: temporary file, copy, seek, probe, ffmpeg, open, update
    ensures ReferenceReadable(cfg, env) && UploadedMediaType(env) == Some(Mp4MediaType) && !(PartReady(env) && env.updateOk) ==>
              status == StatusInternalServerError
    // the PutObject result plays no part in the outcome
    ensures status == StatusOK <==> ReachesUpload(cfg, env) && env.updateOk
  {
    effects := [];
    // the error of uuid.Parse is overwritten before anyone looks at it
    var videoId := env.parsedId;

    if env.bearerToken.None? {
      status := StatusUnauthorized;
      return;
    }
    var userId := env.validateJwt(env.bearerToken.value, cfg.jwtSecret);
    if userId.None? {
      status := StatusUnauthorized;
      return;
    }

    var video := env.getVideo(videoId);
    effects := [RecordFetched(videoId)];
    if video.None? {
      status := StatusBadRequest;
      return;
    }
    if video.value.userId != userId.value {
      status := StatusUnauthorized;
      return;
    }
    var (signed, signErr) := DbVideoToSignedVideo(env.presign, video.value);
    if signErr.Some? {
      status := StatusInternalServerError;
      return;
    }

    ghost var stored;
    status, stored := StoreUpload(cfg, env, signed);
    StoreLogIgnoresOldReference(cfg, env, signed, video.value);
    effects := effects + stored;
  }

  /**
   * `handlerUploadVideo`, lines 53-90, for the record `video` as the signing
   * path returned it: read the part, check its type and stage it in a
   * temporary file; ProcessStaged does the rest. The removal of the temporary
   * file, deferred at line 75, runs when the handler returns.
   */
  method StoreUpload(cfg: ApiConfig, env: VideoUploadEnv, video: Video) returns (status: int, ghost effects: seq<Effect>)
    requires |env.random| == 32
    ensures status in {StatusOK, StatusBadRequest, StatusUnsupportedMediaType, StatusInternalServerError}
    ensures effects == StoreLog(cfg, env, video)
    ensures env.bodyLength > MaxUploadBytes ==> status == StatusBadRequest
    ensures env.bodyLength <= MaxUploadBytes && env.formFileType.None? ==> status == StatusBadRequest
    ensures env.bodyLength <= MaxUploadBytes && env.formFileType.Some? && env.parseMediaType(env.formFileType.value).None? ==>
              status == StatusInternalServerError
    ensures UploadedMediaType(env).Some? && UploadedMediaType(env) != Some(Mp4MediaType) ==> status == StatusUnsupportedMediaType
    ensures UploadedMediaType(env) == Some(Mp4MediaType) && !(PartReady(env) && env.updateOk) ==> status == StatusInternalServerError
    ensures status == StatusOK <==> PartReady(env) && env.updateOk
  {
    effects := [FormRead];
    if env.bodyLength > MaxUploadBytes || env.formFileType.None? {
      status := StatusBadRequest;
      return;
    }
    var mediaType := env.parseMediaType(env.formFileType.value);
    if mediaType.None? {
      status := StatusInternalServerError;
      return;
    }
    if mediaType.value != Mp4MediaType {
      status := StatusUnsupportedMediaType;
      return;
    }

    if env.tempFile.None? {
      status := StatusInternalServerError;
      return;
    }
    var tempName := env.tempFile.value;
    effects := effects + [TempFileCreated(tempName)];
    if !env.copyOk || !env.seekOk {
      status := StatusInternalServerError;
    } else {
      ghost var processed;
      status, processed := ProcessStaged(cfg, env, video, tempName, mediaType.value);
      effects := effects + processed;
    }
    effects := effects + [FileRemoved(tempName)];
  }

  /**
   * `handlerUploadVideo`, lines 92-133, on the staged file `tempName`:
   * classify it, rewrite it for fast start, put the rewritten copy in the
   * bucket under "{aspect}/{id}.mp4", and store "bucket,key" in the record.
   * The removal of the rewritten copy, deferred at line 103, runs on return.
   */
  method ProcessStaged(cfg: ApiConfig, env: VideoUploadEnv, video: Video, tempName: string, mediaType: string)
    returns (status: int, ghost effects: seq<Effect>)
    requires |env.random| == 32
    ensures status in {StatusOK, StatusInternalServerError}
    ensures effects == ProcessLog(cfg, env, video, tempName, mediaType)
    ensures status == StatusOK <==>
              GetVideoAspectRatio(env.probe).1.None? && env.ffmpegFailure.None? && env.openOk && env.updateOk
  {
    var (aspectRatio, probeErr) := GetVideoAspectRatio(env.probe);
    effects := [MediaProbed(tempName)];
    if probeErr.Some? {
      status := StatusInternalServerError;
      return;
    }

    var (processVidPath, ffmpegErr) := ProcessVideoForFastStart(tempName, env.ffmpegFailure);
    if ffmpegErr.Some? {
      status := StatusInternalServerError;
      return;
    }
    effects := effects + [FastStartWritten(processVidPath)];
    if !env.openOk {
      status := StatusInternalServerError;
    } else {
      var id := VideoObjectKey(aspectRatio, env.random);
      effects := effects + [ObjectPut(cfg.s3Bucket, id, mediaType)];
      // the result of PutObject is discarded

      var urlPath := StoredReference(cfg.s3Bucket, id);
      var updated := video.(videoUrl := Some(urlPath));
      effects := effects + [RecordUpdated(updated)];
      status := if env.updateOk then StatusOK else StatusInternalServerError;
    }
    effects := effects + [FileRemoved(processVidPath)];
  }

  /** The log does not depend on the reference the record held before: it is replaced before the update. */
  lemma StoreLogIgnoresOldReference(cfg: ApiConfig, env: VideoUploadEnv, video: Video, other: Video)
    requires video == other.(videoUrl := video.videoUrl)
    ensures StoreLog(cfg, env, video) == StoreLog(cfg, env, other)
  {
  }

  /**
   * The handler's log, gate by gate, up to staging: nothing without a caller,
   * only the lookup when the record is missing, foreign or corrupt, and only
   * the form read when the part is not a staged mp4.
   */
  lemma RequestLogBeforeStaging(cfg: ApiConfig, env: VideoUploadEnv)
    ensures Caller(cfg, env).None? ==> RequestLog(cfg, env) == []
    ensures Caller(cfg, env).Some? && !ReferenceReadable(cfg, env) ==> RequestLog(cfg, env) == [RecordFetched(env.parsedId)]
    ensures ReferenceReadable(cfg, env) && !PartStaged(env) ==>
              RequestLog(cfg, env) == [RecordFetched(env.parsedId), FormRead]
  {
  }

  /**
   * The handler's log after staging, for each way it can end: every return
   * stops the log where the source returns and then runs the deferred
   * removals, newest first.
   */
  lemma RequestLogAfterStaging(cfg: ApiConfig, env: VideoUploadEnv)
    requires ReferenceReadable(cfg, env) && PartStaged(env)
    ensures !(env.copyOk && env.seekOk) ==>
              RequestLog(cfg, env) == [RecordFetched(env.parsedId), FormRead, TempFileCreated(env.tempFile.value),
                                       FileRemoved(env.tempFile.value)]
    ensures env.copyOk && env.seekOk && !PartRewritten(env) ==>
              RequestLog(cfg, env) == [RecordFetched(env.parsedId), FormRead, TempFileCreated(env.tempFile.value),
                                       MediaProbed(env.tempFile.value), FileRemoved(env.tempFile.value)]
    ensures PartRewritten(env) && !env.openOk ==>
              RequestLog(cfg, env) == [RecordFetched(env.parsedId), FormRead, TempFileCreated(env.tempFile.value),
                                       MediaProbed(env.tempFile.value),
                                       FastStartWritten(env.tempFile.value + ProcessingSuffix),
                                       FileRemoved(env.tempFile.value + ProcessingSuffix),
                                       FileRemoved(env.tempFile.value)]
    ensures PartReady(env) ==>
              RequestLog(cfg, env) == [RecordFetched(env.parsedId)] + UploadLog(cfg, env, env.getVideo(env.parsedId).value)
  {
  }

  /**
   * UpdateVideo is called at most once, and exactly when every gate before
   * the object store passed, with the stored record whose only change is the
   * new reference.
   */
  lemma RequestLogUpdatesOnce(cfg: ApiConfig, env: VideoUploadEnv)
    ensures UpdateCount(RequestLog(cfg, env)) <= 1
    ensures UpdateCount(RequestLog(cfg, env)) == 1 <==> ReachesUpload(cfg, env)
    ensures ReachesUpload(cfg, env) ==> RequestLog(cfg, env)[6] == RecordUpdated(CommittedRecord(cfg, env))
  {
    var log := RequestLog(cfg, env);
    RequestLogBeforeStaging(cfg, env);
    if !ReachesUpload(cfg, env) {
      if ReferenceReadable(cfg, env) && PartStaged(env) {
        RequestLogAfterStaging(cfg, env);
      }
      assert forall i :: 0 <= i < |log| ==> !log[i].RecordUpdated?;
    } else {
      RequestLogAfterStaging(cfg, env);
      UploadLogUpdatesOnce(cfg, env, env.getVideo(env.parsedId).value);
      UpdateCountConcat([RecordFetched(env.parsedId)], UploadLog(cfg, env, env.getVideo(env.parsedId).value));
    }
  }

  /** A request that reaches the upload calls UpdateVideo exactly once. */
  lemma UploadLogUpdatesOnce(cfg: ApiConfig, env: VideoUploadEnv, video: Video)
    requires env.tempFile.Some?
    ensures UpdateCount(UploadLog(cfg, env, video)) == 1
  {
    var log := UploadLog(cfg, env, video);
    assert log == log[..5] + [log[5]] + log[6..];
    assert forall i :: 0 <= i < 5 ==> !log[..5][i].RecordUpdated?;
    assert forall i :: 0 <= i < 2 ==> !log[6..][i].RecordUpdated?;
    UpdateCountConcat(log[..5] + [log[5]], log[6..]);
    UpdateCountConcat(log[..5], [log[5]]);
  }

  /** The object is put exactly when every gate before the object store passed, under "{aspect}/{id}.mp4". */
  lemma RequestLogPutsOnlyWhenReady(cfg: ApiConfig, env: VideoUploadEnv)
    ensures (exists i :: 0 <= i < |RequestLog(cfg, env)| && RequestLog(cfg, env)[i].ObjectPut?) <==> ReachesUpload(cfg, env)
    ensures ReachesUpload(cfg, env) ==> RequestLog(cfg, env)[5] == ObjectPut(cfg.s3Bucket, UploadKey(env), Mp4MediaType)
  {
    var log := RequestLog(cfg, env);
    RequestLogBeforeStaging(cfg, env);
    if ReferenceReadable(cfg, env) && PartStaged(env) {
      RequestLogAfterStaging(cfg, env);
    }
    if !ReachesUpload(cfg, env) {
      assert forall i :: 0 <= i < |log| ==> !log[i].ObjectPut?;
    } else {
      assert log[5].ObjectPut?;
    }
  }

  /**
   * The reference the handler commits survives the read path: signing the
   * committed record signs exactly the bucket and key the video was put
   * under, and nothing else in the record changes.
   */
  lemma CommittedReferenceSignsUpload(cfg: ApiConfig, env: VideoUploadEnv, presign: Presigner)
    requires OwnsRecord(cfg, env) && GetVideoAspectRatio(env.probe).1.None? && |env.random| == 32
    requires ',' !in cfg.s3Bucket
    ensures DbVideoToSignedVideo(presign, CommittedRecord(cfg, env)) ==
      (CommittedRecord(cfg, env).(videoUrl := Some(
         var signed := presign(cfg.s3Bucket, UploadKey(env), SignedUrlLifetime);
         if signed.Some? then signed.value else "")), None)
  {
    VideoKeyShape(GetVideoAspectRatio(env.probe).0, env.random);
    SignsBothHalves(presign, CommittedRecord(cfg, env), cfg.s3Bucket, UploadKey(env));
  }

  /** A 1920x1080 first stream puts the upload under "landscape/". */
  lemma WideVideoGoesUnderLandscape(env: VideoUploadEnv, streams: seq<Stream>)
    requires env.probe == Decoded(streams) && |streams| > 0
    requires streams[0].width == 1920 && streams[0].height == 1080
    requires |env.random| == 32
    ensures UploadKey(env)[..10] == "landscape/"
  {
  }
}
