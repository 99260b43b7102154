/**
 * `handlerUploadThumbnail` (handler_upload_thumbnail.go) as a sequence of
 * gates, storing the image under the local assets directory. Every call into
 * the outside world is an input outcome; what the request does to the
 * outside world is returned, in order, as a ghost effect log.
 */
module UploadThumbnail {
  import opened Wrappers
  import opened Records
  import opened Base64Url
  import opened AssetNames

  /** The outcomes of everything the handler asks of its collaborators. */
  datatype ThumbnailUploadEnv = ThumbnailUploadEnv(
    parsedId: Option<Uuid>,                            // uuid.Parse of the path value "videoID"
    bearerToken: Option<string>,                       // auth.GetBearerToken
    validateJwt: (string, string) -> Option<Uuid>,     // auth.ValidateJWT(token, secret)
    formParsed: bool,                                  // r.ParseMultipartForm(maxMemory)
    formFileType: Option<string>,                      // r.FormFile("thumbnail"): the part's Content-Type
    parseMediaType: string -> Option<string>,          // mime.ParseMediaType
    extensionsByType: string -> Option<seq<string>>,   // mime.ExtensionsByType; None is an error
    random: seq<Byte>,                                 // the bytes rand.Read puts in b
    createOk: bool,                                    // os.Create under the assets root
    copyOk: bool,                                      // io.Copy of the part into it
    getVideo: Uuid -> Option<Video>,                   // cfg.db.GetVideo
    updateOk: bool)                                    // cfg.db.UpdateVideo

  function Caller(cfg: ApiConfig, env: ThumbnailUploadEnv): Option<Uuid>
  {
    BearerCaller(env.bearerToken, env.validateJwt, cfg.jwtSecret)
  }

  /** The id parsed and the caller authenticated. */
  predicate Authenticated(cfg: ApiConfig, env: ThumbnailUploadEnv)
  {
    env.parsedId.Some? && Caller(cfg, env).Some?
  }

  /** The media type of the "thumbnail" part, when the form parsed and the part is there. */
  function PartMediaType(env: ThumbnailUploadEnv): Option<string>
  {
    if env.formParsed && env.formFileType.Some? then env.parseMediaType(env.formFileType.value) else None
  }

  /** The allow-list: JPEG and PNG only. */
  predicate IsThumbnailType(mediaType: string)
  {
    mediaType == "image/jpeg" || mediaType == "image/png"
  }

  /** Authenticated, and the part is a JPEG or PNG image with at least one known extension. */
  predicate Named(cfg: ApiConfig, env: ThumbnailUploadEnv)
  {
    Authenticated(cfg, env) && PartMediaType(env).Some? && IsThumbnailType(PartMediaType(env).value) &&
    env.extensionsByType(env.formFileType.value).Some? && |env.extensionsByType(env.formFileType.value).value| > 0
  }

  /** The name the file is stored under: the random id and the first extension listed for the type. */
  function FileName(cfg: ApiConfig, env: ThumbnailUploadEnv): string
    requires Named(cfg, env)
  {
    ThumbnailFileName(env.random, env.extensionsByType(env.formFileType.value).value[0])
  }

  /** Named, and the file was created and written in the assets directory. */
  predicate FileSaved(cfg: ApiConfig, env: ThumbnailUploadEnv)
  {
    Named(cfg, env) && env.createOk && env.copyOk
  }

  /** Saved, and the record exists and belongs to the caller. */
  predicate OwnerConfirmed(cfg: ApiConfig, env: ThumbnailUploadEnv)
  {
    FileSaved(cfg, env) && env.getVideo(env.parsedId.value).Some? &&
    env.getVideo(env.parsedId.value).value.userId == Caller(cfg, env).value
  }

  /** The record handed to UpdateVideo and returned: the stored one with only its thumbnail URL replaced. */
  function UpdatedRecord(cfg: ApiConfig, env: ThumbnailUploadEnv): Video
    requires OwnerConfirmed(cfg, env)
  {
    env.getVideo(env.parsedId.value).value.(thumbnailUrl := Some(ThumbnailUrl(cfg.port, FileName(cfg, env))))
  }

  /**
   * `handlerUploadThumbnail`, lines 18-73: identify, authenticate, parse the
   * form, allow-list the media type and find an extension; SaveThumbnail does
   * the rest.
   */
  method HandlerUploadThumbnail(cfg: ApiConfig, env: ThumbnailUploadEnv)
    returns (status: int, body: Option<Video>, ghost effects: seq<Effect>)
    requires |env.random| == 32
    ensures status in {StatusOK, StatusBadRequest, StatusUnauthorized, StatusUnsupportedMediaType, StatusInternalServerError}
    ensures body.Some? <==> status == StatusOK
    // a malformed id is refused before authentication, and a bad token before the form is read
    ensures env.parsedId.None? ==> status == StatusBadRequest && effects == []
    ensures env.parsedId.Some? && Caller(cfg, env).None? ==> status == StatusUnauthorized && effects == []
    ensures Authenticated(cfg, env) ==> |effects| >= 1 && effects[0] == FormRead
    // only JPEG and PNG are accepted; nothing is written for any other type
    ensures Authenticated(cfg, env) && PartMediaType(env).Some? && !IsThumbnailType(PartMediaType(env).value) ==>
              status == StatusUnsupportedMediaType && effects == [FormRead]
    // a form that does not parse, a missing part or a Content-Type that does not parse: 500
    ensures Authenticated(cfg, env) && PartMediaType(env).None? ==> status == StatusInternalServerError && effects == [FormRead]
    // no extension for the type, or an error looking one up: 400
    ensures Authenticated(cfg, env) && PartMediaType(env).Some? && IsThumbnailType(PartMediaType(env).value) &&
            (env.extensionsByType(env.formFileType.value).None? || env.extensionsByType(env.formFileType.value) == Some([])) ==>
              status == StatusBadRequest && effects == [FormRead]
    ensures !Named(cfg, env) ==> |effects| <= 1
    ensures Named(cfg, env) && env.createOk ==>
              |effects| >= 2 && effects[1] == AssetFileCreated(cfg.assetsRoot, FileName(cfg, env))
    // a failed create or write ends the request before the record is fetched
    ensures Named(cfg, env) && !env.createOk ==> effects == [FormRead]
    ensures Named(cfg, env) && env.createOk && !env.copyOk ==>
              effects == [FormRead, AssetFileCreated(cfg.assetsRoot, FileName(cfg, env))]
    // the file is written before the record is fetched and its owner checked
    ensures FileSaved(cfg, env) ==>
              |effects| >= 4 && effects[..4] == [FormRead, AssetFileCreated(cfg.assetsRoot, FileName(cfg, env)),
                                                 AssetFileWritten(cfg.assetsRoot, FileName(cfg, env)),
                                                 RecordFetched(env.parsedId.value)]
    ensures FileSaved(cfg, env) && env.getVideo(env.parsedId.value).None? ==> |effects| == 4
    // a non-owner gets a bare 401, after the file was written, and the record is not updated
    ensures FileSaved(cfg, env) && env.getVideo(env.parsedId.value).Some? && !OwnerConfirmed(cfg, env) ==>
              status == StatusUnauthorized && |effects| == 4 && UpdateCount(effects) == 0
    // UpdateVideo is called at most once, exactly when every earlier gate passed
    ensures UpdateCount(effects) <= 1
    ensures UpdateCount(effects) == 1 <==> OwnerConfirmed(cfg, env)
    // once the file is named, a failed create, write, lookup or update is a 500
    ensures Named(cfg, env) && !(env.createOk && env.copyOk && env.getVideo(env.parsedId.value).Some?) ==>
              status == StatusInternalServerError
    ensures OwnerConfirmed(cfg, env) && !env.updateOk ==> status == StatusInternalServerError
    ensures OwnerConfirmed(cfg, env) ==> |effects| == 5 && effects[4] == RecordUpdated(UpdatedRecord(cfg, env))
    ensures status == StatusOK <==> OwnerConfirmed(cfg, env) && env.updateOk
    ensures status == StatusOK ==> body == Some(UpdatedRecord(cfg, env))
  {
    effects := [];
    if env.parsedId.None? {
      status, body := StatusBadRequest, None;
      return;
    }
    var videoId := env.parsedId.value;

    if env.bearerToken.None? {
      status, body := StatusUnauthorized, None;
      return;
    }
    var userId := env.validateJwt(env.bearerToken.value, cfg.jwtSecret);
    if userId.None? {
      status, body := StatusUnauthorized, None;
      return;
    }

    effects := [FormRead];
    if !env.formParsed || env.formFileType.None? {
      status, body := StatusInternalServerError, None;
      return;
    }
    var fileType := env.formFileType.value;
    var mediaType := env.parseMediaType(fileType);
    if mediaType.None? {
      status, body := StatusInternalServerError, None;
      return;
    }
    if !IsThumbnailType(mediaType.value) {
      status, body := StatusUnsupportedMediaType, None;
      return;
    }

    var extensions := env.extensionsByType(fileType);
    if extensions.None? || |extensions.value| == 0 {
      status, body := StatusBadRequest, None;
      return;
    }

    ghost var saved;
    status, body, saved := SaveThumbnail(cfg, env, videoId, userId.value, extensions.value[0]);
    effects := Then(effects, saved);
  }

  /**
   * `handlerUploadThumbnail`, lines 75-112: name the file after 32 random
   * bytes and the extension, write it under the assets root, and only then
   * fetch the record, check its owner and point its thumbnail URL at the
   * static route serving the file.
   */
  method SaveThumbnail(cfg: ApiConfig, env: ThumbnailUploadEnv, videoId: Uuid, userId: Uuid, extension: string)
    returns (status: int, body: Option<Video>, ghost effects: seq<Effect>)
    requires |env.random| == 32
    ensures status in {StatusOK, StatusUnauthorized, StatusInternalServerError}
    ensures body.Some? <==> status == StatusOK
    ensures !env.createOk ==> effects == []
    ensures env.createOk ==> |effects| >= 1 && effects[0] == AssetFileCreated(cfg.assetsRoot, ThumbnailFileName(env.random, extension))
    ensures env.createOk && env.copyOk ==>
              |effects| >= 3 && effects[1] == AssetFileWritten(cfg.assetsRoot, ThumbnailFileName(env.random, extension)) &&
              effects[2] == RecordFetched(videoId)
    ensures env.createOk && !env.copyOk ==> effects == [AssetFileCreated(cfg.assetsRoot, ThumbnailFileName(env.random, extension))]
    ensures env.createOk && env.copyOk && env.getVideo(videoId).None? ==> |effects| == 3
    ensures env.createOk && env.copyOk && env.getVideo(videoId).Some? && env.getVideo(videoId).value.userId != userId ==>
              status == StatusUnauthorized && |effects| == 3
    ensures UpdateCount(effects) <= 1
    ensures UpdateCount(effects) == 1 <==>
              env.createOk && env.copyOk && env.getVideo(videoId).Some? && env.getVideo(videoId).value.userId == userId
    ensures UpdateCount(effects) == 1 ==>
              |effects| == 4 &&
              effects[3] == RecordUpdated(env.getVideo(videoId).value.(thumbnailUrl :=
                              Some(ThumbnailUrl(cfg.port, ThumbnailFileName(env.random, extension)))))
    ensures !(env.createOk && env.copyOk && env.getVideo(videoId).Some?) ==> status == StatusInternalServerError
    ensures UpdateCount(effects) == 1 && !env.updateOk ==> status == StatusInternalServerError
    ensures status == StatusOK <==> UpdateCount(effects) == 1 && env.updateOk
    ensures status == StatusOK ==> body == Some(effects[3].video)
  {
    effects := [];
    var extensionString := ThumbnailFileName(env.random, extension);
    if !env.createOk {
      status, body := StatusInternalServerError, None;
      return;
    }
    effects := Then(effects, [AssetFileCreated(cfg.assetsRoot, extensionString)]);
    if !env.copyOk {
      status, body := StatusInternalServerError, None;
      return;
    }
    effects := Then(effects, [AssetFileWritten(cfg.assetsRoot, extensionString)]);

    var video := env.getVideo(videoId);
    effects := Then(effects, [RecordFetched(videoId)]);
    if video.None? {
      status, body := StatusInternalServerError, None;
      return;
    }
    if video.value.userId != userId {
      status, body := StatusUnauthorized, None;
      return;
    }
    var serverPath := ThumbnailUrl(cfg.port, extensionString);
    var updated := video.value.(thumbnailUrl := Some(serverPath));

    effects := Then(effects, [RecordUpdated(updated)]);
    if !env.updateOk {
      status, body := StatusInternalServerError, None;
      return;
    }
    status, body := StatusOK, Some(updated);
  }
}
