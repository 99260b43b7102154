/**
 * The values the upload API passes around: the stored video record, the
 * server configuration, Go error values, HTTP status codes, and the events an
 * upload request causes in the outside world (database, filesystem, object
 * store), which the handler models record in order.
 */
module Records {
  import opened Wrappers

  /** A 128-bit UUID, read as a number; 0 is `uuid.Nil`. */
  type Uuid = nat
  const NilUuid: Uuid := 0

  /** A Go `error` value; only its message is kept. */
  datatype Error = Error(message: string)

  /**
   * `database.Video`. The two URL fields are `*string` in Go (nil or a string); times
   * are kept as opaque instants.
   */
  datatype Video = Video(
    id: Uuid,
    createdAt: int,
    updatedAt: int,
    thumbnailUrl: Option<string>,
    videoUrl: Option<string>,
    title: string,
    description: string,
    userId: Uuid)

  /** The zero value `database.Video{}`. */
  const ZeroVideo: Video := Video(NilUuid, 0, 0, None, None, "", "", NilUuid)

  /** The settings of `apiConfig` the handlers read. */
  datatype ApiConfig = ApiConfig(jwtSecret: string, assetsRoot: string, s3Bucket: string, port: string)

  /** A `time.Duration`, in nanoseconds. */
  type Duration = int

  /**
   * The object store's presigning service: given bucket, key and lifetime,
   * the signed GET URL, or `None` when the SDK reports an error.
   */
  type Presigner = (string, string, Duration) -> Option<string>

  const StatusOK := 200
  const StatusBadRequest := 400
  const StatusUnauthorized := 401
  const StatusUnsupportedMediaType := 415
  const StatusInternalServerError := 500

  /** Something a request did outside the process, in the order it happened. */
  datatype Effect =
    | RecordFetched(id: Uuid)                                   // cfg.db.GetVideo
    | FormRead                                                  // the multipart body is read
    | TempFileCreated(path: string)                             // os.CreateTemp
    | MediaProbed(path: string)                                 // ffprobe runs on the file
    | FastStartWritten(path: string)                            // ffmpeg writes the rewritten copy
    | ObjectPut(bucket: string, key: string, contentType: string) // s3Client.PutObject
    | AssetFileCreated(dir: string, name: string)               // os.Create under the assets root
    | AssetFileWritten(dir: string, name: string)               // io.Copy into that file completed
    | RecordUpdated(video: Video)                               // cfg.db.UpdateVideo
    | FileRemoved(path: string)                                 // a deferred os.Remove

  /** How many times the log calls `UpdateVideo`. */
  function UpdateCount(log: seq<Effect>): (n: nat)
    ensures n <= |log|
    ensures n == 0 <==> forall i :: 0 <= i < |log| ==> !log[i].RecordUpdated?
  {
    if log == [] then 0
    else (if log[0].RecordUpdated? then 1 else 0) + UpdateCount(log[1..])
  }

  lemma {:induction false} UpdateCountConcat(a: seq<Effect>, b: seq<Effect>)
    ensures UpdateCount(a + b) == UpdateCount(a) + UpdateCount(b)
    decreases |a|
  {
    if a == [] {
      assert a + b == b;
    } else {
      assert (a + b)[1..] == a[1..] + b;
      UpdateCountConcat(a[1..], b);
    }
  }

  /** The log extended by further events, with its UpdateVideo count carried along. */
  ghost function Then(log: seq<Effect>, more: seq<Effect>): (r: seq<Effect>)
    ensures r == log + more
    ensures UpdateCount(r) == UpdateCount(log) + UpdateCount(more)
  {
    UpdateCountConcat(log, more);
    log + more
  }

  /**
   * The authenticated caller: `auth.GetBearerToken` found a token and
   * `auth.ValidateJWT` accepted it under the server's secret.
   */
  function BearerCaller(token: Option<string>, validateJwt: (string, string) -> Option<Uuid>, secret: string): Option<Uuid>
  {
    if token.None? then None else validateJwt(token.value, secret)
  }
}
