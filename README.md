# Upload API core, modelled in Dafny

The model covers the decision logic of a small Go upload API. Users upload video files and thumbnail images for their video records. Videos go to a private S3 bucket; the record keeps a reference "bucket,key", and that reference is replaced by a three-minute signed URL whenever the record is read. The model has four parts:

- **Aspect classification** (`VideoAspect`, get_video_aspect.go). The first stream ffprobe reports is classified as `landscape`, `portrait` or `other` by tolerance bands on width/height. The source divides two float64 values. The model tests the bands by integer cross-multiplication (`17*h < 10*w < 18*h` for positive `h`, reversed for negative `h`). Lemmas prove this test equal to comparing the exact real quotient with 1.7, 1.8, 0.5 and 0.6.
- **Stored references and read-path signing** (`GoStrings`, `S3Funcs`, s3funcs.go).
  - `strings.Split` is modelled with `Join` and `Count` as its partners.
  - `dbVideoToSignedVideo` is a function over a `Presigner`. The presigner is the object store's signing service, given as an input.
  - Lemmas show that splitting `bucket + "," + key` gives the halves back, and that the signer is called with exactly those halves.
- **Names of stored things** (`Base64Url`, `AssetNames`).
  - The object key is `{aspect}/{id}.mp4`, the stored reference is `bucket,key`, and the thumbnail file name is `{id}.{ext}` with URL `http://localhost:{port}/assets/{name}`.
  - `id` is the unpadded base64url encoding (RFC 4648, section 5; padding omitted as section 3.2 allows) of 32 random bytes.
  - The encoder is modelled together with a decoder. The encoder's contract gives the length and the URL-safe alphabet, from which `RandomIdShape` shows that the id has 43 characters, none of them `,`, `/` or `.`. The round-trip lemma shows the id decodes to the random bytes, and `EncodeInjective` that distinct random bytes give distinct ids.
- **The two upload handlers** (`UploadVideo`, `UploadThumbnail`). Each is a method that runs its gates in the source's order.
  - Every collaborator is an input: the token check, the database, multipart parsing, temporary files, ffprobe, ffmpeg and the object store. Each is given as an outcome or as a total function.
  - A method returns the HTTP status, plus the record for the thumbnail handler. It also returns a ghost log of what the request did outside the process: record fetched, form read, temporary file created, probe run, rewritten copy written, object put, asset file created and written, `UpdateVideo` called, file removed.
  - Go's deferred `os.Remove` calls are appended to the log on every return that follows the creation of the file, newest first.
  - Each handler is split where its proof became too large for one method, at its natural phase boundaries:
    - `HandlerUploadVideo` → `StoreUpload` → `ProcessStaged`;
    - `HandlerUploadThumbnail` → `SaveThumbnail`.

Where the code and its intended design differ, the model follows the code:
- A presign failure is swallowed: `generatePresignedURL` returns the empty URL with a nil error, so the signing error never reaches the caller.
- A record owned by someone else gets 401, not 403.
- A failed record lookup gives 400 in the video handler and 500 in the thumbnail handler.
- The video handler does not reject a malformed id. The `uuid.Parse` error is overwritten, and the lookup is made for whatever UUID `uuid.Parse` returned with it.
- A stored reference with empty halves (`","`) is accepted and signed.

## Model

| member | source | states |
|---|---|---|
| GoStrings.Split | s3funcs.go:32 | `strings.Split` at one separator: one more piece than separators, no piece holds the separator, and joining the pieces gives the input back |
| GoStrings.SplitJoin | s3funcs.go:32-37 | Split undoes Join for any non-empty list of pieces without the separator |
| GoStrings.TwoPieces | s3funcs.go:32-37 | there are exactly two pieces iff there is exactly one separator, and then the input is piece 0, separator, piece 1 |
| Base64Url.Encode | handler_upload_video.go:113-115 | the unpadded base64url text of n bytes has ceil(8n/6) characters, all from the URL-safe alphabet |
| Base64Url.RoundTrip | handler_upload_video.go:115 | decoding the encoding gives the bytes back |
| Base64Url.EncodeInjective | handler_upload_thumbnail.go:75-77 | distinct random bytes give distinct ids |
| Base64Url.RandomIdShape | handler_upload_thumbnail.go:75-77 | the id of 32 bytes has 43 characters and holds no ',', '/' or '.' |
| VideoAspect.LandscapeBandIsRatio | get_video_aspect.go:45-48 | for nonzero h, the cross-multiplied landscape test holds iff 1.7 < w/h < 1.8 exactly, for either sign of h |
| VideoAspect.PortraitBandIsRatio | get_video_aspect.go:49-51 | for nonzero h, the cross-multiplied portrait test holds iff 0.5 < w/h < 0.6 exactly |
| VideoAspect.AspectFromStreams | get_video_aspect.go:36-53 | no streams: ("", error); zero width or height of the first stream: ("", error); otherwise no error, and the tag is "landscape" iff the ratio is strictly inside (1.7, 1.8), "portrait" iff strictly inside (0.5, 0.6), "other" iff in neither |
| VideoAspect.GetVideoAspectRatio | get_video_aspect.go:10-54 | a failed probe run or undecodable output gives ("", that error); a decoded stream list is classified as AspectFromStreams states; success gives one of the three tags; an error always comes with "" |
| VideoAspect.BandsDisjoint | get_video_aspect.go:45-51 | no ratio is in both bands, so the order of the two tests does not matter |
| VideoAspect.OnlyFirstStreamCounts | get_video_aspect.go:40 | streams after the first never change the result |
| VideoAspect.ClassificationExamples | get_video_aspect.go:36-53 | 1920x1080 is landscape, 1080x1920 portrait, 1000x1000 other; the endpoints 17x10, 9x5, 1x2 and 3x5 are other; a zero first stream fails even when a later stream is valid |
| S3Funcs.GeneratePresignedUrl | s3funcs.go:13-25 | never returns an error; the URL is the presigned one, or "" when presigning fails |
| S3Funcs.DbVideoToSignedVideo | s3funcs.go:27-46 | a missing or empty reference is returned unchanged; it fails, with the zero Video, exactly when the reference does not hold exactly one ','; on success only the video URL differs from the input |
| S3Funcs.SignsBothHalves | s3funcs.go:32-45 | for a reference "bucket,key" whose halves hold no ',', the new URL is the presigner's answer for that bucket, that key and three minutes, or "" if it failed |
| S3Funcs.EmptyHalvesAccepted | s3funcs.go:32-39 | the reference "," is accepted and signed as bucket "" and key "" |
| S3Funcs.EmptyReferenceIgnoresSigner | s3funcs.go:28-30 | with a missing or empty reference the result does not depend on the signer |
| FastStart.ProcessVideoForFastStart | process_video_from_start.go:7-16 | an ffmpeg failure gives ("", that error); success gives a path that extends the input path and is not the input itself |
| AssetNames.VideoObjectKey | handler_upload_video.go:113-115 | the key is 5 characters longer than the tag and the id together |
| AssetNames.VideoKeySplits | handler_upload_video.go:115 | splitting the key at '/' gives the tag and "{id}.mp4"; a tag without ',' gives a key without ',' |
| AssetNames.VideoKeyShape | handler_upload_video.go:113-115 | for each of the three tags and 32 bytes: exactly one '/', right after the tag; no ','; and the 43 characters after it decode to the random bytes |
| AssetNames.StoredReference | handler_upload_video.go:126 | the reference is one character longer than bucket and key together |
| AssetNames.ReferenceSplits | handler_upload_video.go:126 | the reference holds one ',' more than its halves, and splitting it at ',' gives bucket and key back when neither holds ',' |
| AssetNames.ThumbnailFileName | handler_upload_thumbnail.go:75-79 | for 32 bytes: 43 id characters without '/', which decode to the bytes, then '.', then the extension |
| AssetNames.ThumbnailUrl | handler_upload_thumbnail.go:103 | the URL ends with the file name |
| UploadVideo.HandlerUploadVideo | handler_upload_video.go:17-51 | a missing or invalid token: 401; a malformed id still leads to a lookup of whatever uuid.Parse returned; a record that is missing: 400; one owned by someone else: 401; a corrupt stored reference: 500; a body over 1 GiB or a missing "video" part: 400; a Content-Type that does not parse: 500; a type other than video/mp4: 415; for an mp4, a failed temporary file, copy, seek, probe, ffmpeg run, open or update: 500; 200 iff every gate passed and the update succeeded, whatever PutObject did; the effects are exactly RequestLog, whose shape the RequestLog lemmas state |
| UploadVideo.StoreUpload | handler_upload_video.go:53-90 | an over-cap body or a missing part: 400; an unparsable Content-Type: 500; a non-mp4 part: 415; any later failure: 500; 200 iff the part is a ready mp4 and the update succeeded; the effects are exactly StoreLog |
| UploadVideo.ProcessStaged | handler_upload_video.go:92-133 | a probe, ffmpeg, open or update failure: 500, and 200 otherwise; the effects are exactly ProcessLog: the probe, then (unless probe or ffmpeg failed) the rewritten copy, the put under "{tag}/{id}.mp4" with the part's type and the update exactly when the copy opened, and the removal of the copy |
| UploadVideo.StoreLogIgnoresOldReference | handler_upload_video.go:126-129 | the log does not depend on the reference the record held before signing, since the update replaces it |
| UploadVideo.RequestLogBeforeStaging | handler_upload_video.go:25-68 | no caller: no effect; a missing, foreign or corrupt record: only the lookup; a part that is not staged as mp4 (over-cap body, missing part, bad or other type, no temporary file): the lookup and the form read, nothing else |
| UploadVideo.RequestLogAfterStaging | handler_upload_video.go:70-133 | the whole log for each ending after staging: a copy or seek failure stops after the temporary file; a probe or ffmpeg failure after the probe; an open failure after the rewritten copy; then the deferred removals, newest first; a ready part gives the full upload log |
| UploadVideo.RequestLogUpdatesOnce | handler_upload_video.go:127-129 | UpdateVideo is called at most once, exactly when every gate before the object store passed, with the stored record whose only change is the reference "bucket,key" |
| UploadVideo.UploadLogUpdatesOnce | handler_upload_video.go:92-133 | the flat log of a request that reaches the upload holds exactly one update |
| UploadVideo.RequestLogPutsOnlyWhenReady | handler_upload_video.go:105-124 | the object is put exactly when every gate before the object store passed, under "{tag}/{id}.mp4" as an mp4 |
| UploadVideo.CommittedReferenceSignsUpload | handler_upload_video.go:113-129 | reading the committed record back through the signing path signs exactly the bucket and key the object was put under, when the bucket name holds no ',' |
| UploadVideo.WideVideoGoesUnderLandscape | handler_upload_video.go:92-115 | a 1920x1080 first stream puts the object under "landscape/" |
| UploadThumbnail.HandlerUploadThumbnail | handler_upload_thumbnail.go:18-73 | a malformed id: 400 before authentication; a missing or invalid token: 401 before the form is read; a form that does not parse, a missing part or an unparsable Content-Type: 500; only image/jpeg and image/png pass (else 415, no file); no known extension, or an error looking one up: 400; the file is created and written before the record is fetched; a failed create, write or record lookup: 500; a non-owner gets 401 after the file exists, and UpdateVideo is not called; a failed update: 500; UpdateVideo is called at most once, exactly when every gate passed; 200 iff it succeeds, returning the record with only its thumbnail URL set to the asset route for the file |
| UploadThumbnail.SaveThumbnail | handler_upload_thumbnail.go:75-112 | create, write, then fetch, in that order; a failed create, write or fetch: 500; an owner mismatch: 401 with three effects; a failed update: 500; the update carries the record with the thumbnail URL for "{id}.{ext}"; 200 iff the update succeeded, with the updated record as body |

## Left out

- Running ffprobe and ffmpeg: their outcomes are inputs. These are a run failure, undecodable output, or the decoded stream list for ffprobe, and success or an error for ffmpeg. The bytes of the rewritten file are not modelled.
- JSON decoding of ffprobe's output: the decoded stream list is an input.
- IEEE doubles: the model uses the exact quotient, which agrees with Go's float64 test only for moderate heights. A quotient that differs from a bound differs by at least 1/(10|h|), which is at least 10^-16 while |h| < 10^15. A quotient can round to the double nearest a bound, on the wrong side of it, only from within 7.8·10^-17 of the bound. Every width whose ratio is near a band is then below 2^53 and converts to float64 exactly; a larger width gives a ratio of about 9 or more, far from all four bounds. This argument is not proved here.
- VideoAspect.AspectFromStreams: for heights beyond about 1.5·10^15 the model and the code differ. With w = 3400000000000012 and h = 2000000000000007, `17h < 10w < 18h` holds, so the model says "landscape". The exact quotient is 1.7 + 5·10^-17, which rounds to the double nearest 1.7, so `aspRatio > 1.7` is false and Go says "other".
- Go's 64-bit `int` for widths and heights: modelled as unbounded integers.
- The AWS SDK: the presigner is a total function given as an input, and `PutObject` is a log event. What the upload transfers, and whether the object ends up complete, are not modelled, because the handler ignores the result.
- The filesystem: files appear only as log events, never as contents. `filepath.Join` is recorded as the pair (assets root, file name), since path cleaning is not modelled. The deferred `Close` calls are left out, and only the deferred `Remove` calls are logged.
- `crypto/rand`: the 32 bytes are an input. The source ignores the error of `rand.Read`.
- `mime.ParseMediaType` and `mime.ExtensionsByType`: their results are inputs, and the extension is opaque text. The standard library's extensions begin with a dot, so in practice the stored file name holds two dots (`{id}..png`).
- `uuid.Parse`, JWT extraction and validation, and the database: their results are inputs. For the video handler, the input is the UUID that `uuid.Parse` returns even when it fails: `uuid.Nil` for a wrong length, and a partly filled value for a bad hex digit. The handler never looks at that error.
- `http.MaxBytesReader`: modelled only as "a body longer than 1 << 30 bytes makes the form read fail". The thumbnail handler's `10 << 20` is the in-memory threshold of multipart parsing, not a cap, so it limits nothing in the model.
- HTTP response writing: a handler's result is its status code, plus the record for the thumbnail handler. Error messages and logging (`fmt.Println`) are not modelled.
- A thumbnail variant that stores the image inline as a data URI is not part of this code, so it is not modelled.
- Concurrency between requests: each handler call is modelled on its own.
