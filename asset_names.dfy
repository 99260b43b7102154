/**
 * How the handlers name what they store: the object key of a video, the
 * stored reference "bucket,key" written to the record, and the file name and
 * URL of a thumbnail. The random part is the unpadded base64url encoding of
 * 32 random bytes (a 43-character identifier).
 */
module AssetNames {
  import opened Wrappers
  import opened GoStrings
  import opened Base64Url

  /** `fmt.Sprintf("%s/%s.mp4", aspectRatio, id)` (handler_upload_video.go). */
  function VideoObjectKey(aspect: string, random: seq<Byte>): (key: string)
    ensures |key| == |aspect| + EncodedLength(|random|) + 5
  {
    aspect + "/" + Encode(random) + ".mp4"
  }

  /** Splitting a key at '/' gives back the tag and the file part, when the tag holds no '/'. */
  lemma VideoKeySplits(aspect: string, random: seq<Byte>)
    ensures '/' !in aspect ==> Split(VideoObjectKey(aspect, random), '/') == [aspect, Encode(random) + ".mp4"]
    ensures ',' !in aspect ==> ',' !in VideoObjectKey(aspect, random)
  {
    var id := Encode(random);
    assert '/' !in id && ',' !in id by {
      forall i | 0 <= i < |id| ensures id[i] != '/' && id[i] != ',' { assert IsUrlSafe(id[i]); }
    }
    var key := aspect + "/" + id + ".mp4";
    assert '/' !in id + ".mp4";
    if '/' !in aspect {
      assert key == aspect + ['/'] + (id + ".mp4");
      SplitJoin([aspect, id + ".mp4"], '/');
      assert Join([aspect, id + ".mp4"], '/') == key by {
        assert [aspect, id + ".mp4"][1..] == [id + ".mp4"];
      }
    }
  }

  /** `fmt.Sprintf("%s,%s", cfg.s3Bucket, id)`: splitting at ',' gives the two halves back. */
  function StoredReference(bucket: string, key: string): (ref: string)
    ensures |ref| == |bucket| + |key| + 1
  {
    bucket + "," + key
  }

  /**
   * The stored reference holds one ',' more than its halves; splitting it at
   * ',' gives the halves back when neither holds a ','.
   */
  lemma ReferenceSplits(bucket: string, key: string)
    ensures ',' !in bucket && ',' !in key ==> Split(StoredReference(bucket, key), ',') == [bucket, key]
    ensures Count(StoredReference(bucket, key), ',') == Count(bucket, ',') + Count(key, ',') + 1
  {
    var ref := bucket + "," + key;
    CountConcat(bucket, "," + key, ',');
    CountConcat(",", key, ',');
    assert ref == bucket + ("," + key);
    if ',' !in bucket && ',' !in key {
      SplitJoin([bucket, key], ',');
      assert Join([bucket, key], ',') == ref by {
        assert [bucket, key][1..] == [key];
      }
    }
  }

  lemma {:induction false} CountConcat(a: string, b: string, c: char)
    ensures Count(a + b, c) == Count(a, c) + Count(b, c)
    decreases |a|
  {
    if a != [] {
      assert (a + b)[1..] == a[1..] + b;
      CountConcat(a[1..], b, c);
    } else {
      assert a + b == b;
    }
  }

  /**
   * A key built from one of the three classification tags and 32 random bytes
   * has exactly one '/', right after the tag, no ',', and a 43-character id
   * from which the random bytes can be read back.
   */
  lemma VideoKeyShape(aspect: string, random: seq<Byte>)
    requires aspect == "landscape" || aspect == "portrait" || aspect == "other"
    requires |random| == 32
    ensures Count(VideoObjectKey(aspect, random), '/') == 1
    ensures ',' !in VideoObjectKey(aspect, random)
    ensures VideoObjectKey(aspect, random)[..|aspect| + 1] == aspect + "/"
    ensures Decode(VideoObjectKey(aspect, random)[|aspect| + 1..|aspect| + 44]) == Some(random)
  {
    VideoKeySplits(aspect, random);
    var key := VideoObjectKey(aspect, random);
    var id := Encode(random);
    assert key == aspect + "/" + id + ".mp4";
    assert key[|aspect| + 1..|aspect| + 44] == id;
    RoundTrip(random);
  }

  /** `fmt.Sprintf("%s.%s", id, extensions[0])` (handler_upload_thumbnail.go). */
  function ThumbnailFileName(random: seq<Byte>, extension: string): (name: string)
    ensures |random| == 32 ==>
      |name| == 44 + |extension| && name[43] == '.' && name[44..] == extension &&
      '/' !in name[..43] && Decode(name[..43]) == Some(random)
  {
    if |random| == 32 then ThumbnailIdRecoverable(random, extension); Encode(random) + "." + extension
    else Encode(random) + "." + extension
  }

  lemma ThumbnailIdRecoverable(random: seq<Byte>, extension: string)
    requires |random| == 32
    ensures var name := Encode(random) + "." + extension;
      '/' !in name[..43] && Decode(name[..43]) == Some(random)
  {
    RandomIdShape(random);
    assert (Encode(random) + "." + extension)[..43] == Encode(random);
    RoundTrip(random);
  }

  /** `fmt.Sprintf("http://localhost:%s/assets/%s", cfg.port, name)`: the static route serving the file. */
  function ThumbnailUrl(port: string, name: string): (url: string)
    ensures |url| > |name| && url[|url| - |name|..] == name
  {
    "http://localhost:" + port + "/assets/" + name
  }
}
