/**
 * Base 64 encoding with the URL- and filename-safe alphabet of RFC 4648,
 * section 5, with the trailing '=' padding omitted as section 3.2 allows
 * (Go's `base64.RawURLEncoding`). The upload handlers name stored objects and
 * asset files after the encoding of 32 random bytes. The decoder is the
 * encoder's partner: it shows that no information is lost, so distinct random
 * bytes give distinct names.
 */
module Base64Url {
  import opened Wrappers

  type Byte = b: int | 0 <= b < 256
  type Sextet = d: int | 0 <= d < 64

  /** The 64 characters of the alphabet: letters, digits, '-' and '_'. */
  predicate IsUrlSafe(c: char)
  {
    'A' <= c <= 'Z' || 'a' <= c <= 'z' || '0' <= c <= '9' || c == '-' || c == '_'
  }

  /** The character that stands for the 6-bit value `d` (RFC 4648, Table 2). */
  function Char(d: Sextet): (c: char)
    ensures IsUrlSafe(c)
  {
    if d < 26 then (65 + d) as char
    else if d < 52 then (97 + d - 26) as char
    else if d < 62 then (48 + d - 52) as char
    else if d == 62 then '-'
    else '_'
  }

  /** The 6-bit value a character stands for, if it belongs to the alphabet. */
  function Value(c: char): Option<Sextet>
  {
    if 'A' <= c <= 'Z' then Some(c as int - 65)
    else if 'a' <= c <= 'z' then Some(c as int - 97 + 26)
    else if '0' <= c <= '9' then Some(c as int - 48 + 52)
    else if c == '-' then Some(62)
    else if c == '_' then Some(63)
    else None
  }

  lemma ValueOfChar(d: Sextet)
    ensures Value(Char(d)) == Some(d)
  {
  }

  /** Number of characters the unpadded encoding of `n` bytes has: ceil(8n / 6). */
  function EncodedLength(n: nat): nat
  {
    (4 * n + 2) / 3
  }

  /**
   * The 6-bit groups of `b`: each 3-byte quantum becomes four groups; a final
   * quantum of 2 bytes becomes three groups and one of 1 byte two groups, the
   * missing low bits being zero (RFC 4648, section 4).
   */
  function Sextets(b: seq<Byte>): (d: seq<Sextet>)
    ensures |d| == EncodedLength(|b|)
    decreases |b|
  {
    if |b| >= 3 then
      [b[0] / 4, b[0] % 4 * 16 + b[1] / 16, b[1] % 16 * 4 + b[2] / 64, b[2] % 64] + Sextets(b[3..])
    else if |b| == 2 then
      [b[0] / 4, b[0] % 4 * 16 + b[1] / 16, b[1] % 16 * 4]
    else if |b| == 1 then
      [b[0] / 4, b[0] % 4 * 16]
    else
      []
  }

  /** Reassembles bytes from 6-bit groups; a lone trailing group cannot encode a byte. */
  function Unsextets(d: seq<Sextet>): Option<seq<Byte>>
    decreases |d|
  {
    if |d| >= 4 then
      var rest := Unsextets(d[4..]);
      var quantum: seq<Byte> := [d[0] as int * 4 + d[1] / 16, d[1] as int % 16 * 16 + d[2] / 4, d[2] as int % 4 * 64 + d[3]];
      if rest.None? then None else Some(quantum + rest.value)
    else if |d| == 3 then
      var tail: seq<Byte> := [d[0] as int * 4 + d[1] / 16, d[1] as int % 16 * 16 + d[2] / 4];
      Some(tail)
    else if |d| == 2 then
      var tail: seq<Byte> := [d[0] as int * 4 + d[1] / 16];
      Some(tail)
    else if |d| == 1 then
      None
    else
      Some([])
  }

  function Chars(d: seq<Sextet>): (s: string)
    ensures |s| == |d|
    ensures forall i :: 0 <= i < |s| ==> s[i] == Char(d[i])
  {
    seq(|d|, i requires 0 <= i < |d| => Char(d[i]))
  }

  function Values(s: string): Option<seq<Sextet>>
    decreases |s|
  {
    if s == [] then Some([])
    else
      var v := Value(s[0]);
      var rest := Values(s[1..]);
      if v.None? || rest.None? then None else Some([v.value] + rest.value)
  }

  /** `base64.RawURLEncoding.EncodeToString(b)`. */
  function Encode(b: seq<Byte>): (s: string)
    ensures |s| == EncodedLength(|b|)
    ensures forall i :: 0 <= i < |s| ==> IsUrlSafe(s[i])
  {
    Chars(Sextets(b))
  }

  /** Decoding of the unpadded URL-safe form; `None` for a character outside the alphabet or a dangling group. */
  function Decode(s: string): Option<seq<Byte>>
  {
    var d := Values(s);
    if d.None? then None else Unsextets(d.value)
  }

  lemma {:induction false} ValuesOfChars(d: seq<Sextet>)
    ensures Values(Chars(d)) == Some(d)
    decreases |d|
  {
    if d != [] {
      var s := Chars(d);
      assert s[1..] == Chars(d[1..]);
      ValuesOfChars(d[1..]);
      ValueOfChar(d[0]);
      assert [d[0]] + d[1..] == d;
    }
  }

  lemma QuantumRoundTrip(b0: Byte, b1: Byte, b2: Byte)
    ensures (b0 % 4 * 16 + b1 / 16) / 16 == b0 % 4
    ensures (b0 % 4 * 16 + b1 / 16) % 16 == b1 / 16
    ensures (b1 % 16 * 4 + b2 / 64) / 4 == b1 % 16
    ensures (b1 % 16 * 4 + b2 / 64) % 4 == b2 / 64
  {
  }

  lemma {:induction false} UnsextetsOfSextets(b: seq<Byte>)
    ensures Unsextets(Sextets(b)) == Some(b)
    decreases |b|
  {
    var d := Sextets(b);
    if |b| >= 3 {
      QuantumRoundTrip(b[0], b[1], b[2]);
      assert d[4..] == Sextets(b[3..]);
      UnsextetsOfSextets(b[3..]);
      assert b == [b[0], b[1], b[2]] + b[3..];
    } else if |b| == 2 {
      QuantumRoundTrip(b[0], b[1], 0);
      assert b == [b[0], b[1]];
    } else if |b| == 1 {
      QuantumRoundTrip(b[0], 0, 0);
      assert b == [b[0]];
    }
  }

  /** Decoding undoes encoding. */
  lemma RoundTrip(b: seq<Byte>)
    ensures Decode(Encode(b)) == Some(b)
  {
    ValuesOfChars(Sextets(b));
    UnsextetsOfSextets(b);
    assert Values(Encode(b)) == Some(Sextets(b));
  }

  /** Distinct byte strings have distinct encodings. */
  lemma EncodeInjective(a: seq<Byte>, b: seq<Byte>)
    requires Encode(a) == Encode(b)
    ensures a == b
  {
    RoundTrip(a);
    RoundTrip(b);
  }

  /**
   * The identifier the handlers build from 32 random bytes: 43 characters of
   * the alphabet, so it holds no ',', '/' or '.'.
   */
  lemma RandomIdShape(b: seq<Byte>)
    requires |b| == 32
    ensures |Encode(b)| == 43
    ensures ',' !in Encode(b) && '/' !in Encode(b) && '.' !in Encode(b)
  {
  }
}
