/** `CryptoUtilities`: hashing, HMAC signing and verification, nonce and token shapes,
    key derivation and the timestamp tolerance check. SHA-256 and HMAC-SHA256 are
    not modelled: they are supplied as the two functions of `Primitives`, about which
    nothing is assumed beyond the 32-byte digest length. */
module CryptoUtilities {
  import opened Wrappers
  import opened Encodings

  /** A SHA-256 digest or HMAC-SHA256 authentication code: 32 bytes. */
  type Digest = d: seq<uint8> | |d| == 32 witness seq(32, _ => 0)

  /** CryptoKit's `SHA256.hash(data:)` and `HMAC<SHA256>.authenticationCode(for:using:)`,
      the latter taking the key bytes first and the message second. */
  datatype Primitives = Primitives(
    sha256: seq<uint8> -> Digest,
    hmacSha256: (seq<uint8>, seq<uint8>) -> Digest)

  /** `sha256Hash(of: Data)`: the digest as two lower-case hex digits per byte. */
  function Sha256Hash(p: Primitives, data: seq<uint8>): (r: string)
    ensures |r| == 64
    ensures forall i :: 0 <= i < |r| ==> IsHexDigit(r[i], false)
    ensures HexDecode(r) == Some(p.sha256(data))
  {
    HexRoundTrip(p.sha256(data), false);
    Hex(p.sha256(data), false)
  }

  /** `sha256Hash(of: String)`: the hash of the string's UTF-8 bytes. A Swift string
      always has a UTF-8 form, so the empty-string fallback is never taken. */
  function Sha256HashOfString(p: Primitives, s: string): (r: string)
    ensures |r| == 64
    ensures HexDecode(r) == Some(p.sha256(Utf8(s)))
  {
    Sha256Hash(p, Utf8(s))
  }

  /** `hmacSignature(for: Data, key:)`: base64 of the HMAC keyed with the key's UTF-8 bytes. */
  function HmacSignature(p: Primitives, data: seq<uint8>, key: string): (r: string)
    ensures |r| == 44 && r[43] == '='
    ensures Base64Decode(r) == Some(p.hmacSha256(Utf8(key), data))
  {
    var mac := p.hmacSha256(Utf8(key), data);
    Base64RoundTrip(mac);
    Base64Padding(mac);
    assert |mac| == 32 && |mac| % 3 == 2 && (|mac| + 2) / 3 == 11;
    Base64Encode(mac)
  }

  /** `hmacSignature(for: String, key:)`: the same over the string's UTF-8 bytes. */
  function HmacSignatureOfString(p: Primitives, s: string, key: string): (r: string)
    ensures |r| == 44
    ensures Base64Decode(r) == Some(p.hmacSha256(Utf8(key), Utf8(s)))
  {
    HmacSignature(p, Utf8(s), key)
  }

  /** `verifyHMACSignature`: recompute the signature and compare the strings. */
  function VerifyHmacSignature(p: Primitives, signature: string, data: seq<uint8>, key: string): bool
  {
    signature == HmacSignature(p, data, key)
  }

  /** Round trip: a signature made with a key verifies for the same data and key. */
  lemma SignThenVerify(p: Primitives, data: seq<uint8>, key: string)
    ensures VerifyHmacSignature(p, HmacSignature(p, data, key), data, key)
  {
  }

  /** Verification for other data succeeds exactly when the two messages have the
      same authentication code: base64 adds no collisions of its own. */
  lemma VerifyOtherData(p: Primitives, data: seq<uint8>, other: seq<uint8>, key: string)
    ensures VerifyHmacSignature(p, HmacSignature(p, data, key), other, key)
        <==> p.hmacSha256(Utf8(key), data) == p.hmacSha256(Utf8(key), other)
  {
    Base64Injective(p.hmacSha256(Utf8(key), data), p.hmacSha256(Utf8(key), other));
  }

  /** `generateNonce(length:)` once the random bytes are drawn: their base64 form.
      The default length of 32 bytes gives 44 characters. */
  function Nonce(randomBytes: seq<uint8>): (r: string)
    ensures |r| == 4 * ((|randomBytes| + 2) / 3)
    ensures |randomBytes| == 32 ==> |r| == 44
    ensures Base64Decode(r) == Some(randomBytes)
  {
    Base64RoundTrip(randomBytes);
    assert |randomBytes| == 32 ==> (|randomBytes| + 2) / 3 == 11;
    Base64Encode(randomBytes)
  }

  /** `generateSecureToken()` once the UUID and 16 random bytes are drawn: the UUID
      string, a dash, and a 24-character base64 nonce. */
  function SecureToken(uuid: Uuid, randomBytes: seq<uint8>): (r: string)
    requires |randomBytes| == 16
    ensures |r| == 61 && r[36] == '-'
    ensures r[..36] == UuidString(uuid) && Base64Decode(r[37..]) == Some(randomBytes)
  {
    var u, n := UuidString(uuid), Nonce(randomBytes);
    assert (|randomBytes| + 2) / 3 == 6 && |n| == 24;
    var token := u + "-" + n;
    assert token[..36] == u && token[36] == '-' && token[37..] == n;
    token
  }

  /** `deriveKey(from:salt:)`: one SHA-256 pass over the password bytes followed by the
      salt bytes (no iteration, no stretching). */
  function DeriveKey(p: Primitives, password: string, salt: string): Digest
  {
    p.sha256(Utf8(password) + Utf8(salt))
  }

  /** The derived key is the hash of the UTF-8 bytes of the concatenated strings. */
  lemma DeriveKeyOfConcatenation(p: Primitives, password: string, salt: string)
    ensures DeriveKey(p, password, salt) == p.sha256(Utf8(password + salt))
  {
    Utf8Append(password, salt);
  }

  function Abs(x: real): real
  {
    if x < 0.0 then -x else x
  }

  /** `isTimestampValid(_:tolerance:)` with the clock reading `now` made a parameter:
      the distance between now and the timestamp, in either direction, is at most the
      tolerance. */
  function IsTimestampValid(timestamp: Time, now: Time, tolerance: real := 300.0): bool
  {
    Abs(now - timestamp) <= tolerance
  }

  /** The check is symmetric in past and future and inclusive at the bound. */
  lemma TimestampToleranceShape(timestamp: Time, now: Time, tolerance: real)
    requires tolerance >= 0.0
    ensures IsTimestampValid(timestamp, now, tolerance) <==> IsTimestampValid(now, timestamp, tolerance)
    ensures IsTimestampValid(now - tolerance, now, tolerance) && IsTimestampValid(now + tolerance, now, tolerance)
    ensures IsTimestampValid(timestamp, now, tolerance)
        <==> now - tolerance <= timestamp <= now + tolerance
  {
  }

  /** Timestamps 400 seconds old or 400 seconds ahead fail the default tolerance. */
  lemma TimestampFourHundredSecondsOff(now: Time)
    ensures !IsTimestampValid(now - 400.0, now)
    ensures !IsTimestampValid(now + 400.0, now)
    ensures IsTimestampValid(now, now)
  {
  }
}
