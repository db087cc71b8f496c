/** Byte-level encodings the app relies on through Foundation:
    `String.utf8` (UTF-8, RFC 3629), `Data.base64EncodedString()` (base64, section 4 of
    RFC 4648), `String(format: "%02x")` (lowercase hex) and `UUID.uuidString`
    (uppercase hex in the 8-4-4-4-12 layout). The decoders below are not called by the
    app; they are the inverses that show the encoders lose no information. */
module Encodings {
  import opened Wrappers

  type uint8 = x: int | 0 <= x < 256

  /** Foundation's `Date` (and `TimeInterval` differences of dates), in seconds. */
  type Time = real

  predicate IsDecimalDigit(c: char)
  {
    '0' <= c <= '9'
  }

  /** The number a string of decimal digits denotes, most significant digit first. */
  function DecimalValue(s: string): nat
    requires forall i | 0 <= i < |s| :: IsDecimalDigit(s[i])
  {
    if |s| == 0 then 0
    else
      assert IsDecimalDigit(s[|s| - 1]);
      DecimalValue(s[..|s| - 1]) * 10 + (s[|s| - 1] as int - '0' as int)
  }

  /** A canonical decimal numeral: one or more digits, with no leading zero except in
      "0" itself. */
  predicate IsNumeral(s: string)
  {
    && |s| > 0
    && (forall i | 0 <= i < |s| :: IsDecimalDigit(s[i]))
    && (s[0] == '0' ==> |s| == 1)
  }

  /** Swift's `"\(n)"` for an integer: the canonical decimal numeral of |n|, preceded by
      '-' exactly when n is negative. */
  function IntToString(n: int): (r: string)
    ensures |r| > 0 && (r[0] == '-' <==> n < 0)
    ensures n >= 0 ==> IsNumeral(r) && DecimalValue(r) == n
    ensures n < 0 ==> IsNumeral(r[1..]) && DecimalValue(r[1..]) == -n
    decreases if n < 0 then 1 - n else n
  {
    if n < 0 then
      var digits := IntToString(-n);
      assert ("-" + digits)[1..] == digits;
      "-" + digits
    else if n < 10 then [(48 + n) as char]
    else
      var prefix := IntToString(n / 10);
      var r := prefix + [(48 + n % 10) as char];
      assert r[..|r| - 1] == prefix;
      r
  }

  /** Different integers have different decimal texts. */
  lemma IntToStringInjective(m: int, n: int)
    ensures IntToString(m) == IntToString(n) <==> m == n
  {
    if IntToString(m) == IntToString(n) {
      var r := IntToString(m);
      if m < 0 {
        assert DecimalValue(r[1..]) == -m && DecimalValue(r[1..]) == -n;
      }
    }
  }

  // ---------------------------------------------------------------- UTF-8

  /** The UTF-8 encoding of one Unicode scalar value. */
  function Utf8Char(c: char): (r: seq<uint8>)
    ensures 1 <= |r| <= 4
    ensures |r| == 1 <==> c as int < 0x80
    ensures |r| == 1 ==> r[0] == c as int
  {
    var n := c as int;
    if n < 0x80 then [n]
    else if n < 0x800 then [0xC0 + n / 0x40, 0x80 + n % 0x40]
    else if n < 0x1_0000 then [0xE0 + n / 0x1000, 0x80 + (n / 0x40) % 0x40, 0x80 + n % 0x40]
    else [0xF0 + n / 0x4_0000, 0x80 + (n / 0x1000) % 0x40, 0x80 + (n / 0x40) % 0x40, 0x80 + n % 0x40]
  }

  /** `Data(s.utf8)`: the UTF-8 bytes of a string, character by character. */
  function Utf8(s: string): (r: seq<uint8>)
    ensures |s| <= |r| <= 4 * |s|
  {
    if s == [] then [] else Utf8Char(s[0]) + Utf8(s[1..])
  }

  /** Encoding a concatenation is concatenating the encodings. */
  lemma {:induction false} Utf8Append(a: string, b: string)
    ensures Utf8(a + b) == Utf8(a) + Utf8(b)
  {
    if a == [] {
      assert a + b == b;
    } else {
      assert (a + b)[0] == a[0];
      assert (a + b)[1..] == a[1..] + b;
      Utf8Append(a[1..], b);
      calc {
        Utf8(a + b);
        Utf8Char(a[0]) + Utf8(a[1..] + b);
        Utf8Char(a[0]) + (Utf8(a[1..]) + Utf8(b));
        (Utf8Char(a[0]) + Utf8(a[1..])) + Utf8(b);
      }
    }
  }

  /** An ASCII string is encoded one byte per character, each byte its code. */
  lemma {:induction false} Utf8OfAscii(s: string)
    requires forall i :: 0 <= i < |s| ==> s[i] as int < 0x80
    ensures |Utf8(s)| == |s|
    ensures forall i :: 0 <= i < |s| ==> Utf8(s)[i] == s[i] as int
  {
    if s != [] {
      Utf8OfAscii(s[1..]);
    }
  }

  // ---------------------------------------------------------------- base64

  /** The base64 alphabet of table 1 in RFC 4648: A-Z, a-z, 0-9, '+', '/'. */
  function Base64Digit(i: nat): (c: char)
    requires i < 64
    ensures c != '='
  {
    if i < 26 then (65 + i) as char
    else if i < 52 then (97 + i - 26) as char
    else if i < 62 then (48 + i - 52) as char
    else if i == 62 then '+'
    else '/'
  }

  /** The value of a base64 character; `None` for anything outside the alphabet. */
  function Base64Value(c: char): (r: Option<nat>)
    ensures r.Some? ==> r.value < 64 && Base64Digit(r.value) == c
  {
    if 'A' <= c <= 'Z' then Some(c as int - 65)
    else if 'a' <= c <= 'z' then Some(c as int - 97 + 26)
    else if '0' <= c <= '9' then Some(c as int - 48 + 52)
    else if c == '+' then Some(62)
    else if c == '/' then Some(63)
    else None
  }

  lemma Base64ValueOfDigit(i: nat)
    requires i < 64
    ensures Base64Value(Base64Digit(i)) == Some(i)
  {
  }

  /** One group of one to three bytes as four characters, padded with '='. */
  function EncodeGroup(b: seq<uint8>): (r: string)
    requires 1 <= |b| <= 3
    ensures |r| == 4
  {
    var b0 := b[0];
    var b1 := if |b| > 1 then b[1] else 0;
    var b2 := if |b| > 2 then b[2] else 0;
    [ Base64Digit(b0 / 4),
      Base64Digit((b0 % 4) * 16 + b1 / 16),
      if |b| > 1 then Base64Digit((b1 % 16) * 4 + b2 / 64) else '=',
      if |b| > 2 then Base64Digit(b2 % 64) else '=' ]
  }

  /** `Data.base64EncodedString()`: groups of three bytes, the last one padded. */
  function Base64Encode(b: seq<uint8>): (r: string)
    ensures |r| == 4 * ((|b| + 2) / 3)
    ensures forall i :: 0 <= i < |r| ==> Base64Value(r[i]).Some? || r[i] == '='
  {
    if |b| == 0 then []
    else if |b| <= 3 then
      assert (|b| + 2) / 3 == 1;
      EncodeGroup(b)
    else
      assert (|b| + 2) / 3 == 1 + (|b[3..]| + 2) / 3;
      EncodeGroup(b[..3]) + Base64Encode(b[3..])
  }

  /** Decodes one group of four characters; '=' may only pad the end of the group. */
  function DecodeGroup(s: string): (r: Option<seq<uint8>>)
    requires |s| == 4
  {
    var v0, v1, v2, v3 := Base64Value(s[0]), Base64Value(s[1]), Base64Value(s[2]), Base64Value(s[3]);
    if v0.None? || v1.None? then None
    else if s[2] == '=' && s[3] == '=' then
      Some([v0.value * 4 + v1.value / 16])
    else if v2.None? then None
    else if s[3] == '=' then
      Some([v0.value * 4 + v1.value / 16, (v1.value % 16) * 16 + v2.value / 4])
    else if v3.None? then None
    else
      Some([v0.value * 4 + v1.value / 16, (v1.value % 16) * 16 + v2.value / 4,
            (v2.value % 4) * 64 + v3.value])
  }

  /** RFC 4648 decoding: the inverse of `Base64Encode`. */
  function Base64Decode(s: string): (r: Option<seq<uint8>>)
    decreases |s|
  {
    if |s| == 0 then Some([])
    else if |s| < 4 then None
    else if |s| == 4 then DecodeGroup(s)
    else if s[2] == '=' || s[3] == '=' then None
    else
      match (DecodeGroup(s[..4]), Base64Decode(s[4..]))
      case (Some(g), Some(rest)) => Some(g + rest)
      case _ => None
  }

  /** The 6-bit digits of a group put back together give the original bytes. */
  lemma GroupArithmetic(b0: uint8, b1: uint8, b2: uint8)
    ensures b0 / 4 * 4 + ((b0 % 4) * 16 + b1 / 16) / 16 == b0
    ensures ((b0 % 4) * 16 + b1 / 16) % 16 * 16 + ((b1 % 16) * 4 + b2 / 64) / 4 == b1
    ensures ((b1 % 16) * 4 + b2 / 64) % 4 * 64 + b2 % 64 == b2
  {
    var c1, c2 := (b0 % 4) * 16 + b1 / 16, (b1 % 16) * 4 + b2 / 64;
    assert c1 / 16 == b0 % 4 && c1 % 16 == b1 / 16;
    assert c2 / 4 == b1 % 16 && c2 % 4 == b2 / 64;
  }

  lemma DecodeEncodeGroup1(b0: uint8)
    ensures DecodeGroup(EncodeGroup([b0])) == Some([b0])
  {
    var c0, c1 := b0 / 4, (b0 % 4) * 16;
    GroupArithmetic(b0, 0, 0);
    Base64ValueOfDigit(c0);
    Base64ValueOfDigit(c1);
    assert EncodeGroup([b0]) == [Base64Digit(c0), Base64Digit(c1), '=', '='];
  }

  lemma DecodeEncodeGroup2(b0: uint8, b1: uint8)
    ensures DecodeGroup(EncodeGroup([b0, b1])) == Some([b0, b1])
  {
    var c0, c1, c2 := b0 / 4, (b0 % 4) * 16 + b1 / 16, (b1 % 16) * 4;
    GroupArithmetic(b0, b1, 0);
    Base64ValueOfDigit(c0);
    Base64ValueOfDigit(c1);
    Base64ValueOfDigit(c2);
    assert EncodeGroup([b0, b1]) == [Base64Digit(c0), Base64Digit(c1), Base64Digit(c2), '='];
  }

  lemma DecodeEncodeGroup3(b0: uint8, b1: uint8, b2: uint8)
    ensures DecodeGroup(EncodeGroup([b0, b1, b2])) == Some([b0, b1, b2])
  {
    var c0, c1, c2, c3 := b0 / 4, (b0 % 4) * 16 + b1 / 16, (b1 % 16) * 4 + b2 / 64, b2 % 64;
    GroupArithmetic(b0, b1, b2);
    Base64ValueOfDigit(c0);
    Base64ValueOfDigit(c1);
    Base64ValueOfDigit(c2);
    Base64ValueOfDigit(c3);
    assert EncodeGroup([b0, b1, b2]) == [Base64Digit(c0), Base64Digit(c1), Base64Digit(c2), Base64Digit(c3)];
  }

  /** Decoding one encoded group of one to three bytes gives the bytes back. */
  lemma DecodeEncodeGroup(b: seq<uint8>)
    requires 1 <= |b| <= 3
    ensures DecodeGroup(EncodeGroup(b)) == Some(b)
  {
    if |b| == 1 {
      assert b == [b[0]];
      DecodeEncodeGroup1(b[0]);
    } else if |b| == 2 {
      assert b == [b[0], b[1]];
      DecodeEncodeGroup2(b[0], b[1]);
    } else {
      assert b == [b[0], b[1], b[2]];
      DecodeEncodeGroup3(b[0], b[1], b[2]);
    }
  }

  /** Round trip: decoding the encoding of any byte string gives it back. */
  lemma {:induction false} Base64RoundTrip(b: seq<uint8>)
    ensures Base64Decode(Base64Encode(b)) == Some(b)
    decreases |b|
  {
    if |b| == 0 {
    } else if |b| <= 3 {
      DecodeEncodeGroup(b);
    } else {
      var s := Base64Encode(b);
      var g := EncodeGroup(b[..3]);
      assert s == g + Base64Encode(b[3..]);
      assert s[..4] == g && s[4..] == Base64Encode(b[3..]);
      DecodeEncodeGroup(b[..3]);
      Base64RoundTrip(b[3..]);
      assert b[..3] + b[3..] == b;
    }
  }

  /** The encoding ends in '=' exactly when the length is not a multiple of three. */
  lemma {:induction false} Base64Padding(b: seq<uint8>)
    requires |b| > 0
    ensures var r := Base64Encode(b); r[|r| - 1] == '=' <==> |b| % 3 != 0
    decreases |b|
  {
    var r := Base64Encode(b);
    if |b| <= 3 {
      assert r == EncodeGroup(b) && |r| == 4;
      assert r[3] == '=' <==> |b| < 3;
      assert |b| % 3 != 0 <==> |b| < 3;
    } else {
      var t := Base64Encode(b[3..]);
      assert r == EncodeGroup(b[..3]) + t;
      assert |r| == 4 + |t|;
      assert r[|r| - 1] == t[|t| - 1];
      ModThreeShift(|b[3..]|);
      Base64Padding(b[3..]);
    }
  }

  lemma ModThreeShift(n: nat)
    ensures (n + 3) % 3 == n % 3
  {
  }

  /** Base64 is injective: two encodings agree exactly when the bytes do. */
  lemma Base64Injective(a: seq<uint8>, b: seq<uint8>)
    ensures Base64Encode(a) == Base64Encode(b) <==> a == b
  {
    Base64RoundTrip(a);
    Base64RoundTrip(b);
  }

  // ---------------------------------------------------------------- hex

  /** One hexadecimal digit, lower case (`%02x`) or upper case (`uuidString`). */
  function HexDigit(n: nat, upper: bool): (c: char)
    requires n < 16
  {
    if n < 10 then (48 + n) as char
    else if upper then (65 + n - 10) as char
    else (97 + n - 10) as char
  }

  predicate IsHexDigit(c: char, upper: bool)
  {
    '0' <= c <= '9' || (if upper then 'A' <= c <= 'F' else 'a' <= c <= 'f')
  }

  function HexDigitValue(c: char): (r: Option<nat>)
    ensures r.Some? ==> r.value < 16
  {
    if '0' <= c <= '9' then Some(c as int - 48)
    else if 'a' <= c <= 'f' then Some(c as int - 97 + 10)
    else if 'A' <= c <= 'F' then Some(c as int - 65 + 10)
    else None
  }

  /** Every byte as two hexadecimal digits, high nibble first. */
  function Hex(b: seq<uint8>, upper: bool): (r: string)
    ensures |r| == 2 * |b|
    ensures forall i :: 0 <= i < |r| ==> IsHexDigit(r[i], upper)
  {
    if b == [] then [] else [HexDigit(b[0] / 16, upper), HexDigit(b[0] % 16, upper)] + Hex(b[1..], upper)
  }

  /** Reads pairs of hexadecimal digits back into bytes: the inverse of `Hex`. */
  function HexDecode(s: string): (r: Option<seq<uint8>>)
    decreases |s|
  {
    if |s| == 0 then Some([])
    else if |s| == 1 then None
    else
      match (HexDigitValue(s[0]), HexDigitValue(s[1]), HexDecode(s[2..]))
      case (Some(hi), Some(lo), Some(rest)) => Some([hi * 16 + lo] + rest)
      case _ => None
  }

  lemma {:induction false} HexRoundTrip(b: seq<uint8>, upper: bool)
    ensures HexDecode(Hex(b, upper)) == Some(b)
  {
    if b != [] {
      var s := Hex(b, upper);
      assert s[2..] == Hex(b[1..], upper);
      HexRoundTrip(b[1..], upper);
      assert [b[0]] + b[1..] == b;
    }
  }

  lemma HexInjective(a: seq<uint8>, b: seq<uint8>, upper: bool)
    ensures Hex(a, upper) == Hex(b, upper) <==> a == b
  {
    HexRoundTrip(a, upper);
    HexRoundTrip(b, upper);
  }

  // ---------------------------------------------------------------- UUID

  /** A `UUID`: sixteen bytes, compared by value. */
  type Uuid = b: seq<uint8> | |b| == 16 witness seq(16, _ => 0)

  /** `UUID.uuidString`: 32 upper-case hex digits grouped 8-4-4-4-12 by dashes. */
  function UuidString(u: Uuid): (r: string)
    ensures |r| == 36
    ensures r[8] == '-' && r[13] == '-' && r[18] == '-' && r[23] == '-'
    ensures forall i :: 0 <= i < 36 && i !in {8, 13, 18, 23} ==> IsHexDigit(r[i], true)
  {
    Hex(u[..4], true) + "-" + Hex(u[4..6], true) + "-" + Hex(u[6..8], true) + "-"
      + Hex(u[8..10], true) + "-" + Hex(u[10..], true)
  }
}
