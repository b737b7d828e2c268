/** JavaScript's `encodeURIComponent`, used for the `text=` parameter of every
    link: each character outside the unreserved set is written as the
    percent-escapes of its UTF-8 bytes (section 2.1 of RFC 3986, upper-case
    hexadecimal). Its partner is a percent decoder back to bytes. */
module UriEncoding {
  import opened Common

  type Byte = b: int | 0 <= b < 256

  /** The characters `encodeURIComponent` leaves as they are. */
  predicate Unreserved(c: char) {
    ('A' <= c <= 'Z') || ('a' <= c <= 'z') || ('0' <= c <= '9') ||
    c == '-' || c == '_' || c == '.' || c == '!' || c == '~' ||
    c == '*' || c == '\'' || c == '(' || c == ')'
  }

  /** The UTF-8 encoding of one Unicode scalar value. */
  function Utf8(c: char): (bs: seq<Byte>)
    ensures 1 <= |bs| <= 4
    ensures (c as int < 0x80) <==> |bs| == 1
  {
    var n := c as int;
    if n < 0x80 then [n]
    else if n < 0x800 then [0xC0 + n / 64, 0x80 + n % 64]
    else if n < 0x10000 then [0xE0 + n / 4096, 0x80 + (n / 64) % 64, 0x80 + n % 64]
    else [0xF0 + n / 262144, 0x80 + (n / 4096) % 64, 0x80 + (n / 64) % 64, 0x80 + n % 64]
  }

  /** The UTF-8 encoding of a string. */
  function Utf8String(s: string): seq<Byte> {
    if s == [] then [] else Utf8(s[0]) + Utf8String(s[1..])
  }

  predicate IsHexUpper(c: char) { ('0' <= c <= '9') || ('A' <= c <= 'F') }

  function HexDigit(d: int): (c: char)
    requires 0 <= d < 16
    ensures IsHexUpper(c)
  {
    if d < 10 then ('0' as int + d) as char else ('A' as int + d - 10) as char
  }

  function HexValue(c: char): (d: int)
    requires IsHexUpper(c)
    ensures 0 <= d < 16
  {
    if c <= '9' then c as int - '0' as int else c as int - 'A' as int + 10
  }

  function PercentBytes(bs: seq<Byte>): (r: string)
    ensures |r| == 3 * |bs|
  {
    if bs == [] then [] else ['%', HexDigit(bs[0] / 16), HexDigit(bs[0] % 16)] + PercentBytes(bs[1..])
  }

  function EncodeChar(c: char): string {
    if Unreserved(c) then [c] else PercentBytes(Utf8(c))
  }

  /** Every character of an encoded text is unreserved, a '%' or an upper-case hex digit. */
  predicate UriSafe(r: string) {
    forall i :: 0 <= i < |r| ==> Unreserved(r[i]) || r[i] == '%' || IsHexUpper(r[i])
  }

  lemma {:induction false} PercentBytesSafe(bs: seq<Byte>)
    ensures UriSafe(PercentBytes(bs))
  {
    if bs != [] {
      PercentBytesSafe(bs[1..]);
    }
  }

  function EncodeURIComponent(s: string): (r: string)
    ensures UriSafe(r)
    ensures (forall i :: 0 <= i < |s| ==> Unreserved(s[i])) ==> r == s
  {
    if s == [] then []
    else
      PercentBytesSafe(Utf8(s[0]));
      EncodeChar(s[0]) + EncodeURIComponent(s[1..])
  }

  function Prepend(bs: seq<Byte>, rest: Option<seq<Byte>>): Option<seq<Byte>> {
    match rest
    case None => None
    case Some(tail) => Some(bs + tail)
  }

  /** Percent decoding to bytes: `%XY` is the byte 0xXY, any other character
      stands for its own UTF-8 bytes; a malformed escape gives None. */
  function PercentDecode(r: string): Option<seq<Byte>>
    decreases |r|
  {
    if r == [] then Some([])
    else if r[0] == '%' then
      if |r| >= 3 && IsHexUpper(r[1]) && IsHexUpper(r[2]) then
        Prepend([16 * HexValue(r[1]) + HexValue(r[2])], PercentDecode(r[3..]))
      else None
    else Prepend(Utf8(r[0]), PercentDecode(r[1..]))
  }

  lemma HexRoundTrip(d: int)
    requires 0 <= d < 16
    ensures HexValue(HexDigit(d)) == d
  {
  }

  lemma {:induction false} PercentBytesDecode(bs: seq<Byte>, rest: string)
    ensures PercentDecode(PercentBytes(bs) + rest) == Prepend(bs, PercentDecode(rest))
  {
    if bs != [] {
      var b := bs[0];
      var t := PercentBytes(bs[1..]) + rest;
      assert PercentBytes(bs) + rest == ['%', HexDigit(b / 16), HexDigit(b % 16)] + t;
      HexRoundTrip(b / 16);
      HexRoundTrip(b % 16);
      DecodeEscape(HexDigit(b / 16), HexDigit(b % 16), t);
      PercentBytesDecode(bs[1..], rest);
      PrependTwice([b], bs[1..], PercentDecode(rest));
      assert [b] + bs[1..] == bs;
    } else {
      assert PercentBytes(bs) + rest == rest;
      var tail := PercentDecode(rest);
      if tail.Some? {
        assert bs + tail.value == tail.value;
      }
    }
  }

  /** An escape of two upper-case hex digits decodes to one byte. */
  lemma DecodeEscape(x: char, y: char, t: string)
    requires IsHexUpper(x) && IsHexUpper(y)
    ensures PercentDecode(['%', x, y] + t) == Prepend([16 * HexValue(x) + HexValue(y)], PercentDecode(t))
  {
    var r := ['%', x, y] + t;
    assert r[0] == '%' && r[1] == x && r[2] == y && r[3..] == t;
  }

  lemma PrependTwice(a: seq<Byte>, b: seq<Byte>, rest: Option<seq<Byte>>)
    ensures Prepend(a, Prepend(b, rest)) == Prepend(a + b, rest)
  {
    if rest.Some? {
      assert a + (b + rest.value) == (a + b) + rest.value;
    }
  }

  /** Decoding an encoded text gives back the UTF-8 bytes of the original. */
  lemma {:induction false} EncodeDecodeRoundTrip(s: string)
    ensures PercentDecode(EncodeURIComponent(s)) == Some(Utf8String(s))
  {
    if s != [] {
      var c := s[0];
      var tail := EncodeURIComponent(s[1..]);
      EncodeDecodeRoundTrip(s[1..]);
      assert EncodeURIComponent(s) == EncodeChar(c) + tail;
      if Unreserved(c) {
        assert (EncodeChar(c) + tail)[1..] == tail;
      } else {
        PercentBytesDecode(Utf8(c), tail);
      }
    }
  }
}
