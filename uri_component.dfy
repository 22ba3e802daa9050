/** encodeURIComponent as ECMA-262 defines it (section 19.2.6.5): characters
    outside the unreserved set become the percent-escaped bytes of their
    UTF-8 encoding (RFC 3629), hex digits in upper case. A reference decoder
    (percent-decoding, then UTF-8 decoding, the way a server reads a query
    value) recovers every encoded string. */
module UriComponent {
  import opened Wrappers

  type Byte = b: int | 0 <= b < 256

  /** uriAlpha, DecimalDigit and uriMark: the characters left as they are. */
  predicate Unreserved(c: char) {
    || ('A' <= c <= 'Z') || ('a' <= c <= 'z') || ('0' <= c <= '9')
    || c == '-' || c == '_' || c == '.' || c == '!' || c == '~'
    || c == '*' || c == '\'' || c == '(' || c == ')'
  }

  /** The UTF-8 encoding of one Unicode scalar value. */
  function Utf8(c: char): (bs: seq<Byte>)
    ensures 1 <= |bs| <= 4
  {
    var n := c as int;
    if n < 0x80 then [n]
    else if n < 0x800 then [0xC0 + n / 0x40, 0x80 + n % 0x40]
    else if n < 0x1_0000 then [0xE0 + n / 0x1000, 0x80 + n / 0x40 % 0x40, 0x80 + n % 0x40]
    else [0xF0 + n / 0x4_0000, 0x80 + n / 0x1000 % 0x40, 0x80 + n / 0x40 % 0x40, 0x80 + n % 0x40]
  }

  function Utf8String(s: string): seq<Byte>
    decreases |s|
  {
    if s == [] then [] else Utf8(s[0]) + Utf8String(s[1..])
  }

  const Hex := "0123456789ABCDEF"

  function PercentByte(b: Byte): string {
    ['%', Hex[b / 16], Hex[b % 16]]
  }

  function PercentBytes(bs: seq<Byte>): (r: string)
    ensures |r| == 3 * |bs|
    ensures forall i :: 0 <= i < |r| ==> r[i] == '%' || r[i] in Hex
    decreases |bs|
  {
    if bs == [] then [] else PercentByte(bs[0]) + PercentBytes(bs[1..])
  }

  function EncodeChar(c: char): string {
    if Unreserved(c) then [c] else PercentBytes(Utf8(c))
  }

  /** encodeURIComponent. The result holds only unreserved characters and
      '%' (so no '&', '=', '#', '+' or space can end or split a query
      parameter), and a string of unreserved characters is left unchanged. */
  function Encode(s: string): (r: string)
    ensures forall i :: 0 <= i < |r| ==> Unreserved(r[i]) || r[i] == '%'
    ensures (forall i :: 0 <= i < |s| ==> Unreserved(s[i])) ==> r == s
    decreases |s|
  {
    if s == [] then []
    else
      var head := EncodeChar(s[0]);
      assert forall i :: 0 <= i < |head| ==> Unreserved(head[i]) || head[i] == '%';
      head + Encode(s[1..])
  }

  // ---------------------------------------------------------------------
  // The reference decoder.

  predicate IsHexDigit(c: char) {
    ('0' <= c <= '9') || ('A' <= c <= 'F') || ('a' <= c <= 'f')
  }

  function HexValue(c: char): (v: nat)
    requires IsHexDigit(c)
    ensures v < 16
  {
    if '0' <= c <= '9' then c as int - '0' as int
    else if 'A' <= c <= 'F' then c as int - 'A' as int + 10
    else c as int - 'a' as int + 10
  }

  function Prepend<T>(xs: seq<T>, r: Option<seq<T>>): Option<seq<T>> {
    if r.Some? then Some(xs + r.value) else None
  }

  /** Percent-decoding into bytes: an escape gives its byte, an ASCII
      character its code; a broken escape or a non-ASCII character fails. */
  function PercentDecode(s: string): Option<seq<Byte>>
    decreases |s|
  {
    if s == [] then Some([])
    else if s[0] == '%' then
      if |s| >= 3 && IsHexDigit(s[1]) && IsHexDigit(s[2]) then
        Prepend([HexValue(s[1]) * 16 + HexValue(s[2])], PercentDecode(s[3..]))
      else None
    else if s[0] as int < 0x80 then Prepend([s[0] as int], PercentDecode(s[1..]))
    else None
  }

  predicate Continuation(b: Byte) {
    0x80 <= b < 0xC0
  }

  /** A scalar value that needed `len` bytes: no surrogate, no overlong form. */
  function Scalar(n: int, least: int, len: nat): Option<(char, nat)> {
    if 0 <= least <= n && (n < 0xD800 || 0xE000 <= n < 0x11_0000) then Some((n as char, len)) else None
  }

  /** The byte at `i` as a number, 0 past the end. */
  function Next(bs: seq<Byte>, i: nat): int {
    if i < |bs| then bs[i] as int else 0
  }

  /** The first character of a UTF-8 byte sequence and how many bytes it took. */
  function DecodeFirst(bs: seq<Byte>): (r: Option<(char, nat)>)
    requires bs != []
    ensures r.Some? ==> 1 <= r.value.1 <= |bs|
  {
    var b0, b1, b2, b3 := bs[0] as int, Next(bs, 1), Next(bs, 2), Next(bs, 3);
    if b0 < 0x80 then Some((b0 as char, 1))
    else if 0xC0 <= b0 < 0xE0 && |bs| >= 2 && Continuation(bs[1]) then
      Scalar((b0 - 0xC0) * 0x40 + (b1 - 0x80), 0x80, 2)
    else if 0xE0 <= b0 < 0xF0 && |bs| >= 3 && Continuation(bs[1]) && Continuation(bs[2]) then
      Scalar(((b0 - 0xE0) * 0x40 + (b1 - 0x80)) * 0x40 + (b2 - 0x80), 0x800, 3)
    else if 0xF0 <= b0 < 0xF8 && |bs| >= 4 && Continuation(bs[1]) && Continuation(bs[2]) && Continuation(bs[3]) then
      Scalar((((b0 - 0xF0) * 0x40 + (b1 - 0x80)) * 0x40 + (b2 - 0x80)) * 0x40 + (b3 - 0x80), 0x1_0000, 4)
    else None
  }

  function Utf8Decode(bs: seq<Byte>): Option<string>
    decreases |bs|
  {
    if bs == [] then Some([])
    else
      match DecodeFirst(bs)
      case None => None
      case Some((c, len)) => Prepend([c], Utf8Decode(bs[len..]))
  }

  /** decodeURIComponent on the values this module can produce. */
  function Decode(s: string): Option<string> {
    match PercentDecode(s)
    case None => None
    case Some(bs) => Utf8Decode(bs)
  }

  // ---------------------------------------------------------------------
  // Round trip.

  lemma Utf8First(c: char, rest: seq<Byte>)
    ensures DecodeFirst(Utf8(c) + rest) == Some((c, |Utf8(c)|))
  {
    var n := c as int;
    var bs := Utf8(c) + rest;
    if n < 0x80 {
    } else if n < 0x800 {
      assert (n / 0x40) * 0x40 + n % 0x40 == n;
    } else if n < 0x1_0000 {
      assert n / 0x1000 == n / 0x40 / 0x40;
      assert (n / 0x40 / 0x40) * 0x40 + n / 0x40 % 0x40 == n / 0x40;
      assert (n / 0x40) * 0x40 + n % 0x40 == n;
    } else {
      assert n / 0x4_0000 == n / 0x1000 / 0x40;
      assert (n / 0x1000 / 0x40) * 0x40 + n / 0x1000 % 0x40 == n / 0x1000;
      assert n / 0x1000 == n / 0x40 / 0x40;
      assert (n / 0x40 / 0x40) * 0x40 + n / 0x40 % 0x40 == n / 0x40;
      assert (n / 0x40) * 0x40 + n % 0x40 == n;
    }
  }

  /** UTF-8 decoding inverts UTF-8 encoding. */
  lemma {:induction false} Utf8RoundTrip(s: string)
    ensures Utf8Decode(Utf8String(s)) == Some(s)
    decreases |s|
  {
    if s != [] {
      var bs := Utf8String(s);
      Utf8First(s[0], Utf8String(s[1..]));
      assert bs[|Utf8(s[0])|..] == Utf8String(s[1..]);
      Utf8RoundTrip(s[1..]);
      assert s == [s[0]] + s[1..];
    }
  }

  lemma HexDigitValue(k: nat)
    requires k < 16
    ensures IsHexDigit(Hex[k]) && HexValue(Hex[k]) == k
  {
  }

  lemma PercentByteDecode(b: Byte, t: string)
    ensures PercentDecode(PercentByte(b) + t) == Prepend([b], PercentDecode(t))
  {
    var e := PercentByte(b) + t;
    HexDigitValue(b / 16);
    HexDigitValue(b % 16);
    assert e[0] == '%' && e[1] == Hex[b / 16] && e[2] == Hex[b % 16];
    assert e[3..] == t;
  }

  lemma PrependPrepend<T>(xs: seq<T>, ys: seq<T>, r: Option<seq<T>>)
    ensures Prepend(xs, Prepend(ys, r)) == Prepend(xs + ys, r)
  {
    if r.Some? {
      assert xs + (ys + r.value) == (xs + ys) + r.value;
    }
  }

  lemma {:induction false} PercentBytesDecode(bs: seq<Byte>, rest: string)
    ensures PercentDecode(PercentBytes(bs) + rest) == Prepend(bs, PercentDecode(rest))
    decreases |bs|
  {
    var d := PercentDecode(rest);
    if bs == [] {
      assert PercentBytes(bs) + rest == rest;
      assert d.Some? ==> [] + d.value == d.value;
    } else {
      var t := PercentBytes(bs[1..]) + rest;
      calc {
        PercentDecode(PercentBytes(bs) + rest);
        { assert PercentBytes(bs) + rest == PercentByte(bs[0]) + t; }
        PercentDecode(PercentByte(bs[0]) + t);
        { PercentByteDecode(bs[0], t); }
        Prepend([bs[0]], PercentDecode(t));
        { PercentBytesDecode(bs[1..], rest); }
        Prepend([bs[0]], Prepend(bs[1..], d));
        { PrependPrepend([bs[0]], bs[1..], d); assert [bs[0]] + bs[1..] == bs; }
        Prepend(bs, d);
      }
    }
  }

  lemma EncodeCharDecode(c: char, rest: string)
    ensures PercentDecode(EncodeChar(c) + rest) == Prepend(Utf8(c), PercentDecode(rest))
  {
    if Unreserved(c) {
      assert ([c] + rest)[1..] == rest;
    } else {
      PercentBytesDecode(Utf8(c), rest);
    }
  }

  /** Percent-decoding the encoded string gives its UTF-8 bytes. */
  lemma {:induction false} EncodePercentDecode(s: string)
    ensures PercentDecode(Encode(s)) == Some(Utf8String(s))
    decreases |s|
  {
    if s != [] {
      EncodeCharDecode(s[0], Encode(s[1..]));
      EncodePercentDecode(s[1..]);
    }
  }

  /** Decoding recovers every encoded string, so the encoding is injective. */
  lemma EncodeRoundTrip(s: string)
    ensures Decode(Encode(s)) == Some(s)
  {
    EncodePercentDecode(s);
    Utf8RoundTrip(s);
  }

  lemma EncodeInjective(s: string, t: string)
    requires Encode(s) == Encode(t)
    ensures s == t
  {
    EncodeRoundTrip(s);
    EncodeRoundTrip(t);
  }
}
