/**
 * `encodeURIComponent` (section 19.2.6.5 of ECMAScript 2022): every code point
 * outside the unreserved set `A-Z a-z 0-9 - _ . ! ~ * ' ( )` is written as the
 * `%XX` escapes of its UTF-8 bytes, with upper-case hexadecimal digits.
 * Dafny's `char` is a Unicode scalar value, so the lone surrogates on which
 * JavaScript throws a URIError cannot arise.
 */
module Uri {
  import opened Wrappers

  predicate Unreserved(c: char) {
    ('A' <= c <= 'Z') || ('a' <= c <= 'z') || ('0' <= c <= '9') ||
    c == '-' || c == '_' || c == '.' || c == '!' || c == '~' ||
    c == '*' || c == '\'' || c == '(' || c == ')'
  }

  /** What may appear in an encoded component: unreserved characters and `%`. */
  predicate SafeChar(c: char) {
    Unreserved(c) || c == '%'
  }

  predicate AllSafe(s: string) {
    forall i :: 0 <= i < |s| ==> SafeChar(s[i])
  }

  /** The delimiters of a URL query never survive encoding. */
  lemma SafeCharIsNoDelimiter(c: char)
    requires SafeChar(c)
    ensures c != ' ' && c != '&' && c != '#' && c != '?' && c != '/' && c != '=' && c != ':' && c != '+'
  {
  }

  type Byte = b: nat | b < 256

  /** UTF-8 bytes of one code point (section 3.9 of the Unicode Standard). */
  function Utf8(c: char): (r: seq<Byte>)
    ensures 1 <= |r| <= 4
    ensures c as int < 0x80 <==> |r| == 1
    ensures c as int < 0x80 ==> r[0] == c as int
  {
    var n := c as int;
    if n < 0x80 then [n]
    else if n < 0x800 then [0xC0 + n / 64, 0x80 + n % 64]
    else if n < 0x1_0000 then [0xE0 + n / 4096, 0x80 + (n / 64) % 64, 0x80 + n % 64]
    else [0xF0 + n / 262144, 0x80 + (n / 4096) % 64, 0x80 + (n / 64) % 64, 0x80 + n % 64]
  }

  function Utf8Bytes(s: string): seq<Byte> {
    if s == [] then [] else Utf8(s[0]) + Utf8Bytes(s[1..])
  }

  function HexDigit(d: nat): (c: char)
    requires d < 16
    ensures Unreserved(c)
  {
    "0123456789ABCDEF"[d]
  }

  /** `%XX` for each byte. */
  function PercentEscapes(bs: seq<Byte>): (r: string)
    ensures |r| == 3 * |bs|
    ensures AllSafe(r)
  {
    if bs == [] then [] else ['%', HexDigit(bs[0] / 16), HexDigit(bs[0] % 16)] + PercentEscapes(bs[1..])
  }

  function EncodeChar(c: char): (r: string)
    ensures AllSafe(r)
  {
    if Unreserved(c) then [c] else PercentEscapes(Utf8(c))
  }

  /** `encodeURIComponent(s)`. */
  function EncodeURIComponent(s: string): (r: string)
    ensures AllSafe(r)
    ensures |r| >= |s|
  {
    if s == [] then [] else EncodeChar(s[0]) + EncodeURIComponent(s[1..])
  }

  // ---------------------------------------------------------------------------
  // The inverse direction, as a percent-decoder to bytes

  function HexValue(c: char): Option<nat> {
    if '0' <= c <= '9' then Some(c as int - '0' as int)
    else if 'A' <= c <= 'F' then Some(c as int - 'A' as int + 10)
    else None
  }

  /**
   * Decodes an encoded component to the bytes it stands for; `None` when it
   * holds a character outside the safe set or a malformed escape.
   */
  function DecodeBytes(s: string): Option<seq<Byte>>
    decreases |s|
  {
    if s == [] then Some([])
    else if s[0] == '%' then
      if |s| < 3 || HexValue(s[1]).None? || HexValue(s[2]).None? then None
      else
        match DecodeBytes(s[3..])
        case None => None
        case Some(rest) => Some([16 * HexValue(s[1]).value + HexValue(s[2]).value] + rest)
    else if Unreserved(s[0]) then
      match DecodeBytes(s[1..])
      case None => None
      case Some(rest) => Some([s[0] as int] + rest)
    else None
  }

  lemma HexRoundTrip(d: nat)
    requires d < 16
    ensures HexValue(HexDigit(d)) == Some(d)
  {
  }

  /** Regrouping a concatenation, stated apart to keep the decoder proof small. */
  lemma AppendAssoc(a: string, b: string, c: string)
    ensures (a + b) + c == a + (b + c)
  {
  }

  lemma ConsAppend(s: seq<Byte>, t: seq<Byte>)
    requires s != []
    ensures s + t == [s[0]] + (s[1..] + t)
  {
    assert s == [s[0]] + s[1..];
  }

  lemma DecodeOneEscape(b: Byte, rest: string, tail: seq<Byte>)
    requires DecodeBytes(rest) == Some(tail)
    ensures DecodeBytes(['%', HexDigit(b / 16), HexDigit(b % 16)] + rest) == Some([b] + tail)
  {
    var s := ['%', HexDigit(b / 16), HexDigit(b % 16)] + rest;
    HexRoundTrip(b / 16);
    HexRoundTrip(b % 16);
    assert s[3..] == rest;
    assert 16 * (b / 16) + b % 16 == b;
  }

  lemma {:induction false} DecodeEscapes(bs: seq<Byte>, rest: string, tail: seq<Byte>)
    requires DecodeBytes(rest) == Some(tail)
    ensures DecodeBytes(PercentEscapes(bs) + rest) == Some(bs + tail)
  {
    if bs == [] {
      assert PercentEscapes(bs) + rest == rest;
      assert bs + tail == tail;
    } else {
      var b := bs[0];
      var e: string := ['%', HexDigit(b / 16), HexDigit(b % 16)];
      var p := PercentEscapes(bs[1..]);
      DecodeEscapes(bs[1..], rest, tail);
      DecodeOneEscape(b, p + rest, bs[1..] + tail);
      assert PercentEscapes(bs) == e + p;
      AppendAssoc(e, p, rest);
      ConsAppend(bs, tail);
    }
  }

  /** Encoding loses nothing: decoding gives back exactly the UTF-8 bytes of the input. */
  lemma {:induction false} EncodeDecodes(s: string)
    ensures DecodeBytes(EncodeURIComponent(s)) == Some(Utf8Bytes(s))
  {
    if s != [] {
      EncodeDecodes(s[1..]);
      var c := s[0];
      var rest := EncodeURIComponent(s[1..]);
      if Unreserved(c) {
        assert ([c] + rest)[1..] == rest;
      } else {
        DecodeEscapes(Utf8(c), rest, Utf8Bytes(s[1..]));
      }
    }
  }

  /** The unreserved characters pass through unchanged. */
  lemma {:induction false} EncodeUnreservedIdentity(s: string)
    requires forall i :: 0 <= i < |s| ==> Unreserved(s[i])
    ensures EncodeURIComponent(s) == s
  {
    if s != [] {
      EncodeUnreservedIdentity(s[1..]);
    }
  }

  /** A space becomes `%20`, as in the search links. */
  lemma EncodeSpace()
    ensures EncodeURIComponent(" ") == "%20"
  {
  }
}
