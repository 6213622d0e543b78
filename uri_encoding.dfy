/**
 * JavaScript's `encodeURIComponent` over strings of Unicode scalar values:
 * every character outside the unreserved set becomes the %XX escapes of its
 * UTF-8 bytes, with upper-case hexadecimal digits (ECMA-262, section 19.2.6.5).
 */
module UriEncoding {

  /** The characters encodeURIComponent leaves alone. */
  predicate Unreserved(c: char)
  {
    ('A' <= c <= 'Z') || ('a' <= c <= 'z') || ('0' <= c <= '9')
    || c == '-' || c == '_' || c == '.' || c == '!' || c == '~' || c == '*'
    || c == '\'' || c == '(' || c == ')'
  }

  /** The characters that can appear in an encoded component. */
  predicate UriSafe(c: char)
  {
    Unreserved(c) || c == '%'
  }

  function HexDigit(d: nat): (c: char)
    requires d < 16
    ensures ('0' <= c <= '9') || ('A' <= c <= 'F')
  {
    if d < 10 then ('0' as int + d) as char else ('A' as int + d - 10) as char
  }

  predicate IsByte(b: int) { 0 <= b < 256 }

  /** The UTF-8 encoding of one scalar value (RFC 3629, section 3). */
  function Utf8(c: char): (bytes: seq<int>)
    ensures 1 <= |bytes| <= 4
    ensures forall i :: 0 <= i < |bytes| ==> IsByte(bytes[i])
    ensures (|bytes| == 1) == (c as int < 0x80)
  {
    var v := c as int;
    if v < 0x80 then [v]
    else if v < 0x800 then [0xC0 + v / 0x40, 0x80 + v % 0x40]
    else if v < 0x1_0000 then [0xE0 + v / 0x1000, 0x80 + (v / 0x40) % 0x40, 0x80 + v % 0x40]
    else [0xF0 + v / 0x4_0000, 0x80 + (v / 0x1000) % 0x40, 0x80 + (v / 0x40) % 0x40, 0x80 + v % 0x40]
  }

  /** `%XX` for each byte. */
  function PercentEscapes(bytes: seq<int>): (r: string)
    requires forall i :: 0 <= i < |bytes| ==> IsByte(bytes[i])
    ensures |r| == 3 * |bytes|
    ensures forall i :: 0 <= i < |r| ==> UriSafe(r[i])
    ensures |bytes| > 0 ==> r[0] == '%'
  {
    if bytes == [] then ""
    else
      var b := bytes[0];
      assert IsByte(b);
      ['%', HexDigit(b / 16), HexDigit(b % 16)] + PercentEscapes(bytes[1..])
  }

  function EncodeChar(c: char): (r: string)
    ensures |r| >= 1
    ensures forall i :: 0 <= i < |r| ==> UriSafe(r[i])
  {
    if Unreserved(c) then [c] else PercentEscapes(Utf8(c))
  }

  /** `encodeURIComponent(s)`: only unreserved characters and escapes in the output. */
  function EncodeURIComponent(s: string): (r: string)
    ensures |r| >= |s|
    ensures forall i :: 0 <= i < |r| ==> UriSafe(r[i])
    decreases |s|
  {
    if s == [] then "" else EncodeChar(s[0]) + EncodeURIComponent(s[1..])
  }

  /** Encoding is applied character by character, so it distributes over concatenation. */
  lemma {:induction false} EncodeAppend(a: string, b: string)
    ensures EncodeURIComponent(a + b) == EncodeURIComponent(a) + EncodeURIComponent(b)
    decreases |a|
  {
    if a != [] {
      assert (a + b)[0] == a[0];
      assert (a + b)[1..] == a[1..] + b;
      EncodeAppend(a[1..], b);
    } else {
      assert a + b == b;
    }
  }

  /** The space character is written as "%20". */
  lemma EncodeSpace()
    ensures EncodeChar(' ') == "%20"
  {
  }

  /** A player-name character: ASCII letter, digit, space, underscore or hyphen. */
  predicate IsNameChar(c: char)
  {
    ('A' <= c <= 'Z') || ('a' <= c <= 'z') || ('0' <= c <= '9') || c == ' ' || c == '_' || c == '-'
  }

  predicate IsNameText(s: string)
  {
    forall i :: 0 <= i < |s| ==> IsNameChar(s[i])
  }

  /** The name with each space written as "%20" and every other character kept. */
  function EscapeSpaces(s: string): string
    decreases |s|
  {
    if s == [] then "" else (if s[0] == ' ' then "%20" else [s[0]]) + EscapeSpaces(s[1..])
  }

  /** Reads "%20" back as a space. */
  function UnescapeSpaces(t: string): string
    decreases |t|
  {
    if |t| >= 3 && t[..3] == "%20" then " " + UnescapeSpaces(t[3..])
    else if t == [] then ""
    else [t[0]] + UnescapeSpaces(t[1..])
  }

  /** Over name text, encodeURIComponent changes only the spaces, each into "%20". */
  lemma {:induction false} EncodeNameText(s: string)
    requires IsNameText(s)
    ensures EncodeURIComponent(s) == EscapeSpaces(s)
    decreases |s|
  {
    if s != [] {
      EncodeNameText(s[1..]);
    }
  }

  /** Escaping the spaces of a name can be undone. */
  lemma {:induction false} UnescapeEscape(s: string)
    requires IsNameText(s)
    ensures UnescapeSpaces(EscapeSpaces(s)) == s
    decreases |s|
  {
    if s != [] {
      UnescapeEscape(s[1..]);
      var rest := EscapeSpaces(s[1..]);
      if s[0] == ' ' {
        assert EscapeSpaces(s) == "%20" + rest;
        assert ("%20" + rest)[..3] == "%20";
        assert ("%20" + rest)[3..] == rest;
      } else {
        assert EscapeSpaces(s) == [s[0]] + rest;
        assert ([s[0]] + rest)[1..] == rest;
        assert ([s[0]] + rest)[0] != '%';
      }
      assert [s[0]] + s[1..] == s;
    }
  }

  /** Distinct names are encoded differently, so request URLs identify the player. */
  lemma EncodeNameInjective(a: string, b: string)
    requires IsNameText(a) && IsNameText(b)
    requires EncodeURIComponent(a) == EncodeURIComponent(b)
    ensures a == b
  {
    EncodeNameText(a);
    EncodeNameText(b);
    UnescapeEscape(a);
    UnescapeEscape(b);
  }
}
