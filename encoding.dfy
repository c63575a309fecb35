/** Percent-encoding (section 2.1 of RFC 3986) as the core applies it:
    encodeURIComponent for a package name placed in a path, and the
    application/x-www-form-urlencoded serialisation URLSearchParams uses for
    query parameters. Both encode a character's UTF-8 bytes as %XX. */
module Encoding {

  /** The UTF-8 bytes of a Unicode scalar value. */
  function Utf8(c: char): (bytes: seq<nat>)
    ensures 1 <= |bytes| <= 4
    ensures forall i :: 0 <= i < |bytes| ==> bytes[i] < 256
    ensures c as int < 0x80 ==> bytes == [c as int]
  {
    var cp := c as int;
    if cp < 0x80 then [cp]
    else if cp < 0x800 then [0xC0 + cp / 0x40, 0x80 + cp % 0x40]
    else if cp < 0x10000 then [0xE0 + cp / 0x1000, 0x80 + (cp / 0x40) % 0x40, 0x80 + cp % 0x40]
    else [0xF0 + cp / 0x40000, 0x80 + (cp / 0x1000) % 0x40, 0x80 + (cp / 0x40) % 0x40, 0x80 + cp % 0x40]
  }

  function HexDigit(d: nat): (c: char)
    requires d < 16
    ensures IsHexDigit(c)
  {
    "0123456789ABCDEF"[d]
  }

  predicate IsHexDigit(c: char) {
    '0' <= c <= '9' || 'A' <= c <= 'F'
  }

  /** "%XX" for each byte, upper-case hexadecimal. */
  function PercentBytes(bytes: seq<nat>): (r: string)
    requires forall i :: 0 <= i < |bytes| ==> bytes[i] < 256
    ensures |r| == 3 * |bytes|
    ensures forall i :: 0 <= i < |r| ==> r[i] == '%' || IsHexDigit(r[i])
  {
    if bytes == [] then ""
    else ['%', HexDigit(bytes[0] / 16), HexDigit(bytes[0] % 16)] + PercentBytes(bytes[1..])
  }

  predicate IsAlphaNumeric(c: char) {
    'A' <= c <= 'Z' || 'a' <= c <= 'z' || '0' <= c <= '9'
  }

  /** The characters encodeURIComponent leaves alone. */
  predicate IsUriUnreserved(c: char) {
    IsAlphaNumeric(c) || c in "-_.!~*'()"
  }

  /** The characters the form serialiser leaves alone. */
  predicate IsFormSafe(c: char) {
    IsAlphaNumeric(c) || c in "*-._"
  }

  /** encodeURIComponent. */
  function EncodeUriComponent(s: string): (r: string)
    ensures forall i :: 0 <= i < |r| ==> IsUriUnreserved(r[i]) || r[i] == '%'
  {
    if s == [] then ""
    else (if IsUriUnreserved(s[0]) then [s[0]] else PercentBytes(Utf8(s[0]))) + EncodeUriComponent(s[1..])
  }

  /** The form serialiser: a space becomes '+'. */
  function FormEncode(s: string): (r: string)
    ensures forall i :: 0 <= i < |r| ==> IsFormSafe(r[i]) || r[i] == '%' || r[i] == '+'
  {
    if s == [] then ""
    else FormEncodeChar(s[0]) + FormEncode(s[1..])
  }

  function FormEncodeChar(c: char): (r: string)
    ensures forall i :: 0 <= i < |r| ==> IsFormSafe(r[i]) || r[i] == '%' || r[i] == '+'
  {
    if IsFormSafe(c) then [c] else if c == ' ' then "+" else PercentBytes(Utf8(c))
  }

  /** An encoded name is a single path segment: it holds no '/', '?' or '#'. */
  lemma EncodedIsOneSegment(s: string)
    ensures '/' !in EncodeUriComponent(s) && '?' !in EncodeUriComponent(s) && '#' !in EncodeUriComponent(s)
  {
  }

  /** A name made only of unreserved characters is left as it is. */
  lemma {:induction false} EncodeUnreserved(s: string)
    requires forall i :: 0 <= i < |s| ==> IsUriUnreserved(s[i])
    ensures EncodeUriComponent(s) == s
  {
    if s != [] {
      EncodeUnreserved(s[1..]);
    }
  }

  /** Encoding distributes over concatenation, character by character. */
  lemma {:induction false} EncodeAppend(a: string, b: string)
    ensures EncodeUriComponent(a + b) == EncodeUriComponent(a) + EncodeUriComponent(b)
  {
    if a == [] {
      assert a + b == b;
    } else {
      assert (a + b)[0] == a[0] && (a + b)[1..] == a[1..] + b;
      EncodeAppend(a[1..], b);
    }
  }

  /** The scoped package name of the test suite, "%40babel/core": its '%' and
      '/' are encoded, the rest is kept. */
  lemma ScopedNameExample()
    ensures EncodeUriComponent("%" + ("40babel" + ("/" + "core"))) == "%25" + ("40babel" + ("%2F" + "core"))
  {
    var scope, base := "40babel", "core";
    UnreservedExamples();
    EncodeUnreserved(scope);
    EncodeUnreserved(base);
    EncodeSlash();
    EncodeAppend("/", base);
    var tail := "/" + base;
    EncodeAppend(scope, tail);
    EncodePercentSign();
    EncodeAppend("%", scope + tail);
  }

  lemma EncodePercentSign()
    ensures EncodeUriComponent("%") == "%25"
  {
    assert !IsUriUnreserved('%');
    assert Utf8('%') == [37];
    assert PercentBytes([37]) == "%25";
  }

  lemma EncodeSlash()
    ensures EncodeUriComponent("/") == "%2F"
  {
    assert !IsUriUnreserved('/');
    assert Utf8('/') == [47];
    assert PercentBytes([47]) == "%2F";
  }

  lemma UnreservedExamples()
    ensures forall i :: 0 <= i < |"40babel"| ==> IsUriUnreserved("40babel"[i])
    ensures forall i :: 0 <= i < |"core"| ==> IsUriUnreserved("core"[i])
  {
  }
}
