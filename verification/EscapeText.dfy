/**
  The text encodeURIComponent and JSON.stringify are to write, told from a
  string's code units (sections 19.2.6.5 and 25.5.2.3 of ECMA-262), and the
  UTF-8 of a code point (section 3 of RFC 3629).
*/
module EscapeText {
  import opened Options
  import opened Wtf8
  import opened Digits

  const UPPER := "0123456789ABCDEF"
  const LOWER := "0123456789abcdef"

  const DIGITS := "0123456789abcdefghijklmnopqrstuvwxyz"
  const CAPITALS := "0123456789ABCDEFGHIJKLMNOPQRSTUVWXYZ"

  lemma DigitsPlace(d: nat)
    requires d < 36
    ensures DIGITS[d] as int == if d < 10 then 0x30 + d else 0x61 + d - 10
  {
    if d < 12 {} else if d < 24 {} else {}
  }

  lemma CapitalsPlace(d: nat)
    requires d < 36
    ensures CAPITALS[d] as int == if d < 10 then 0x30 + d else 0x41 + d - 10
  {
    if d < 12 {} else if d < 24 {} else {}
  }

  /** A digit is worth its place among them, in either case; anything else is
      worth no digit. */
  lemma DigitIsText(c: int, d: nat)
    ensures Digit(c) <= 36
    ensures d < 36 ==> (Digit(c) == d <==> c == DIGITS[d] as int || c == CAPITALS[d] as int)
  {
    if d < 36 {
      DigitsPlace(d);
      CapitalsPlace(d);
    }
  }

  function Codes(text: string): (c: seq<int>)
    ensures |c| == |text| && forall k :: 0 <= k < |c| ==> c[k] == text[k] as int
  {
    seq(|text|, k requires 0 <= k < |text| => text[k] as int)
  }

  // UTF-8, by how many bits a code point has.
  predicate IsUtf8(b: seq<int>, r: int) {
    if 0 <= r < 0x80 then b == [r]
    else if r < 0x800 then
      |b| == 2 && Leads(b[0], 0xC0, 0x20) && Follows(b[1]) && r == (b[0] - 0xC0) * 0x40 + (b[1] - 0x80)
    else if r < 0x1_0000 then
      |b| == 3 && Leads(b[0], 0xE0, 0x10) && Follows(b[1]) && Follows(b[2])
      && r == (b[0] - 0xE0) * 0x1000 + (b[1] - 0x80) * 0x40 + (b[2] - 0x80)
    else
      |b| == 4 && Leads(b[0], 0xF0, 0x08) && Follows(b[1]) && Follows(b[2]) && Follows(b[3])
      && r == (b[0] - 0xF0) * 0x4_0000 + (b[1] - 0x80) * 0x1000 + (b[2] - 0x80) * 0x40 + (b[3] - 0x80)
  }

  predicate Leads(b: int, first: int, n: int) { first <= b < first + n }

  predicate Follows(b: int) { 0x80 <= b <= 0xBF }

  /** What is encoded is UTF-8: surrogates as the three bytes they would have. */
  lemma EncIsUtf8(r: rune)
    ensures IsUtf8(Enc(r), r)
  {
    if 0x800 <= r < 0x1_0000 { Three(r); }
    if 0x1_0000 <= r { Four(r); }
  }

  predicate Surrogate(r: int) { 0xD800 <= r <= 0xDFFF }

  /** What utf8.DecodeRune reads is a character's UTF-8 at the start, no
      surrogate's; one byte of U+FFFD where there is none. */
  lemma DecodesUtf8(s: bytes, r: rune, n: nat)
    requires s != []
    ensures n <= |s| && IsUtf8(s[..n], r) && !Surrogate(r) ==> DecodeRune(s) == Char(r, n)
    ensures DecodeRune(s) == Char(r, n) ==> n <= |s| && !Surrogate(r) && (IsUtf8(s[..n], r) || (r == 0xFFFD && n == 1))
  {
  }

  /** What a string is read by is the same, surrogates included. */
  lemma ReadsUtf8(s: bytes, r: rune, n: nat)
    requires s != []
    ensures n <= |s| && IsUtf8(s[..n], r) ==> First(s) == Char(r, n)
    ensures First(s) == Char(r, n) ==> n <= |s| && (IsUtf8(s[..n], r) || (r == 0xFFFD && n == 1))
  {
  }

  /** The code units of a code point: itself, or the two halves it makes. */
  lemma UnitsAreUtf16(r: rune)
    ensures r < 0x1_0000 ==> UnitsOf(r) == [r]
    ensures r >= 0x1_0000 ==> var u := UnitsOf(r);
      |u| == 2 && 0xD800 <= u[0] <= 0xDBFF && 0xDC00 <= u[1] <= 0xDFFF && r == CodePoint(u[0], u[1])
  {
  }

  // The code point of a surrogate pair.
  function CodePoint(high: int, low: int): int { 0x1_0000 + (high - 0xD800) * 0x400 + (low - 0xDC00) }

  predicate IsHigh(u: int) { 0xD800 <= u <= 0xDBFF }

  predicate IsLow(u: int) { 0xDC00 <= u <= 0xDFFF }

  lemma HexIsText(d: int)
    requires 0 <= d < 16
    ensures UPPER[d] as int == UpperHex(d) && LOWER[d] as int == LowerHex(d)
  {
  }

  // encodeURIComponent.

  // What encodeURIComponent leaves as it is.
  predicate LeftAsIs(u: int) {
    0 <= u < 0x80 &&
    var c := u as char;
    'A' <= c <= 'Z' || 'a' <= c <= 'z' || '0' <= c <= '9' || c in "-_.!~*'()"
  }

  // % and two digits for each byte.
  function Percents(b: bytes): seq<int> {
    if b == [] then [] else Codes(['%', UPPER[b[0] / 16], UPPER[b[0] % 16]]) + Percents(b[1..])
  }

  function More(first: seq<int>, rest: Option<seq<int>>): Option<seq<int>> {
    match rest case None => None case Some(r) => Some(first + r)
  }

  /** Encode, or None for a URIError. */
  function Encode(u: units): Option<seq<int>>
    decreases |u|
  {
    if u == [] then Some([])
    else if LeftAsIs(u[0]) then More([u[0]], Encode(u[1..]))
    else if !Surrogate(u[0]) then More(Percents(Enc(u[0])), Encode(u[1..]))
    else if IsHigh(u[0]) && |u| > 1 && IsLow(u[1]) then More(Percents(Enc(CodePoint(u[0], u[1]))), Encode(u[2..]))
    else None
  }

  // decodeURIComponent.

  // c is d as a hexadecimal digit, in either case.
  predicate HexDigit(c: int, d: int) { 0 <= d < 16 && (c == UPPER[d] as int || c == LOWER[d] as int) }

  // The escape at i of u is of the byte b.
  predicate EscapeAt(u: seq<int>, i: nat, b: byte) {
    i + 2 < |u| && u[i] == '%' as int && HexDigit(u[i + 1], b / 16) && HexDigit(u[i + 2], b % 16)
  }

  // u begins with the escapes of t, r's UTF-8.
  predicate EscapesUtf8(u: seq<int>, t: bytes, r: rune) {
    && IsUtf8(t, r) && !Surrogate(r) && 3 * |t| <= |u|
    && forall k :: 0 <= k < |t| ==> EscapeAt(u, 3 * k, t[k])
  }

  /** Decode: what is no escape is itself, and escapes are a code point by its
      whole UTF-8; where that is not so there is a URIError, and no r. */
  ghost predicate DecodesTo(u: units, r: units)
    decreases |u|
  {
    if u == [] then r == []
    else if u[0] != '%' as int then r != [] && r[0] == u[0] && DecodesTo(u[1..], r[1..])
    else exists t: bytes, c: rune ::
      EscapesUtf8(u, t, c) && t != [] && UnitsOf(c) <= r && DecodesTo(u[3 * |t|..], r[|UnitsOf(c)|..])
  }

  // JSON.stringify.

  // \u and four digits.
  function Unicode(u: unit): seq<int> {
    Codes(['\\', 'u', LOWER[u / 0x1000], LOWER[u / 0x100 % 16], LOWER[u / 0x10 % 16], LOWER[u % 16]])
  }

  /** QuoteJSONString, between the quotes. */
  function Quote(u: units): seq<int>
    decreases |u|
  {
    if u == [] then []
    else if IsHigh(u[0]) && |u| > 1 && IsLow(u[1]) then u[..2] + Quote(u[2..])
    else QuoteUnit(u[0]) + Quote(u[1..])
  }

  function QuoteUnit(u: unit): seq<int> {
    if u == 0x08 then Codes("\\b")
    else if u == 0x09 then Codes("\\t")
    else if u == 0x0A then Codes("\\n")
    else if u == 0x0C then Codes("\\f")
    else if u == 0x0D then Codes("\\r")
    else if u == 0x22 then Codes("\\\"")
    else if u == 0x5C then Codes("\\\\")
    else if u < 0x20 || Surrogate(u) then Unicode(u)
    else [u]
  }
}
