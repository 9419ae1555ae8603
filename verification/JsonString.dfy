/**
  JSON.stringify's strings (backend/runtime/json_string.go): quoted a byte at a
  time, for the text ECMA-262 gives for the code units.
*/
module JsonString {
  import opened Sequences
  import opened Wtf8
  import opened Wtf8Seams
  import opened Halves
  import opened StringBuilder
  import opened Strings
  import opened Digits
  import opened EscapeText

  const QUOTE: byte := 0x22
  const BACKSLASH: byte := 0x5C

  // \u and four digits, in lower case.
  function UnicodeEscape(u: unit): (b: bytes)
    ensures |b| == 6 && Ascii(b)
  {
    [BACKSLASH, 0x75, LowerHex(u / 0x1000), LowerHex(u / 0x100 % 16), LowerHex(u / 16 % 16), LowerHex(u % 16)]
  }

  // The code units below U+0020, the quote and the backslash.
  predicate Escaped(u: unit) { u < 0x20 || u == QUOTE || u == BACKSLASH }

  function Escape(u: unit): (b: bytes)
    requires Escaped(u)
    ensures b != [] && Ascii(b)
  {
    if u == QUOTE then [BACKSLASH, QUOTE]
    else if u == BACKSLASH then [BACKSLASH, BACKSLASH]
    else if u == 0x08 then [BACKSLASH, 0x62]
    else if u == 0x0C then [BACKSLASH, 0x66]
    else if u == 0x0A then [BACKSLASH, 0x6E]
    else if u == 0x0D then [BACKSLASH, 0x72]
    else if u == 0x09 then [BACKSLASH, 0x74]
    else UnicodeEscape(u)
  }

  // QuoteJSONString, section 25.5.2.3 of ECMA-262, between the quotes: a pair
  // as it is, a surrogate on its own escaped.
  function QuotedUnits(u: units): units
    decreases |u|
  {
    if u == [] then []
    else if High(u[0]) && |u| > 1 && Low(u[1]) then u[..2] + QuotedUnits(u[2..])
    else if High(u[0]) || Low(u[0]) then UnicodeEscape(u[0]) + QuotedUnits(u[1..])
    else if Escaped(u[0]) then Escape(u[0]) + QuotedUnits(u[1..])
    else [u[0]] + QuotedUnits(u[1..])
  }

  // What the loop does at the start of s: what it writes, and how far it goes.
  datatype Written = Written(b: bytes, n: nat)

  function QuoteFirst(s: bytes): (w: Written)
    requires s != []
    ensures 1 <= w.n <= |s|
  {
    if s[0] < 0x80 then (if Escaped(s[0]) then Written(Escape(s[0]), 1) else Written([s[0]], 1))
    else if HalfAt(s, 0) then
      (if High(UnitAtHalf(s, 0)) && HalfAt(s, 3) && Low(UnitAtHalf(s, 3))
       then Written(Enc(Pair(UnitAtHalf(s, 0), UnitAtHalf(s, 3))), 6)
       else Written(UnicodeEscape(UnitAtHalf(s, 0)), 3))
    else if DecodeRune(s) == Char(RUNE_ERROR, 1) then Written(Enc(RUNE_ERROR), 1)
    else Written(s[..DecodeRune(s).size], DecodeRune(s).size)
  }

  function QuoteInto(b: bytes, s: bytes): bytes
    decreases |s|
  {
    if s == [] then b else QuoteInto(b + QuoteFirst(s).b, s[QuoteFirst(s).n..])
  }

  function Quoted(s: bytes): bytes { QuoteInto([QUOTE], s) + [QUOTE] }

  /** appendJSONString: what needs no escape is copied a run at a time. */
  method AppendJSONString(b: bytes, s: bytes) returns (r: bytes)
    ensures r == QuoteInto(b + [QUOTE], s) + [QUOTE]
    ensures b == [] ==> Units(r) == ['"' as int] + Quote(Units(s)) + ['"' as int]
  {
    hide DecodeRune, Escape, Enc, UnicodeEscape, QuoteFirst, Units, Quote;
    r := b + [QUOTE];
    var start, i := 0, 0;
    assert s[0..] == s && s[0..0] == [] && r + [] == r;
    while i < |s|
      invariant start <= i <= |s| && QuoteInto(b + [QUOTE], s) == QuoteInto(r + s[start..i], s[i..])
    {
      var copied, w := QuoteAt(s, i);
      assert s[i..][w.n..] == s[i + w.n..];
      if copied {
        assert (r + s[start..i]) + w.b == r + s[start..i + w.n];
        i := i + w.n;
        continue;
      }
      r := r + s[start..i] + w.b;
      i := i + w.n;
      start := i;
      assert r + s[start..i] == r;
    }
    assert s[|s|..] == [] && s[start..] == s[start..|s|];
    r := r + s[start..] + [QUOTE];
    if b == [] {
      assert b + [QUOTE] == [QUOTE];
      QuotesAsUnits(s);
    }
  }

  // One turn: whether the character at i is copied, and what it becomes.
  method QuoteAt(s: bytes, i: nat) returns (copied: bool, w: Written)
    requires i < |s|
    ensures w == QuoteFirst(s[i..])
    ensures copied ==> i + w.n <= |s| && w.b == s[i..i + w.n]
  {
    hide DecodeRune, Escape, Enc, UnicodeEscape;
    HalvesFrom(s, i);
    var c := s[i];
    assert s[i..][0] == c;
    if c < 0x80 {
      assert s[i..i + 1] == [c];
      copied := !Escaped(c);
      w := Written(if copied then [c] else Escape(c), 1);
    } else if HalfAt(s, i) {
      copied := false;
      if UnitAtHalf(s, i) < 0xDC00 && HalfAt(s, i + 3) && UnitAtHalf(s, i + 3) >= 0xDC00 {
        w := Written(Enc(Pair(UnitAtHalf(s, i), UnitAtHalf(s, i + 3))), 6);
      } else {
        w := Written(UnicodeEscape(UnitAtHalf(s, i)), 3);
      }
    } else {
      var d := DecodeRune(s[i..]);
      copied := d != Char(RUNE_ERROR, 1);
      assert s[i..][..d.size] == s[i..i + d.size];
      w := if copied then Written(s[i..i + d.size], d.size) else Written(Enc(RUNE_ERROR), 1);
    }
  }

  // The same text, in code units.

  lemma {:induction false} AsciiWritten(b: bytes)
    requires Ascii(b)
    ensures Units(b) == b && Starts(b)
  {
    AsciiUnits(b, []);
    assert b + [] == b && Units([]) == [];
  }

  lemma {:induction false} FirstQuoted(s: bytes)
    requires s != []
    ensures var w := QuoteFirst(s);
      Starts(w.b) && QuotedUnits(Units(s)) == Units(w.b) + QuotedUnits(Units(s[w.n..]))
  {
    hide Escape, UnicodeEscape;
    if s[0] < 0x80 {
      AsciiQuoted(s);
    } else if HalfAt(s, 0) {
      HalfQuoted(s);
    } else {
      CharQuoted(s);
    }
  }

  lemma {:induction false} AsciiQuoted(s: bytes)
    requires s != [] && s[0] < 0x80
    ensures var w := QuoteFirst(s);
      Starts(w.b) && QuotedUnits(Units(s)) == Units(w.b) + QuotedUnits(Units(s[w.n..]))
  {
    hide Escape, UnicodeEscape;
    var c := s[0];
    assert Units(s) == [c] + Units(s[1..]);
    assert Units(s)[1..] == Units(s[1..]);
    AsciiWritten([c]);
    if Escaped(c) { AsciiWritten(Escape(c)); }
  }

  lemma {:induction false} HalfQuoted(s: bytes)
    requires s != [] && s[0] >= 0x80 && HalfAt(s, 0)
    ensures var w := QuoteFirst(s);
      Starts(w.b) && QuotedUnits(Units(s)) == Units(w.b) + QuotedUnits(Units(s[w.n..]))
  {
    hide UnicodeEscape, First, Half;
    var u := UnitAtHalf(s, 0);
    HalfIsFirst(s);
    HalvesAfter(s);
    LowIsHalf(s[3..]);
    var all := Units(s);
    assert all[1..] == Units(s[3..]);
    if High(u) && HalfAt(s, 3) && Low(UnitAtHalf(s, 3)) {
      var v := UnitAtHalf(s, 3);
      HalfIsFirst(s[3..]);
      assert s[3..][3..] == s[6..] && all[2..] == Units(s[6..]) && all[..2] == [u, v];
      HalvesOfPair(u, v);
      UnitsOfEnc(Pair(u, v));
    } else {
      AsciiWritten(UnicodeEscape(u));
      HalfIsHalf(s);
    }
  }

  lemma HalfIsHalf(s: bytes)
    requires HalfAt(s, 0)
    ensures High(UnitAtHalf(s, 0)) || Low(UnitAtHalf(s, 0))
  {
  }

  lemma {:induction false} CharQuoted(s: bytes)
    requires s != [] && s[0] >= 0x80 && !HalfAt(s, 0)
    ensures var w := QuoteFirst(s);
      Starts(w.b) && QuotedUnits(Units(s)) == Units(w.b) + QuotedUnits(Units(s[w.n..]))
  {
    NotHalf(s);
    var r, n := First(s).r, First(s).size;
    UnitsOfEnc(r);
    if First(s) != Char(RUNE_ERROR, 1) { ReadIsEncoded(s); }
    assert QuoteFirst(s).b == Enc(r) && QuoteFirst(s).n == n;
    PlainRune(s);
    var all, rest := Units(s), Units(s[n..]);
    if r >= 0x1_0000 {
      PairOfHalves(r);
      assert all == [HighOf(r), LowOf(r)] + rest && all[2..] == rest && all[..2] == UnitsOf(r);
    } else {
      assert all == [r] + rest && all[1..] == rest;
    }
  }

  lemma {:induction false} PlainRune(s: bytes)
    requires s != [] && s[0] >= 0x80 && !HalfAt(s, 0)
    ensures First(s).r >= 0x80
  {
    if !Stray(s) { ReadIsEncoded(s); }
  }

  lemma {:induction false} QuoteMeans(b: bytes, s: bytes)
    ensures Units(QuoteInto(b, s)) == Units(b) + QuotedUnits(Units(s))
    decreases |s|
  {
    hide QuoteFirst, First, QuotedUnits, Starts, Units;
    if s == [] {
      QuoteNothing();
    } else {
      var w := QuoteFirst(s);
      FirstQuoted(s);
      UnitsAtSeam(b, w.b);
      QuoteMeans(b + w.b, s[w.n..]);
      Assoc(Units(b), Units(w.b), QuotedUnits(Units(s[w.n..])));
    }
  }

  lemma QuoteNothing()
    ensures QuotedUnits(Units([])) == []
  {
  }

  lemma UnitIsText(u: unit)
    ensures QuoteUnit(u) == if High(u) || Low(u) then UnicodeEscape(u) else if Escaped(u) then Escape(u) else [u]
  {
    HexIsText(u / 0x1000);
    HexIsText(u / 0x100 % 16);
    HexIsText(u / 16 % 16);
    HexIsText(u % 16);
  }

  lemma {:induction false} QuotedIsText(u: units)
    ensures QuotedUnits(u) == Quote(u)
    decreases |u|
  {
    hide QuoteUnit, UnicodeEscape, Escape, Escaped;
    if u != [] {
      UnitIsText(u[0]);
      if High(u[0]) && |u| > 1 && Low(u[1]) { QuotedIsText(u[2..]); } else { QuotedIsText(u[1..]); }
    }
  }

  /** The quoted text of any string, stray bytes and split pairs included, is
      QuoteJSONString's of its code units. */
  lemma QuotesAsUnits(s: bytes)
    ensures Units(Quoted(s)) == ['"' as int] + Quote(Units(s)) + ['"' as int]
  {
    QuoteMeans([QUOTE], s);
    QuotedIsText(Units(s));
    AsciiWritten([QUOTE]);
    UnitsAtSeam(QuoteInto([QUOTE], s), [QUOTE]);
  }
}
