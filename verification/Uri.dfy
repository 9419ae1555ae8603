/**
  encodeURIComponent and decodeURIComponent (backend/runtime/uri.go), over the
  bytes a string is held as.
*/
module Uri {
  import opened Options
  import opened Sequences
  import opened Wtf8
  import opened Wtf8Seams
  import opened Halves
  import opened StringBuilder
  import opened Strings
  import opened Digits
  import opened EscapeText

  const PERCENT: byte := 0x25

  predicate Unreserved(c: byte) {
    || 0x61 <= c <= 0x7A || 0x41 <= c <= 0x5A || 0x30 <= c <= 0x39
    || c == 0x2D || c == 0x5F || c == 0x2E || c == 0x21 || c == 0x7E || c == 0x2A || c == 0x27 || c == 0x28 || c == 0x29
  }

  function Escape(c: byte): bytes { [PERCENT, UpperHex(c / 16), UpperHex(c % 16)] }

  function Escapes(t: bytes): bytes { if t == [] then [] else Escape(t[0]) + Escapes(t[1..]) }

  // uriOctet: the byte an escape %XX at i stands for.
  function Octet(s: bytes, i: nat): Option<byte> {
    if i + 2 >= |s| || s[i] != PERCENT then None
    else if Digit(s[i + 1]) >= 16 || Digit(s[i + 2]) >= 16 then None
    else Some(Digit(s[i + 1]) * 16 + Digit(s[i + 2]))
  }

  // What encoding does at the start of s: what it writes, and how far it goes.
  datatype Written = Malformed | Wrote(b: bytes, n: nat)

  function EncodeFirst(s: bytes): (w: Written)
    requires s != []
    ensures w.Wrote? ==> 1 <= w.n <= |s|
  {
    if Unreserved(s[0]) then Wrote([s[0]], 1)
    else if s[0] < 0x80 then Wrote(Escape(s[0]), 1)
    else if HalfAt(s, 0) then
      (if Low(UnitAtHalf(s, 0)) || !HalfAt(s, 3) || High(UnitAtHalf(s, 3)) then Malformed
       else Wrote(Escapes(Enc(Pair(UnitAtHalf(s, 0), UnitAtHalf(s, 3)))), 6))
    else Wrote(Escapes(Enc(DecodeRune(s).r)), DecodeRune(s).size)
  }

  function Encoded(s: bytes): Option<bytes>
    decreases |s|
  {
    if s == [] then Some([])
    else match EncodeFirst(s)
      case Malformed => None
      case Wrote(b, n) => match Encoded(s[n..]) case None => None case Some(e) => Some(b + e)
  }

  // The same, appending.
  function EncodeInto(b: bytes, s: bytes): Option<bytes>
    decreases |s|
  {
    if s == [] then Some(b)
    else match EncodeFirst(s)
      case Malformed => None
      case Wrote(w, n) => EncodeInto(b + w, s[n..])
  }

  lemma {:induction false} EncodeAppends(b: bytes, s: bytes)
    ensures EncodeInto(b, s) == match Encoded(s) case None => None case Some(e) => Some(b + e)
    decreases |s|
  {
    hide EncodeFirst;
    if s == [] {
      assert b + [] == b;
    } else {
      var w := EncodeFirst(s);
      if w.Wrote? {
        EncodeAppends(b + w.b, s[w.n..]);
        if Encoded(s[w.n..]).Some? { Assoc(b, w.b, Encoded(s[w.n..]).value); }
      }
    }
  }

  method WriteEscapes(b: bytes, t: bytes) returns (r: bytes)
    ensures r == b + Escapes(t)
  {
    r := b;
    assert t[0..] == t;
    for k := 0 to |t|
      invariant r + Escapes(t[k..]) == b + Escapes(t)
    {
      assert t[k..][0] == t[k] && t[k..][1..] == t[k + 1..];
      Assoc(r, Escape(t[k]), Escapes(t[k + 1..]));
      r := r + Escape(t[k]);
    }
    assert r + Escapes(t[|t|..]) == r;
  }

  // One turn of the loop: the character at i.
  method EncodeChar(b: bytes, s: bytes, i: nat) returns (r: bytes, n: nat, malformed: bool)
    requires i < |s|
    ensures malformed <==> EncodeFirst(s[i..]).Malformed?
    ensures !malformed ==> EncodeFirst(s[i..]).Wrote? && n == EncodeFirst(s[i..]).n && r == b + EncodeFirst(s[i..]).b
  {
    hide DecodeRune, Escapes, Enc;
    HalvesFrom(s, i);
    var c := s[i];
    assert s[i..][0] == c;
    r, n, malformed := b, 0, false;
    if Unreserved(c) {
      r, n := b + [c], 1;
    } else if c < 0x80 {
      r, n := b + Escape(c), 1;
    } else if HalfAt(s, i) {
      var u := UnitAtHalf(s, i);
      if u >= 0xDC00 || !HalfAt(s, i + 3) || UnitAtHalf(s, i + 3) < 0xDC00 {
        malformed := true;
        return;
      }
      r := WriteEscapes(b, Enc(Pair(u, UnitAtHalf(s, i + 3))));
      n := 6;
    } else {
      var d := DecodeRune(s[i..]);
      r := WriteEscapes(b, Enc(d.r));
      n := d.size;
    }
  }

  /** EncodeURIComponent, and None for its URIError. */
  method EncodeURIComponent(s: bytes) returns (r: Option<bytes>)
    ensures r == Encoded(s)
    ensures match Encode(Units(s)) case None => r.None? case Some(e) => r.Some? && r.value == e
  {
    hide EncodeFirst, Encoded, Encode, Units;
    EncodesText(s);
    var i := 0;
    EncodeAppends([], s);
    assert s[..0] == [] && s[0..] == s && forall e: bytes :: [] + e == e;
    while i < |s| && Unreserved(s[i])
      invariant i <= |s| && Encoded(s) == EncodeInto(s[..i], s[i..])
    {
      UnreservedFirst(s[i..]);
      assert s[i..][1..] == s[i + 1..] && s[..i] + [s[i]] == s[..i + 1];
      i := i + 1;
    }
    if i == |s| {
      assert s[..i] == s;
      return Some(s);
    }
    var b := s[..i];
    while i < |s|
      invariant i <= |s| && Encoded(s) == EncodeInto(b, s[i..])
    {
      var after, n, malformed := EncodeChar(b, s, i);
      if malformed { return None; }
      assert s[i..][n..] == s[i + n..];
      b, i := after, i + n;
    }
    r := Some(b);
  }

  lemma {:induction false} UnreservedFirst(s: bytes)
    requires s != [] && Unreserved(s[0])
    ensures EncodeFirst(s) == Wrote([s[0]], 1)
  {
  }

  // When encoding throws.

  // A surrogate with no partner beside it.
  predicate HasLone(u: units)
    decreases |u|
  {
    u != [] &&
    if High(u[0]) && |u| > 1 && Low(u[1]) then HasLone(u[2..])
    else High(u[0]) || Low(u[0]) || HasLone(u[1..])
  }

  // What encoding does at the start, in code units.
  lemma {:induction false} FirstLone(s: bytes)
    requires s != []
    ensures match EncodeFirst(s)
      case Malformed => HasLone(Units(s))
      case Wrote(_, n) => HasLone(Units(s)) <==> HasLone(Units(s[n..]))
  {
    if HalfAt(s, 0) {
      HalfIsFirst(s);
      HalvesAfter(s);
      LowIsHalf(s[3..]);
      var u := Units(s);
      assert u[1..] == Units(s[3..]);
      if HalfAt(s, 3) {
        HalfIsFirst(s[3..]);
        assert s[3..][3..] == s[6..] && u[2..] == Units(s[6..]);
      }
    } else {
      OtherFirst(s);
    }
  }

  lemma {:induction false} OtherFirst(s: bytes)
    requires s != [] && !HalfAt(s, 0)
    ensures EncodeFirst(s).Wrote? && EncodeFirst(s).n == First(s).size
    ensures HasLone(Units(s)) <==> HasLone(Units(s[First(s).size..]))
  {
    var r := First(s).r;
    var rest := Units(s[First(s).size..]);
    if r >= 0x1_0000 {
      PairOfHalves(r);
      assert Units(s) == [HighOf(r), LowOf(r)] + rest;
      assert Units(s)[2..] == rest;
    } else {
      assert Units(s) == [r] + rest;
      assert Units(s)[1..] == rest;
      NotHalf(s);
    }
  }

  /** Encoding throws exactly when the string has a lone surrogate. */
  lemma {:induction false} ThrowsOnLone(s: bytes)
    ensures Encoded(s).None? <==> HasLone(Units(s))
    decreases |s|
  {
    hide EncodeFirst, First;
    if s == [] {
      assert Units(s) == [];
    } else {
      FirstLone(s);
      if EncodeFirst(s).Wrote? { ThrowsOnLone(s[EncodeFirst(s).n..]); }
    }
  }

  // What is written, in code units.

  lemma UnreservedIsText(c: byte)
    ensures Unreserved(c) <==> LeftAsIs(c)
  {
    var marks := "-_.!~*'()";
    assert marks[0] == '-' && marks[1] == '_' && marks[2] == '.' && marks[3] == '!' && marks[4] == '~';
    assert marks[5] == '*' && marks[6] == '\'' && marks[7] == '(' && marks[8] == ')';
  }

  lemma {:induction false} EscapesArePercents(t: bytes)
    ensures Escapes(t) == Percents(t)
    decreases |t|
  {
    if t != [] {
      HexIsText(t[0] / 16);
      HexIsText(t[0] % 16);
      EscapesArePercents(t[1..]);
    }
  }

  // What encoding does at the start, in code units.
  lemma {:induction false} FirstEncodes(s: bytes)
    requires s != []
    ensures match EncodeFirst(s)
      case Malformed => Encode(Units(s)).None?
      case Wrote(b, n) => Encode(Units(s)) == More(b, Encode(Units(s[n..])))
  {
    hide Escapes, Percents, Enc, UpperHex, LeftAsIs, Unreserved, DecodeRune;
    if s[0] < 0x80 {
      AsciiEncodes(s);
    } else if HalfAt(s, 0) {
      HalfEncodes(s);
    } else {
      CharEncodes(s);
    }
  }

  lemma {:induction false} AsciiEncodes(s: bytes)
    requires s != [] && s[0] < 0x80
    ensures match EncodeFirst(s) case Malformed => false case Wrote(b, n) => Encode(Units(s)) == More(b, Encode(Units(s[n..])))
  {
    hide LeftAsIs, Unreserved;
    var c, u := s[0], Units(s);
    UnreservedIsText(c);
    assert u == [c] + Units(s[1..]) && u[1..] == Units(s[1..]);
    EscapesArePercents([c]);
    EscapeIsEscapes(c);
    assert Enc(c) == [c];
  }

  lemma AboveIsEscaped(u: int)
    requires u >= 0x80
    ensures !LeftAsIs(u)
  {
  }

  lemma {:induction false} HalfEncodes(s: bytes)
    requires s != [] && s[0] >= 0x80 && HalfAt(s, 0)
    ensures match EncodeFirst(s)
      case Malformed => Encode(Units(s)).None?
      case Wrote(b, n) => Encode(Units(s)) == More(b, Encode(Units(s[n..])))
  {
    hide LeftAsIs, Enc, Percents, Escapes, First, Half;
    var h, u := UnitAtHalf(s, 0), Units(s);
    HalfIsFirst(s);
    HalvesAfter(s);
    LowIsHalf(s[3..]);
    HalfIsSurrogate(s);
    assert u[0] == h && u[1..] == Units(s[3..]);
    AboveIsEscaped(h);
    UnreservedIsText(s[0]);
    AboveIsEscaped(s[0]);
    if HalfAt(s, 3) && Low(UnitAtHalf(s, 3)) && High(h) {
      HalfIsFirst(s[3..]);
      assert s[3..][3..] == s[6..] && u[2..] == Units(s[6..]) && u[1] == UnitAtHalf(s, 3);
      EscapesArePercents(Enc(Pair(h, UnitAtHalf(s, 3))));
    }
    if HalfAt(s, 3) { HalvesAreSurrogates(s); }
  }

  lemma HalfIsSurrogate(s: bytes)
    requires HalfAt(s, 0)
    ensures Surrogate(UnitAtHalf(s, 0))
  {
  }

  lemma HalvesAreSurrogates(s: bytes)
    requires HalfAt(s, 3)
    ensures Surrogate(UnitAtHalf(s, 3))
  {
  }

  lemma {:induction false} CharEncodes(s: bytes)
    requires s != [] && s[0] >= 0x80 && !HalfAt(s, 0)
    ensures match EncodeFirst(s) case Malformed => false case Wrote(b, n) => Encode(Units(s)) == More(b, Encode(Units(s[n..])))
  {
    hide LeftAsIs, Enc, Percents, Escapes, UnitsOf;
    NotHalf(s);
    var r, n, u := First(s).r, First(s).size, Units(s);
    var rest := Units(s[n..]);
    UnreservedIsText(s[0]);
    AboveIsEscaped(s[0]);
    ReadsPastAscii(s);
    UnitsAreUtf16(r);
    EscapesArePercents(Enc(r));
    assert u == UnitsOf(r) + rest && u[|UnitsOf(r)|..] == rest;
    AboveIsEscaped(u[0]);
  }

  lemma {:induction false} ReadsPastAscii(s: bytes)
    requires s != [] && s[0] >= 0x80
    ensures First(s).r >= 0x80
  {
    if !Stray(s) { ReadIsEncoded(s); }
  }

  /** What is written is what Encode, in section 19.2.6.5 of ECMA-262, writes of
      the code units, and is a URIError exactly where it throws one. */
  lemma {:induction false} EncodesText(s: bytes)
    ensures match Encode(Units(s)) case None => Encoded(s).None? case Some(e) => Encoded(s).Some? && Encoded(s).value == e
    decreases |s|
  {
    hide EncodeFirst, First, Units, Encode;
    if s == [] {
      EncodesNothing();
    } else {
      FirstEncodes(s);
      if EncodeFirst(s).Wrote? { EncodesText(s[EncodeFirst(s).n..]); }
    }
  }

  lemma EncodesNothing()
    ensures Encode(Units([])) == Some([])
  {
  }

  // Decoding.

  // strings.IndexByte(s, '%').
  function Percent(s: bytes): (i: int)
    ensures -1 <= i < |s|
  {
    if s == [] then -1 else if s[0] == PERCENT then 0 else if Percent(s[1..]) < 0 then -1 else Percent(s[1..]) + 1
  }

  // How many bytes the sequence a byte leads has.
  function SequenceLen(lead: byte): (n: nat)
    ensures 1 <= n <= 4
  {
    if 0xC0 <= lead < 0xE0 then 2 else if 0xE0 <= lead < 0xF0 then 3 else if 0xF0 <= lead < 0xF8 then 4 else 1
  }

  // The bytes of the n escapes s begins with.
  function Octets(s: bytes, n: nat): (t: Option<bytes>)
    ensures t.Some? ==> |t.value| == n && 3 * n <= |s|
    decreases n
  {
    if n == 0 then Some([])
    else match Octets(s, n - 1)
      case None => None
      case Some(t) => match Octet(s, 3 * (n - 1)) case None => None case Some(c) => Some(t + [c])
  }

  // The UTF-8 sequence escaped at the start of s.
  function Sequence(s: bytes): (t: Option<bytes>)
    ensures t.Some? ==> 1 <= |t.value| && 3 * |t.value| <= |s|
  {
    match Octet(s, 0)
    case None => None
    case Some(lead) => match Octets(s, SequenceLen(lead))
      case None => None
      case Some(t) => if ValidUtf8(t) then Some(t) else None
  }

  // The bytes s decodes to, after b.
  function DecodeInto(b: bytes, s: bytes): Option<bytes>
    decreases |s|
  {
    var i := Percent(s);
    if i < 0 then Some(b + s)
    else match Sequence(s[i..])
      case None => None
      case Some(t) => DecodeInto(b + s[..i] + t, s[i + 3 * |t|..])
  }

  function Decoded(s: bytes): Option<bytes> { DecodeInto([], s) }

  method ReadOctets(s: bytes, lead: byte, n: nat) returns (t: Option<bytes>)
    requires n >= 1 && Octet(s, 0) == Some(lead)
    ensures t == Octets(s, n)
  {
    var r := [lead];
    assert Octets(s, 0) == Some([]) && [] + [lead] == [lead];
    assert Octets(s, 1) == Some([] + [lead]);
    for j := 1 to n
      invariant Octets(s, j) == Some(r)
      invariant Octets(s, j).None? ==> Octets(s, n).None?
    {
      var c := Octet(s, 3 * j);
      if c.None? {
        NoneFrom(s, j + 1, n);
        return None;
      }
      r := r + [c.value];
    }
    t := Some(r);
  }

  lemma {:induction false} NoneFrom(s: bytes, j: nat, n: nat)
    requires j <= n && Octets(s, j).None?
    ensures Octets(s, n).None?
    decreases n - j
  {
    if j < n { NoneFrom(s, j + 1, n); }
  }

  /** DecodeURIComponent, and None for its URIError. */
  method DecodeURIComponent(s: bytes) returns (r: Option<bytes>)
    ensures r == Decoded(s)
    ensures forall u: units :: DecodesTo(Units(s), u) <==> r.Some? && Units(r.value) == u
  {
    hide Percent, Octets, Octet, ValidUtf8, DecodesTo, Units;
    forall u: units ensures DecodesTo(Units(s), u) <==> Decoded(s).Some? && Units(Decoded(s).value) == u { DecodesText(s, u); }
    var rest, b := s, [];
    var i := Percent(rest);
    if i < 0 {
      assert [] + s == s;
      return Some(s);
    }
    while i >= 0
      invariant -1 <= i < |rest| || i < 0
      invariant i == Percent(rest) && Decoded(s) == DecodeInto(b, rest)
      decreases |rest|
    {
      b := b + rest[..i];
      rest := rest[i..];
      var lead := Octet(rest, 0);
      if lead.None? { return None; }
      var t := ReadOctets(rest, lead.value, SequenceLen(lead.value));
      if t.None? { return None; }
      if !ValidUtf8(t.value) { return None; }
      b := b + t.value;
      rest := rest[3 * |t.value|..];
      i := Percent(rest);
    }
    r := Some(b + rest);
  }

  // An escape run.

  // e is some escapes of t, in either case, and then rest.
  predicate EscapesOf(e: bytes, t: bytes, rest: bytes) {
    && |e| == 3 * |t| + |rest| && e[3 * |t|..] == rest
    && forall k :: 0 <= k < |t| ==> Octet(e, 3 * k) == Some(t[k])
  }

  lemma {:induction false} OctetsOf(e: bytes, t: bytes, rest: bytes, n: nat)
    requires EscapesOf(e, t, rest) && n <= |t|
    ensures Octets(e, n) == Some(t[..n])
    decreases n
  {
    hide Octet;
    if n > 0 {
      OctetsOf(e, t, rest, n - 1);
      assert t[..n] == t[..n - 1] + [t[n - 1]];
    } else {
      assert t[..0] == [];
    }
  }

  lemma {:induction false} OctetsPast(e: bytes, t: bytes, n: nat)
    requires EscapesOf(e, t, []) && n > |t|
    ensures Octets(e, n) == None
    decreases n
  {
    if n - 1 > |t| { OctetsPast(e, t, n - 1); }
  }

  lemma {:induction false} EscapesLater(e: bytes, t: bytes, rest: bytes, n: nat)
    requires EscapesOf(e, t, rest) && n <= |t|
    ensures EscapesOf(e[3 * n..], t[n..], rest)
  {
    var e', t' := e[3 * n..], t[n..];
    assert e'[3 * |t'|..] == e[3 * |t|..];
    forall k | 0 <= k < |t'|
      ensures Octet(e', 3 * k) == Some(t'[k])
    {
      assert Octet(e, 3 * (n + k)) == Some(t[n + k]);
    }
  }

  // A sequence is valid when its bytes are the UTF-8 its lead promises.
  lemma {:induction false} SequenceIsRune(t: bytes)
    requires t != []
    ensures var n := SequenceLen(t[0]);
      if DecodeRune(t) == Char(RUNE_ERROR, 1) then |t| < n || !ValidUtf8(t[..n])
      else DecodeRune(t).size == n && ValidUtf8(t[..n])
  {
    var n := SequenceLen(t[0]);
    if |t| >= n {
      var p := t[..n];
      assert p[0] == t[0] && forall k :: 0 <= k < n ==> p[k] == t[k];
      if DecodeRune(p) != Char(RUNE_ERROR, 1) {
        assert p[n..] == [];
      }
    }
  }

  lemma {:induction false} ValidFrom(t: bytes, n: nat)
    requires t != [] && DecodeRune(t) != Char(RUNE_ERROR, 1) && n == DecodeRune(t).size
    ensures ValidUtf8(t) <==> ValidUtf8(t[n..])
  {
  }

  lemma {:induction false} PercentFirst(e: bytes)
    requires Octet(e, 0).Some?
    ensures e != [] && Percent(e) == 0
  {
  }

  lemma {:induction false} SequenceOf(e: bytes, t: bytes, rest: bytes)
    requires EscapesOf(e, t, rest) && t != [] && SequenceLen(t[0]) <= |t|
    ensures Sequence(e) == if ValidUtf8(t[..SequenceLen(t[0])]) then Some(t[..SequenceLen(t[0])]) else None
  {
    hide ValidUtf8, Octet;
    assert Octet(e, 3 * 0) == Some(t[0]);
    OctetsOf(e, t, rest, SequenceLen(t[0]));
  }

  lemma {:induction false} ShortRun(e: bytes, t: bytes)
    requires EscapesOf(e, t, []) && t != [] && SequenceLen(t[0]) > |t|
    ensures Sequence(e) == None
  {
    hide Octets, SequenceLen;
    assert Octet(e, 3 * 0) == Some(t[0]);
    OctetsPast(e, t, SequenceLen(t[0]));
  }

  /** An escape run decodes exactly when its bytes are valid UTF-8, and to
      those bytes. */
  lemma {:induction false} RunDecodes(b: bytes, e: bytes, t: bytes)
    requires EscapesOf(e, t, [])
    ensures DecodeInto(b, e) == if ValidUtf8(t) then Some(b + t) else None
    decreases |t|
  {
    hide Octet, Octets, DecodeRune, SequenceLen, EscapesOf, Sequence;
    if t == [] {
      NoneLeft(e);
      assert b + [] == b;
    } else {
      var n := SequenceLen(t[0]);
      FirstEscape(e, t, []);
      PercentFirst(e);
      SequenceIsRune(t);
      assert e[0..] == e && b + e[..0] == b;
      if n > |t| {
        ShortRun(e, t);
      } else {
        SequenceOf(e, t, []);
        if ValidUtf8(t[..n]) && DecodeRune(t) != Char(RUNE_ERROR, 1) {
          EscapesLater(e, t, [], n);
          RunDecodes(b + t[..n], e[3 * n..], t[n..]);
          ValidFrom(t, n);
          assert b + t == b + t[..n] + t[n..];
        }
      }
    }
  }

  lemma NoneLeft(e: bytes)
    requires EscapesOf(e, [], [])
    ensures e == []
  {
  }

  lemma FirstEscape(e: bytes, t: bytes, rest: bytes)
    requires EscapesOf(e, t, rest) && t != []
    ensures Octet(e, 0) == Some(t[0]) && Octet(e, 3 * 0) == Some(t[0])
  {
  }

  // Decoding undoes encoding.

  lemma {:induction false} DecodeText(b: bytes, c: byte, rest: bytes)
    requires c != PERCENT
    ensures DecodeInto(b, [c] + rest) == DecodeInto(b + [c], rest)
  {
    hide Sequence;
    var s := [c] + rest;
    assert s[1..] == rest;
    var i := Percent(rest);
    if i < 0 {
      assert b + s == (b + [c]) + rest;
    } else {
      assert Percent(s) == i + 1;
      assert s[i + 1..] == rest[i..] && s[..i + 1] == [c] + rest[..i];
      assert b + s[..i + 1] == (b + [c]) + rest[..i];
      var t := Sequence(rest[i..]);
      if t.Some? { assert s[i + 1 + 3 * |t.value|..] == rest[i + 3 * |t.value|..]; }
    }
  }

  lemma HexRoundTrip(c: byte)
    ensures Digit(UpperHex(c / 16)) == c / 16 < 16 && Digit(UpperHex(c % 16)) == c % 16 < 16
  {
  }

  lemma {:induction false} OctetsLater(c: byte, tail: bytes)
    ensures Octet(Escape(c) + tail, 0) == Some(c)
    ensures forall k: nat :: Octet(Escape(c) + tail, k + 3) == Octet(tail, k)
  {
    hide UpperHex, Digit;
    HexRoundTrip(c);
    var e := Escape(c) + tail;
    assert e[0] == PERCENT && e[1] == UpperHex(c / 16) && e[2] == UpperHex(c % 16);
    assert e[3..] == tail;
  }

  lemma {:induction false} EscapesAreEscapes(t: bytes, rest: bytes)
    ensures EscapesOf(Escapes(t) + rest, t, rest)
    decreases |t|
  {
    hide Octet, UpperHex, Digit;
    var e := Escapes(t) + rest;
    if t != [] {
      EscapesAreEscapes(t[1..], rest);
      var tail := Escapes(t[1..]) + rest;
      assert e == Escape(t[0]) + tail;
      OctetsLater(t[0], tail);
      assert e[3 * |t|..] == tail[3 * |t[1..]|..];
      forall k | 0 <= k < |t|
        ensures Octet(e, 3 * k) == Some(t[k])
      {
        if k > 0 { assert Octet(tail, 3 * (k - 1)) == Some(t[1..][k - 1]); }
      }
    }
  }

  lemma {:induction false} EncIsOneSequence(r: rune)
    requires !High(r) && !Low(r)
    ensures DecodeRune(Enc(r)) == Char(r, |Enc(r)|) && DecodeRune(Enc(r)) != Char(RUNE_ERROR, 1)
    ensures SequenceLen(Enc(r)[0]) == |Enc(r)|
  {
    EncodedIsRead(r, []);
    assert Enc(r) + [] == Enc(r);
    if 0x800 <= r < 0x1_0000 { Three(r); }
  }

  lemma {:induction false} DecodeEscapes(b: bytes, r: rune, rest: bytes)
    requires !High(r) && !Low(r)
    ensures DecodeInto(b, Escapes(Enc(r)) + rest) == DecodeInto(b + Enc(r), rest)
  {
    hide Octet, Octets, Enc, Escapes;
    var t := Enc(r);
    var e := Escapes(t) + rest;
    EscapesAreEscapes(t, rest);
    EncIsOneSequence(r);
    SequenceIsRune(t);
    assert t[..|t|] == t;
    SequenceOf(e, t, rest);
    assert Octet(e, 3 * 0) == Some(t[0]);
    PercentFirst(e);
    assert e[0..] == e && b + e[..0] == b;
  }

  lemma {:induction false} FirstUndone(b: bytes, s: bytes, rest: bytes)
    requires s != [] && CanonicalAfter(s, false) && EncodeFirst(s).Wrote? && !HalfAt(s, 0)
    ensures EncodeFirst(s).n == First(s).size
    ensures DecodeInto(b, EncodeFirst(s).b + rest) == DecodeInto(b + s[..First(s).size], rest)
  {
    hide DecodeInto, Escapes;
    NotHalf(s);
    ReadIsEncoded(s);
    OtherFirst(s);
    if Unreserved(s[0]) {
      assert s[..1] == [s[0]];
      DecodeText(b, s[0], rest);
    } else {
      DecodeEscapes(b, First(s).r, rest);
      if s[0] < 0x80 { EscapeIsEscapes(s[0]); }
    }
  }

  lemma EscapeIsEscapes(c: byte)
    ensures Escapes([c]) == Escape(c)
  {
    assert [c][1..] == [];
  }

  // A canonical string's halves are lone.
  lemma {:induction false} HalvesAreLone(s: bytes, high: bool)
    requires CanonicalAfter(s, high) && HalfAt(s, 0)
    ensures EncodeFirst(s).Malformed?
  {
    HalfIsFirst(s);
    HalvesAfter(s);
    if HalfAt(s, 3) { HalfIsFirst(s[3..]); }
  }

  lemma DecodeNothing(b: bytes)
    ensures DecodeInto(b, []) == Some(b + [])
  {
  }

  lemma {:induction false} EncodedDecodes(b: bytes, s: bytes, high: bool)
    requires CanonicalAfter(s, high) && Encoded(s).Some?
    ensures DecodeInto(b, Encoded(s).value) == Some(b + s)
    decreases |s|
  {
    hide EncodeFirst, First, DecodeRune, DecodeInto, CanonicalAfter;
    if s == [] {
      DecodeNothing(b);
    } else {
      if HalfAt(s, 0) { HalvesAreLone(s, high); }
      var w := EncodeFirst(s);
      CanonicalWeakens(s, high);
      FirstUndone(b, s, Encoded(s[w.n..]).value);
      CanonicalRest(s, high);
      EncodedDecodes(b + s[..w.n], s[w.n..], High(First(s).r));
      Assoc(b, s[..w.n], s[w.n..]);
      assert s[..w.n] + s[w.n..] == s;
    }
  }

  lemma {:induction false} CanonicalWeakens(s: bytes, high: bool)
    requires CanonicalAfter(s, high)
    ensures CanonicalAfter(s, false)
  {
  }

  lemma {:induction false} CanonicalRest(s: bytes, high: bool)
    requires CanonicalAfter(s, high) && s != []
    ensures CanonicalAfter(s[First(s).size..], High(First(s).r))
  {
  }

  /** decodeURIComponent undoes encodeURIComponent, for every canonical string
      with no lone surrogate. */
  lemma RoundTrip(s: bytes)
    requires Canonical(s) && !HasLone(Units(s))
    ensures Encoded(s).Some? && Decoded(Encoded(s).value) == Some(s)
  {
    ThrowsOnLone(s);
    EncodedDecodes([], s, false);
    assert [] + s == s;
  }

  // Decoding keeps strings canonical.

  lemma {:induction false} ValidIsCanonical(t: bytes, high: bool)
    requires ValidUtf8(t)
    ensures CanonicalAfter(t, high) && (t != [] ==> !EndsHigh(t))
    decreases |t|
  {
    if t != [] {
      ValidFirst(t);
      var rest := t[DecodeRune(t).size..];
      ValidIsCanonical(rest, false);
      EndsHighIsLast(t);
      if rest == [] { assert Units(t) == UnitsOf(First(t).r) + []; }
      else {
        EndsHighIsLast(rest);
        UnitsNotEmpty(rest);
      }
    }
  }

  lemma {:induction false} ValidFirst(t: bytes)
    requires t != [] && DecodeRune(t) != Char(RUNE_ERROR, 1)
    ensures First(t) == DecodeRune(t) && !High(First(t).r) && !Low(First(t).r)
  {
  }

  lemma {:induction false} PercentIsAnEdge(s: bytes, i: nat, high: bool)
    requires CanonicalAfter(s, high) && i < |s| && s[i] < 0x80
    ensures CanonicalAfter(s[..i], high) && CanonicalAfter(s[i..], if i == 0 then high else EndsHigh(s[..i]))
  {
    assert s == s[..i] + s[i..];
    CanonicalAtSeam(s[..i], s[i..], high);
  }

  lemma {:induction false} AsciiRest(s: bytes, n: nat, high: bool)
    requires CanonicalAfter(s, high) && 0 < n <= |s| && s[n - 1] < 0x80
    ensures CanonicalAfter(s[n..], false)
  {
    PercentIsAnEdge(s, n - 1, high);
    var t := s[n - 1..];
    assert First(t) == Char(t[0], 1) && t[1..] == s[n..];
  }

  lemma {:induction false} SequenceEnds(s: bytes)
    requires Sequence(s).Some?
    ensures var t := Sequence(s).value; ValidUtf8(t) && t != [] && 3 * |t| <= |s| && s[3 * |t| - 1] < 0x80
  {
    hide ValidUtf8;
    var t := Sequence(s).value;
    assert Octets(s, |t|) == Some(t);
    assert Octet(s, 3 * (|t| - 1)).Some?;
  }

  lemma {:induction false} AppendCanonical(b: bytes, t: bytes)
    requires Canonical(b) && CanonicalAfter(t, EndsHigh(b))
    ensures Canonical(b + t)
  {
    CanonicalStarts(t, EndsHigh(b));
    CanonicalAtSeam(b, t, false);
  }

  // One run of text and one sequence.
  lemma {:induction false} StepKeepsCanonical(b: bytes, s: bytes, i: nat, t: bytes)
    requires Canonical(b) && CanonicalAfter(s, EndsHigh(b)) && i == Percent(s) && Sequence(s[i..]) == Some(t)
    ensures i + 3 * |t| <= |s| && Canonical(b + s[..i] + t)
    ensures CanonicalAfter(s[i + 3 * |t|..], EndsHigh(b + s[..i] + t))
  {
    hide Sequence, First, EndsHigh, CanonicalAfter;
    SequenceEnds(s[i..]);
    PercentIsPercent(s);
    PercentIsAnEdge(s, i, EndsHigh(b));
    AppendCanonical(b, s[..i]);
    ValidIsCanonical(t, EndsHigh(b + s[..i]));
    ValidIsCanonical(t, false);
    AppendCanonical(b + s[..i], t);
    EndsLater(b + s[..i], t);
    assert s[i..][3 * |t| - 1] == s[i + 3 * |t| - 1];
    AsciiRest(s, i + 3 * |t|, EndsHigh(b));
  }

  lemma {:induction false} PercentIsPercent(s: bytes)
    requires Percent(s) >= 0
    ensures s[Percent(s)] == PERCENT
    decreases |s|
  {
    if s[0] != PERCENT { PercentIsPercent(s[1..]); }
  }

  lemma {:induction false} DecodeKeepsCanonical(b: bytes, s: bytes)
    requires Canonical(b) && CanonicalAfter(s, EndsHigh(b)) && DecodeInto(b, s).Some?
    ensures Canonical(DecodeInto(b, s).value)
    decreases |s|
  {
    hide Sequence, First, EndsHigh, CanonicalAfter;
    var i := Percent(s);
    if i < 0 {
      AppendCanonical(b, s);
    } else {
      var t := Sequence(s[i..]).value;
      StepKeepsCanonical(b, s, i, t);
      DecodeKeepsCanonical(b + s[..i] + t, s[i + 3 * |t|..]);
    }
  }

  /** What a canonical string decodes to is canonical. */
  lemma DecodedIsCanonical(s: bytes)
    requires Canonical(s) && Decoded(s).Some?
    ensures Canonical(Decoded(s).value)
  {
    DecodeKeepsCanonical([], s);
  }

  // What any string decodes to: it is text without %, and escape runs.

  datatype Piece = Plain(b: bytes) | Run(t: bytes)

  // s is the pieces, and then rest.
  predicate Spells(pieces: seq<Piece>, s: bytes, rest: bytes) {
    if pieces == [] then s == rest
    else match pieces[0]
      case Plain(b) => b <= s && PERCENT !in b && Spells(pieces[1..], s[|b|..], rest)
      case Run(t) =>
        3 * |t| <= |s| && EscapesOf(s, t, s[3 * |t|..]) && ValidUtf8(t) && Spells(pieces[1..], s[3 * |t|..], rest)
  }

  function Bytes(piece: Piece): bytes { match piece case Plain(b) => b case Run(t) => t }

  function Meaning(pieces: seq<Piece>): bytes { if pieces == [] then [] else Bytes(pieces[0]) + Meaning(pieces[1..]) }

  lemma {:induction false} PlainDecodes(b: bytes, text: bytes, rest: bytes)
    requires PERCENT !in text
    ensures DecodeInto(b, text + rest) == DecodeInto(b + text, rest)
    decreases |text|
  {
    if text == [] {
      assert [] + rest == rest && b + [] == b;
    } else {
      assert text + rest == [text[0]] + (text[1..] + rest);
      DecodeText(b, text[0], text[1..] + rest);
      PlainDecodes(b + [text[0]], text[1..], rest);
      assert (b + [text[0]]) + text[1..] == b + text;
    }
  }

  lemma {:induction false} RunThenRest(b: bytes, e: bytes, t: bytes, rest: bytes)
    requires EscapesOf(e, t, rest) && ValidUtf8(t)
    ensures DecodeInto(b, e) == DecodeInto(b + t, rest)
    decreases |t|
  {
    hide Octet, Octets, DecodeRune, SequenceLen, DecodeInto;
    if t == [] {
      assert e == rest && b + [] == b;
    } else {
      var n := SequenceLen(t[0]);
      SequenceIsRune(t);
      SequenceOf(e, t, rest);
      assert Octet(e, 3 * 0) == Some(t[0]);
      PercentFirst(e);
      OneSequence(b, e, t[..n]);
      EscapesLater(e, t, rest, n);
      ValidFrom(t, n);
      RunThenRest(b + t[..n], e[3 * n..], t[n..], rest);
      assert b + t == b + t[..n] + t[n..];
    }
  }

  lemma OneSequence(b: bytes, e: bytes, t: bytes)
    requires Percent(e) == 0 && Sequence(e) == Some(t)
    ensures DecodeInto(b, e) == DecodeInto(b + t, e[3 * |t|..])
  {
    assert e[0..] == e && b + e[..0] + t == b + t;
  }

  lemma {:induction false} SpeltDecodes(b: bytes, pieces: seq<Piece>, s: bytes, rest: bytes)
    requires Spells(pieces, s, rest)
    ensures DecodeInto(b, s) == DecodeInto(b + Meaning(pieces), rest)
    decreases |pieces|
  {
    hide EscapesOf, DecodeInto, ValidUtf8;
    if pieces == [] {
      assert b + [] == b;
    } else {
      var w := Bytes(pieces[0]);
      var later: bytes;
      match pieces[0] {
        case Plain(text) =>
          later := s[|text|..];
          assert s == text + later;
          PlainDecodes(b, text, later);
        case Run(t) =>
          later := s[3 * |t|..];
          RunThenRest(b, s, t, later);
      }
      SpeltDecodes(b + w, pieces[1..], later, rest);
      Assoc(b, w, Meaning(pieces[1..]));
    }
  }

  lemma {:induction false} OctetsAre(s: bytes, n: nat)
    requires Octets(s, n).Some?
    ensures forall k :: 0 <= k < n ==> Octet(s, 3 * k) == Some(Octets(s, n).value[k])
    decreases n
  {
    hide Octet;
    if n > 0 { OctetsAre(s, n - 1); }
  }

  lemma {:induction false} SequenceIsRun(s: bytes, t: bytes)
    requires Sequence(s) == Some(t)
    ensures 0 < 3 * |t| <= |s| && EscapesOf(s, t, s[3 * |t|..]) && ValidUtf8(t)
  {
    hide Octet, Octets, ValidUtf8;
    OctetsAre(s, SequenceLen(Octet(s, 0).value));
  }

  lemma {:induction false} BeforePercent(s: bytes)
    ensures Percent(s) < 0 ==> PERCENT !in s
    ensures Percent(s) >= 0 ==> PERCENT !in s[..Percent(s)] && s[Percent(s)] == PERCENT
    decreases |s|
  {
    if s != [] {
      BeforePercent(s[1..]);
      if Percent(s) > 0 { assert s[..Percent(s)] == [s[0]] + s[1..][..Percent(s) - 1]; }
    }
  }

  // Where a decoding gets to: the end, or a % it can't go past.
  lemma {:induction false} Divide(s: bytes) returns (pieces: seq<Piece>, rest: bytes)
    ensures Spells(pieces, s, rest) && (rest == [] || (rest[0] == PERCENT && Sequence(rest).None?))
    decreases |s|
  {
    hide EscapesOf, Sequence, ValidUtf8;
    BeforePercent(s);
    var i := Percent(s);
    var n := if i < 0 then |s| else i;
    var later := s[n..];
    if later == [] || Sequence(later).None? {
      pieces, rest := [Plain(s[..n])], later;
      assert pieces[1..] == [] && (i < 0 ==> s[..n] == s);
    } else {
      var t := Sequence(later).value;
      SequenceIsRun(later, t);
      var more;
      more, rest := Divide(later[3 * |t|..]);
      pieces := [Plain(s[..n]), Run(t)] + more;
      assert ([Run(t)] + more)[1..] == more && Spells([Run(t)] + more, later, rest);
      assert pieces[1..] == [Run(t)] + more;
    }
  }

  lemma DecodeStops(b: bytes, rest: bytes)
    requires rest != [] && rest[0] == PERCENT && Sequence(rest).None?
    ensures DecodeInto(b, rest) == None
  {
    hide Sequence;
    assert Percent(rest) == 0 && rest[0..] == rest;
  }

  /** A string decodes to r if and only if it is pieces that mean r: text
      without % and escape runs of valid UTF-8. */
  lemma DecodesPieces(s: bytes, r: bytes)
    ensures Decoded(s) == Some(r) <==> exists pieces :: Spells(pieces, s, []) && Meaning(pieces) == r
  {
    hide DecodeInto, Spells, Sequence;
    var pieces, rest := Divide(s);
    SpeltDecodes([], pieces, s, rest);
    assert [] + Meaning(pieces) == Meaning(pieces);
    if rest == [] {
      DecodeNothing(Meaning(pieces));
      assert Meaning(pieces) + [] == Meaning(pieces);
    } else {
      DecodeStops(Meaning(pieces), rest);
    }
    forall others | Spells(others, s, [])
      ensures Decoded(s) == Some(Meaning(others))
    {
      SpeltDecodes([], others, s, []);
      assert [] + Meaning(others) == Meaning(others) && Meaning(others) + [] == Meaning(others);
      DecodeNothing(Meaning(others));
    }
  }

  /** Decoding throws if and only if, past text and valid escape runs, a %
      begins no escaped sequence of UTF-8. */
  lemma DecodeThrows(s: bytes)
    ensures Decoded(s).None? <==>
      exists pieces, rest :: Spells(pieces, s, rest) && rest != [] && rest[0] == PERCENT && Sequence(rest).None?
  {
    hide DecodeInto, Spells, Sequence;
    var pieces, rest := Divide(s);
    SpeltDecodes([], pieces, s, rest);
    if rest == [] { DecodeNothing([] + Meaning(pieces)); }
    forall others, after | Spells(others, s, after) && after != [] && after[0] == PERCENT && Sequence(after).None?
      ensures Decoded(s).None?
    {
      SpeltDecodes([], others, s, after);
      DecodeStops([] + Meaning(others), after);
    }
    if rest != [] { DecodeStops([] + Meaning(pieces), rest); }
  }

  // The same, of the code units.

  lemma {:induction false} DecodeAppends(b: bytes, s: bytes)
    ensures DecodeInto(b, s) == match Decoded(s) case None => None case Some(x) => Some(b + x)
    decreases |s|
  {
    hide Sequence;
    var i := Percent(s);
    if i < 0 {
      assert [] + s == s;
    } else if Sequence(s[i..]).Some? {
      var t := Sequence(s[i..]).value;
      var rest := s[i + 3 * |t|..];
      DecodeAppends(b + s[..i] + t, rest);
      DecodeAppends([] + s[..i] + t, rest);
      if Decoded(rest).Some? { assert b + s[..i] + t + Decoded(rest).value == b + (([] + s[..i] + t) + Decoded(rest).value); }
    }
  }

  lemma {:induction false} NoPercentUnits(s: bytes)
    requires PERCENT !in s
    ensures PERCENT !in Units(s)
    decreases |s|
  {
    if s != [] {
      NoPercentUnits(s[First(s).size..]);
      if s[0] >= 0x80 { ReadsPastAscii(s); }
      UnitsAreUtf16(First(s).r);
    }
  }

  // Text before the first % is itself.
  lemma {:induction false} TextDecodes(u: units, v: units, r: units)
    requires PERCENT !in u
    ensures DecodesTo(u + v, r) <==> u <= r && DecodesTo(v, r[|u|..])
    decreases |u|
  {
    if u == [] {
      assert u + v == v && r[0..] == r;
    } else {
      assert (u + v)[1..] == u[1..] + v;
      if r != [] {
        TextDecodes(u[1..], v, r[1..]);
        if u[0] == r[0] && u[1..] <= r[1..] {
          assert u == [u[0]] + u[1..] <= [r[0]] + r[1..] == r;
          assert r[1..][|u[1..]|..] == r[|u|..];
        }
        if u <= r { assert u[1..] <= r[1..] && r[1..][|u[1..]|..] == r[|u|..]; }
      }
    }
  }

  // A front of ASCII is the same in bytes and in code units.
  lemma {:induction false} AsciiHead(s: bytes)
    requires Units(s) != [] && Units(s)[0] < 0x80
    ensures s != [] && s[0] < 0x80 && Units(s) == [s[0]] + Units(s[1..])
  {
    if s[0] >= 0x80 {
      ReadsPastAscii(s);
      UnitsAreUtf16(First(s).r);
    }
  }

  lemma {:induction false} AsciiFront(s: bytes, n: nat)
    requires n <= |Units(s)| && forall k :: 0 <= k < n ==> Units(s)[k] < 0x80
    ensures n <= |s| && s[..n] == Units(s)[..n] && Units(s[n..]) == Units(s)[n..]
    decreases n
  {
    hide Units, First;
    if n > 0 {
      var u := Units(s);
      AsciiHead(s);
      assert u[1..] == Units(s[1..]) && u[..n] == [u[0]] + u[1..][..n - 1];
      AsciiFront(s[1..], n - 1);
      assert s[1..][n - 1..] == s[n..] && s[..n] == [s[0]] + s[1..][..n - 1];
    } else {
      assert s[0..] == s;
    }
  }

  lemma HexDigitIs(c: int, d: int)
    requires 0 <= d < 16
    ensures HexDigit(c, d) <==> Digit(c) == d
    ensures HexDigit(c, d) ==> 0 <= c < 0x80
  {
    HexIsText(d);
  }

  lemma OctetIsEscape(s: bytes, i: nat, c: byte)
    ensures Octet(s, i) == Some(c) <==> EscapeAt(s, i, c)
  {
    hide Digit, HexDigit;
    if i + 2 < |s| {
      HexDigitIs(s[i + 1], c / 16);
      HexDigitIs(s[i + 2], c % 16);
    }
  }

  // Escapes are ASCII.
  lemma {:induction false} EscapesAscii(u: seq<int>, t: bytes)
    requires 3 * |t| <= |u| && forall k :: 0 <= k < |t| ==> EscapeAt(u, 3 * k, t[k])
    ensures forall j :: 0 <= j < 3 * |t| ==> 0 <= u[j] < 0x80
  {
    hide HexDigit;
    forall j | 0 <= j < 3 * |t|
      ensures 0 <= u[j] < 0x80
    {
      var k := j / 3;
      assert EscapeAt(u, 3 * k, t[k]);
      HexDigitIs(u[3 * k + 1], t[k] / 16);
      HexDigitIs(u[3 * k + 2], t[k] % 16);
    }
  }

  lemma {:induction false} SameEscapes(s: bytes, t: bytes, r: rune)
    ensures EscapesUtf8(Units(s), t, r) <==> EscapesUtf8(s, t, r)
    ensures EscapesUtf8(s, t, r) ==> 3 * |t| <= |Units(s)| && Units(s[3 * |t|..]) == Units(s)[3 * |t|..]
  {
    hide Units, First, EscapeAt;
    var n := 3 * |t|;
    if EscapesUtf8(Units(s), t, r) {
      EscapesAscii(Units(s), t);
      AsciiFront(s, n);
      SameFrontEscapes(Units(s), s, t);
    }
    if EscapesUtf8(s, t, r) {
      EscapesAscii(s, t);
      AsciiUnits(s[..n], s[n..]);
      assert s[..n] + s[n..] == s && Units(s)[n..] == Units(s[n..]) && Units(s)[..n] == s[..n];
      SameFrontEscapes(s, Units(s), t);
    }
  }

  lemma {:induction false} SameFrontEscapes(u: seq<int>, v: seq<int>, t: bytes)
    requires 3 * |t| <= |u| && 3 * |t| <= |v| && u[..3 * |t|] == v[..3 * |t|]
    requires forall k :: 0 <= k < |t| ==> EscapeAt(u, 3 * k, t[k])
    ensures forall k :: 0 <= k < |t| ==> EscapeAt(v, 3 * k, t[k])
  {
    hide HexDigit;
    assert forall j :: 0 <= j < 3 * |t| ==> v[j] == u[..3 * |t|][j] == u[j];
  }

  lemma LeadsLength(t: bytes, r: rune)
    requires IsUtf8(t, r)
    ensures t != [] && SequenceLen(t[0]) == |t|
  {
  }

  lemma {:induction false} Utf8IsValid(t: bytes, r: rune)
    requires IsUtf8(t, r) && !Surrogate(r)
    ensures ValidUtf8(t)
  {
    hide DecodeRune;
    LeadsLength(t, r);
    assert t[..|t|] == t;
    DecodesUtf8(t, r, |t|);
    assert t[|t|..] == [];
  }

  lemma {:induction false} ValidIsUtf8(t: bytes)
    requires t != [] && ValidUtf8(t) && SequenceLen(t[0]) == |t|
    ensures IsUtf8(t, DecodeRune(t).r) && !Surrogate(DecodeRune(t).r)
  {
    hide DecodeRune, IsUtf8;
    SequenceIsRune(t);
    assert t[..|t|] == t;
    DecodesUtf8(t, DecodeRune(t).r, |t|);
  }

  // The escaped sequence at the start is the escapes of one code point.
  lemma {:induction false} SequenceIsText(e: bytes, t: bytes)
    requires Sequence(e) == Some(t)
    ensures t != [] && EscapesUtf8(e, t, DecodeRune(t).r)
  {
    hide Octet, Octets, ValidUtf8, DecodeRune, IsUtf8, EscapeAt;
    SequenceIsRun(e, t);
    OctetsAre(e, SequenceLen(Octet(e, 0).value));
    assert Octet(e, 3 * 0) == Some(t[0]);
    ValidIsUtf8(t);
    forall k | 0 <= k < |t| ensures EscapeAt(e, 3 * k, t[k]) { OctetIsEscape(e, 3 * k, t[k]); }
  }

  lemma {:induction false} TextIsSequence(e: bytes, t: bytes, r: rune)
    requires EscapesUtf8(e, t, r)
    ensures Sequence(e) == Some(t) && DecodeRune(t) == Char(r, |t|)
  {
    hide Octet, Octets, ValidUtf8, DecodeRune, EscapeAt;
    LeadsLength(t, r);
    Utf8IsValid(t, r);
    forall k | 0 <= k < |t| ensures Octet(e, 3 * k) == Some(t[k]) { OctetIsEscape(e, 3 * k, t[k]); }
    assert Octet(e, 3 * 0) == Some(t[0]);
    OctetsOf(e, t, e[3 * |t|..], |t|);
    assert t[..|t|] == t;
    DecodesUtf8(t, r, |t|);
  }

  lemma {:induction false} OneEscape(u: units, r: units, t: bytes, c: rune)
    requires u != [] && u[0] == PERCENT && EscapesUtf8(u, t, c) && t != []
    requires forall x: bytes, d: rune :: EscapesUtf8(u, x, d) ==> x == t && d == c
    ensures DecodesTo(u, r) <==> UnitsOf(c) <= r && DecodesTo(u[3 * |t|..], r[|UnitsOf(c)|..])
  {
    hide EscapesUtf8, UnitsOf;
    assert 3 * |t| <= |u| by { EscapesFit(u, t, c); }
  }

  lemma EscapesFit(u: seq<int>, t: bytes, c: rune)
    requires EscapesUtf8(u, t, c)
    ensures 3 * |t| <= |u|
  {
  }

  lemma {:induction false} NoEscape(u: units, r: units)
    requires u != [] && u[0] == PERCENT && forall x: bytes, d: rune :: !EscapesUtf8(u, x, d)
    ensures !DecodesTo(u, r)
  {
    hide EscapesUtf8;
  }

  lemma PercentUnit(e: bytes)
    requires e != [] && e[0] == PERCENT
    ensures Units(e) != [] && Units(e)[0] == PERCENT
  {
  }

  // A % decodes by the sequence it begins, and by nothing else.
  lemma {:induction false} EscapeDecodes(e: bytes, r: units)
    requires e != [] && e[0] == PERCENT
    ensures match Sequence(e)
      case None => !DecodesTo(Units(e), r)
      case Some(t) =>
        var u := UnitsOf(DecodeRune(t).r);
        DecodesTo(Units(e), r) <==> u <= r && DecodesTo(Units(e[3 * |t|..]), r[|u|..])
  {
    hide Sequence, EscapesUtf8, DecodeRune, UnitsOf, Units, DecodesTo;
    var u := Units(e);
    PercentUnit(e);
    forall t: bytes, c: rune | EscapesUtf8(u, t, c)
      ensures Sequence(e) == Some(t) && c == DecodeRune(t).r
    {
      SameEscapes(e, t, c);
      TextIsSequence(e, t, c);
    }
    if Sequence(e).Some? {
      var t := Sequence(e).value;
      SequenceIsText(e, t);
      SameEscapes(e, t, DecodeRune(t).r);
      OneEscape(u, r, t, DecodeRune(t).r);
    } else {
      NoEscape(u, r);
    }
  }

  lemma {:induction false} SequenceUnits(t: bytes, x: bytes)
    requires t != [] && DecodeRune(t) != Char(RUNE_ERROR, 1) && DecodeRune(t).size == |t|
    ensures Units(t + x) == UnitsOf(DecodeRune(t).r) + Units(x) && Starts(t + x)
  {
    ValidFirst(t);
    assert First(t + x) == First(t);
    assert (t + x)[|t|..] == x;
  }

  // One run of text and one sequence, in code units.
  lemma {:induction false} StepDecodes(s: bytes, i: nat, t: bytes, r: units)
    requires i == Percent(s) && Sequence(s[i..]) == Some(t)
    ensures var text, u, rest := Units(s[..i]), UnitsOf(DecodeRune(t).r), Units(s[i + 3 * |t|..]);
      DecodesTo(Units(s), r) <==> text + u <= r && DecodesTo(rest, r[|text + u|..])
  {
    hide Sequence, DecodeRune, UnitsOf, Units, DecodesTo;
    var e, text, u := s[i..], Units(s[..i]), UnitsOf(DecodeRune(t).r);
    BeforePercent(s);
    NoPercentUnits(s[..i]);
    assert s == s[..i] + e;
    UnitsAtSeam(s[..i], e);
    TextDecodes(text, Units(e), r);
    assert e[3 * |t|..] == s[i + 3 * |t|..];
    if text <= r {
      EscapeDecodes(e, r[|text|..]);
      SplitPrefix(text, u, r);
    } else {
      assert text + u <= r ==> text <= r;
    }
  }

  lemma SplitPrefix(a: units, b: units, r: units)
    requires a <= r
    ensures a + b <= r <==> b <= r[|a|..]
    ensures a + b <= r ==> r[|a|..][|b|..] == r[|a + b|..]
  {
    if b <= r[|a|..] { assert r == a + r[|a|..]; }
    if a + b <= r { assert b == r[..|a + b|][|a|..]; }
  }

  lemma {:induction false} DecodedUnits(s: bytes, i: nat, t: bytes, x: bytes)
    requires i == Percent(s) && Sequence(s[i..]) == Some(t)
    ensures Units(s[..i] + t + x) == Units(s[..i]) + UnitsOf(DecodeRune(t).r) + Units(x)
  {
    hide Sequence, DecodeRune, UnitsOf, Units, EscapesUtf8;
    SequenceIsText(s[i..], t);
    TextIsSequence(s[i..], t, DecodeRune(t).r);
    NotAnError(s[i..], t);
    SequenceUnits(t, x);
    UnitsAtSeam(s[..i], t + x);
    assert s[..i] + (t + x) == s[..i] + t + x;
    Assoc(Units(s[..i]), UnitsOf(DecodeRune(t).r), Units(x));
  }

  lemma NotAnError(e: bytes, t: bytes)
    requires Sequence(e) == Some(t) && t != []
    ensures DecodeRune(t) != Char(RUNE_ERROR, 1)
  {
  }

  /** What is decoded is, in code units, what Decode in section 19.2.6.6 of
      ECMA-262 gives of the code units, and there is a URIError exactly where it
      gives nothing. */
  lemma {:induction false} DecodesText(s: bytes, r: units)
    ensures DecodesTo(Units(s), r) <==> Decoded(s).Some? && Units(Decoded(s).value) == r
    decreases |s|
  {
    hide Sequence, DecodeRune, UnitsOf, Units, DecodesTo;
    var i := Percent(s);
    BeforePercent(s);
    if i < 0 {
      NoPercentUnits(s);
      NothingDecodes(Units(s), r);
      assert [] + s == s;
    } else if Sequence(s[i..]).None? {
      TextThenError(s, i, r);
    } else {
      var t := Sequence(s[i..]).value;
      var text, u, rest := Units(s[..i]), UnitsOf(DecodeRune(t).r), s[i + 3 * |t|..];
      StepDecodes(s, i, t, r);
      DecodeAppends([] + s[..i] + t, rest);
      assert [] + s[..i] + t == s[..i] + t;
      if text + u <= r {
        DecodesText(rest, r[|text + u|..]);
        assert r == text + u + r[|text + u|..];
      }
      if Decoded(rest).Some? { DecodedUnits(s, i, t, Decoded(rest).value); }
    }
  }

  lemma {:induction false} NothingDecodes(u: units, r: units)
    requires PERCENT !in u
    ensures DecodesTo(u, r) <==> u == r
  {
    TextDecodes(u, [], r);
    assert u + [] == u;
    if u <= r { assert r == u + r[|u|..]; }
  }

  lemma {:induction false} TextThenError(s: bytes, i: nat, r: units)
    requires i == Percent(s) && Sequence(s[i..]).None?
    ensures !DecodesTo(Units(s), r)
  {
    hide Sequence, DecodeRune, UnitsOf, Units, DecodesTo;
    var e, text := s[i..], Units(s[..i]);
    BeforePercent(s);
    NoPercentUnits(s[..i]);
    assert s == s[..i] + e;
    UnitsAtSeam(s[..i], e);
    TextDecodes(text, Units(e), r);
    if text <= r { EscapeDecodes(e, r[|text|..]); }
  }
}
