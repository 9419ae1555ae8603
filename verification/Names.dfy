/**
  Go's names for a program's, on the bytes the source works on (backend/
  mangle.go, emit_object.go). Go's range reads a byte that begins no UTF-8 as
  U+FFFD, and so the three bytes of a lone surrogate, which a property's name
  may hold, as three of them.
*/
module Names {
  import opened Wtf8
  import opened Halves
  import Text = NameText

  // Unicode's tables, as far as names need them: U+FFFD is neither a letter nor a digit.
  ghost predicate Known(u: Text.Unicode) {
    Text.AsciiRight(u) && !u.letter(RUNE_ERROR as char) && !u.digit(RUNE_ERROR as char)
  }

  lemma DecodesNoHalf(n: bytes)
    requires n != []
    ensures !High(DecodeRune(n).r) && !Low(DecodeRune(n).r)
  {
  }

  function FirstRune(n: bytes): char
    requires n != []
  {
    DecodesNoHalf(n);
    DecodeRune(n).r as char
  }

  // What range reads.
  function Runes(n: bytes): string
    decreases |n|
  {
    if n == [] then "" else [FirstRune(n)] + Runes(n[DecodeRune(n).size..])
  }

  // Text, as WriteRune and string constants have it.
  function Utf8(s: string): bytes { if s == "" then [] else Enc(s[0] as int) + Utf8(s[1..]) }

  lemma {:induction false} Utf8Joins(a: string, b: string)
    ensures Utf8(a + b) == Utf8(a) + Utf8(b)
    decreases a
  {
    if a == "" {
      assert "" + b == b;
    } else {
      assert (a + b)[1..] == a[1..] + b;
      Utf8Joins(a[1..], b);
      assert Utf8(a + b) == Enc(a[0] as int) + (Utf8(a[1..]) + Utf8(b));
    }
  }

  lemma {:induction false} RuneAtSeam(c: char, rest: bytes)
    ensures var n := Enc(c as int) + rest;
      DecodeRune(n) == Char(c as int, |Enc(c as int)|) && FirstRune(n) == c && n[DecodeRune(n).size..] == rest
  {
    EncodedIsRead(c as int, rest);
    var n := Enc(c as int) + rest;
    assert First(n).r == c as int && !High(First(n).r) && !Low(First(n).r);
    if HalfAt(n, 0) { HalfIsFirst(n); HalfIsHigh(n); }
  }

  lemma HalfIsHigh(n: bytes)
    requires HalfAt(n, 0)
    ensures High(UnitAtHalf(n, 0)) || Low(UnitAtHalf(n, 0))
  {
  }

  lemma {:induction false} RunesAtSeam(s: string, rest: bytes)
    ensures Runes(Utf8(s) + rest) == s + Runes(rest)
    decreases s
  {
    hide DecodeRune, Enc;
    if s == "" {
      assert [] + rest == rest && "" + Runes(rest) == Runes(rest);
    } else {
      var tail := Utf8(s[1..]) + rest;
      assert Utf8(s) + rest == Enc(s[0] as int) + tail;
      RuneAtSeam(s[0], tail);
      RunesAtSeam(s[1..], rest);
      assert s + Runes(rest) == [s[0]] + (s[1..] + Runes(rest));
    }
  }

  lemma {:induction false} RunesOfUtf8(s: string)
    ensures Runes(Utf8(s)) == s
  {
    RunesAtSeam(s, []);
    assert Utf8(s) + [] == Utf8(s) && s + "" == s;
  }

  /** Reading a name's runes and writing them again gives it back exactly when
      it is valid UTF-8. */
  lemma {:induction false} RunesWriteBack(n: bytes)
    ensures Utf8(Runes(n)) == n <==> ValidUtf8(n)
    decreases |n|
  {
    if n != [] {
      var c, rest := FirstRune(n), n[DecodeRune(n).size..];
      assert Runes(n)[1..] == Runes(rest);
      assert Utf8(Runes(n)) == Enc(c as int) + Utf8(Runes(rest));
      RunesWriteBack(rest);
      if DecodeRune(n) == Char(RUNE_ERROR, 1) {
        if Utf8(Runes(n)) == n { RuneAtSeam(c, Utf8(Runes(rest))); }
      } else {
        DecodedIsEncoded(n);
        RuneAtSeam(c, Utf8(Runes(rest)));
      }
    }
  }

  lemma {:induction false} DecodedIsEncoded(n: bytes)
    requires n != [] && DecodeRune(n) != Char(RUNE_ERROR, 1)
    ensures n == Enc(DecodeRune(n).r) + n[DecodeRune(n).size..]
  {
    assert First(n) == DecodeRune(n);
    ReadIsEncoded(n);
  }

  lemma {:induction false} ValidWithoutErrors(n: bytes)
    requires forall k :: 0 <= k < |Runes(n)| ==> Runes(n)[k] != RUNE_ERROR as char
    ensures ValidUtf8(n)
    decreases |n|
  {
    if n != [] {
      var rest := n[DecodeRune(n).size..];
      assert Runes(n)[0] == FirstRune(n);
      forall k | 0 <= k < |Runes(rest)|
        ensures Runes(rest)[k] != RUNE_ERROR as char
      {
        assert Runes(n)[k + 1] == Runes(rest)[k];
      }
      ValidWithoutErrors(rest);
    }
  }

  // What the source's tests on bytes say of a valid name's text.

  lemma {:induction false} SameText(n: bytes, w: string)
    requires ValidUtf8(n)
    ensures n == Utf8(w) <==> Runes(n) == w
  {
    RunesWriteBack(n);
    RunesOfUtf8(w);
  }

  predicate HasPrefix(n: bytes, p: bytes) { |p| <= |n| && n[..|p|] == p }

  lemma {:induction false} SamePrefix(n: bytes, p: string)
    requires ValidUtf8(n)
    ensures HasPrefix(n, Utf8(p)) <==> Text.HasPrefix(Runes(n), p)
  {
    if HasPrefix(n, Utf8(p)) {
      var rest := n[|Utf8(p)|..];
      assert n == Utf8(p) + rest;
      RunesAtSeam(p, rest);
      assert (p + Runes(rest))[..|p|] == p;
    }
    if Text.HasPrefix(Runes(n), p) {
      var rest := Runes(n)[|p|..];
      assert Runes(n) == p + rest;
      Utf8Joins(p, rest);
      RunesWriteBack(n);
      assert (Utf8(p) + Utf8(rest))[..|Utf8(p)|] == Utf8(p);
    }
  }

  function Words(ws: set<string>): set<bytes> { set w | w in ws :: Utf8(w) }

  lemma {:induction false} SameWord(n: bytes, ws: set<string>)
    requires ValidUtf8(n)
    ensures n in Words(ws) <==> Runes(n) in ws
  {
    SameText(n, Runes(n));
    forall w | w in ws
      ensures n == Utf8(w) <==> Runes(n) == w
    {
      SameText(n, w);
    }
  }

  // A goName, and the name it stands for.

  function Mangled(u: Text.Unicode, n: bytes): bytes { Utf8(Text.Mangle(u, Runes(n))) }

  function Field(u: Text.Unicode, n: bytes): bytes { Utf8(Text.FieldName(u, Runes(n))) }

  function Unmangled(g: bytes): bytes { Utf8(Text.Unmangle(Runes(g))) }

  function Property(g: bytes): bytes { Utf8(Text.FieldProperty(Runes(g))) }

  // strings.ContainsFunc(name, notGoIdentifier).
  method HoldsNotGo(u: Text.Unicode, name: bytes) returns (bad: bool)
    ensures bad <==> !Text.AllGo(u, Runes(name))
  {
    var rest := name;
    ghost var read := "";
    while rest != []
      invariant Runes(name) == read + Runes(rest) && Text.AllGo(u, read)
      decreases |rest|
    {
      var c := FirstRune(rest);
      assert Runes(rest)[0] == c && Runes(name)[|read|] == c;
      if Text.NotGo(u, c) { return true; }
      rest := rest[DecodeRune(rest).size..];
      read := read + [c];
    }
    assert Runes(name) == read;
    bad := false;
  }

  /** escape. */
  method Escape(u: Text.Unicode, name: bytes) returns (b: bytes)
    ensures b == Utf8(Text.Escape(u, Runes(name)))
  {
    hide DecodeRune, Enc, Text.EscapeChar;
    b := [];
    var rest := name;
    while rest != []
      invariant Utf8(Text.Escape(u, Runes(name))) == b + Utf8(Text.Escape(u, Runes(rest)))
      decreases |rest|
    {
      var c := FirstRune(rest);
      var after := rest[DecodeRune(rest).size..];
      assert Runes(rest)[0] == c && Runes(rest)[1..] == Runes(after);
      Utf8Joins(Text.EscapeChar(u, c), Text.Escape(u, Runes(after)));
      var w := EscapeRune(u, c);
      assert b + (w + Utf8(Text.Escape(u, Runes(after)))) == (b + w) + Utf8(Text.Escape(u, Runes(after)));
      b := b + w;
      rest := after;
    }
  }

  // What one turn of the loop writes.
  method EscapeRune(u: Text.Unicode, c: char) returns (b: bytes)
    ensures b == Utf8(Text.EscapeChar(u, c))
  {
    if c == '_' {
      b := Utf8("__");
    } else if c == '$' {
      b := Utf8("_D");
    } else if Text.NotGo(u, c) {
      b := Utf8("_u" + Text.Hex(c as int) + "_");
    } else {
      b := Enc(c as int);
      assert [c][1..] == "" && Utf8([c]) == Enc(c as int) + Utf8("");
    }
  }

  /** mangle. */
  method Mangle(u: Text.Unicode, name: bytes) returns (g: bytes)
    requires Known(u)
    ensures g == Mangled(u, name)
  {
    hide Text.Escape, Utf8;
    if name == [] { return Utf8("_"); }
    assert Runes(name) != "";
    var bad := HoldsNotGo(u, name);
    if bad {
      var b := Escape(u, name);
      Utf8Joins(Text.ESCAPED, Text.Escape(u, Runes(name)));
      return Utf8(Text.ESCAPED) + b;
    }
    ValidWithoutErrors(name);
    SameWord(name, Text.KEYWORDS);
    SameWord(name, Text.PREDECLARED_TYPES);
    SameWord(name, Text.PREDECLARED_VALUES);
    SameText(name, Text.RT_PKG);
    SamePrefix(name, Text.TS);
    RunesWriteBack(name);
    if name in Words(Text.KEYWORDS) || name in Words(Text.PREDECLARED_TYPES) || name in Words(Text.PREDECLARED_VALUES)
      || name == Utf8(Text.RT_PKG) || HasPrefix(name, Utf8(Text.TS)) {
      Utf8Joins(Text.TS, Runes(name));
      return Utf8(Text.TS) + name;
    }
    SameText(name, "_");
    if name == Utf8("_") { return Utf8("ts_blank"); }
    g := name;
  }

  /** fieldName. */
  method FieldName(u: Text.Unicode, name: bytes) returns (g: bytes)
    requires Known(u)
    ensures g == Field(u, name)
  {
    hide Text.Escape, Utf8, Text.Mangle;
    assert name == [] <==> Runes(name) == "";
    if name == [] || u.digit(FirstRune(name)) {
      var b := Escape(u, name);
      Utf8Joins(Text.ESCAPED, Text.Escape(u, Runes(name)));
      return Utf8(Text.ESCAPED) + b;
    }
    MethodNames(name);
    if name in Words(Text.OBJECT_METHODS) {
      Utf8Joins(Text.TS, Runes(name));
      return Utf8(Text.TS) + name;
    }
    g := Mangle(u, name);
  }

  lemma {:induction false} MethodNames(n: bytes)
    ensures n in Words(Text.OBJECT_METHODS) <==> Runes(n) in Text.OBJECT_METHODS
    ensures n in Words(Text.OBJECT_METHODS) ==> Utf8(Runes(n)) == n
  {
    hide Runes, Utf8, ValidUtf8;
    if n in Words(Text.OBJECT_METHODS) {
      var w :| w in Text.OBJECT_METHODS && n == Utf8(w);
      RunesOfUtf8(w);
    }
    if Runes(n) in Text.OBJECT_METHODS {
      MethodsAreAscii(Runes(n));
      ValidWithoutErrors(n);
      SameWord(n, Text.OBJECT_METHODS);
    }
  }

  lemma MethodsAreAscii(w: string)
    requires w in Text.OBJECT_METHODS
    ensures forall k :: 0 <= k < |w| ==> w[k] != RUNE_ERROR as char
  {
  }

  // Names read back.

  /** An escaped name reads back as its runes. */
  lemma EscapeReads(u: Text.Unicode, n: bytes)
    ensures Text.Unescape(Runes(Utf8(Text.Escape(u, Runes(n))))) == Runes(n)
  {
    RunesOfUtf8(Text.Escape(u, Runes(n)));
    Text.EscapeReads(u, Runes(n));
  }

  /** mangle's names read back exactly for names of valid UTF-8, as every
      identifier is; two names share one exactly when their runes are the same. */
  lemma MangleReads(u: Text.Unicode, n: bytes, m: bytes)
    ensures Unmangled(Mangled(u, n)) == n <==> ValidUtf8(n)
    ensures Mangled(u, m) == Mangled(u, n) <==> Runes(m) == Runes(n)
    ensures ValidUtf8(m) && ValidUtf8(n) && m != n ==> Mangled(u, m) != Mangled(u, n)
  {
    RunesOfUtf8(Text.Mangle(u, Runes(n)));
    RunesOfUtf8(Text.Mangle(u, Runes(m)));
    Text.MangleReads(u, Runes(n));
    Text.MangleReads(u, Runes(m));
    RunesWriteBack(n);
    RunesWriteBack(m);
  }

  /** A field's name reads back to its property exactly when the property is
      valid UTF-8; two properties share a field exactly when their runes are
      the same, so never when both are valid. */
  lemma FieldNameReads(u: Text.Unicode, n: bytes, m: bytes)
    requires Known(u)
    ensures Property(Field(u, n)) == n <==> ValidUtf8(n)
    ensures Field(u, m) == Field(u, n) <==> Runes(m) == Runes(n)
    ensures ValidUtf8(m) && ValidUtf8(n) && m != n ==> Field(u, m) != Field(u, n)
  {
    RunesOfUtf8(Text.FieldName(u, Runes(n)));
    RunesOfUtf8(Text.FieldName(u, Runes(m)));
    Text.FieldNameReads(u, Runes(n));
    Text.FieldNameReads(u, Runes(m));
    RunesWriteBack(n);
    RunesWriteBack(m);
  }

  // "\uD800", "\uD801" and "\uFFFD\uFFFD\uFFFD".
  const D800: bytes := [0xED, 0xA0, 0x80]
  const D801: bytes := [0xED, 0xA0, 0x81]
  const THREE_ERRORS: bytes := [0xEF, 0xBF, 0xBD, 0xEF, 0xBF, 0xBD, 0xEF, 0xBF, 0xBD]

  /** Three properties with one field: canonical strings that JavaScript tells apart. */
  lemma LoneSurrogatesCollide(u: Text.Unicode)
    requires Known(u)
    ensures Canonical(D800) && Canonical(D801) && Canonical(THREE_ERRORS)
    ensures Units(D800) == [0xD800] && Units(D801) == [0xD801] && Units(THREE_ERRORS) == [0xFFFD, 0xFFFD, 0xFFFD]
    ensures Field(u, D800) == Field(u, D801) == Field(u, THREE_ERRORS)
    ensures !ValidUtf8(D800) && !ValidUtf8(D801) && ValidUtf8(THREE_ERRORS)
  {
    hide Runes, Units, CanonicalAfter, ValidUtf8, Field;
    HalfIsThreeErrors(0x80);
    HalfIsThreeErrors(0x81);
    ErrorsAreThree();
    SameField(u, D800, D801);
    SameField(u, D800, THREE_ERRORS);
  }

  lemma SameField(u: Text.Unicode, n: bytes, m: bytes)
    requires Runes(n) == Runes(m)
    ensures Field(u, n) == Field(u, m)
  {
  }

  lemma {:induction false} HalfIsThreeErrors(last: byte)
    requires Cont(last)
    ensures var n, e := [0xED, 0xA0, last], RUNE_ERROR as char;
      Runes(n) == [e, e, e] && !ValidUtf8(n) && Canonical(n) && Units(n) == [0xD800 + last - 0x80]
  {
    var n: bytes, e := [0xED, 0xA0, last], RUNE_ERROR as char;
    var two: bytes, one: bytes := [0xA0, last], [last];
    assert n[1..] == two && two[1..] == one && one[1..] == [] && n[3..] == [];
    assert Runes(one) == [e] + Runes([]) == [e];
    assert Runes(two) == [e] + Runes(one) == [e, e];
    assert Runes(n) == [e] + Runes(two) == [e, e, e];
  }

  lemma ErrorsAreThree()
    ensures var e := RUNE_ERROR as char; Runes(THREE_ERRORS) == [e, e, e]
    ensures Canonical(THREE_ERRORS) && Units(THREE_ERRORS) == [0xFFFD, 0xFFFD, 0xFFFD] && ValidUtf8(THREE_ERRORS)
  {
    var one: bytes := [0xEF, 0xBF, 0xBD];
    var two := THREE_ERRORS[3..];
    assert two == one + one && two[3..] == one && one[3..] == [];
    assert First(one) == Char(RUNE_ERROR, 3) && First(two) == Char(RUNE_ERROR, 3) && First(THREE_ERRORS) == Char(RUNE_ERROR, 3);
    assert Runes(one) == [RUNE_ERROR as char] && Units(one) == [0xFFFD] && CanonicalAfter(one, false) && ValidUtf8(one);
    assert Runes(two) == [RUNE_ERROR as char, RUNE_ERROR as char] && Units(two) == [0xFFFD, 0xFFFD] && CanonicalAfter(two, false) && ValidUtf8(two);
  }

  /** No program's name, and no property's, becomes one the emitter makes up. */
  lemma NeverGenerated(u: Text.Unicode, n: bytes, g: string)
    requires Known(u) && Text.Generated(g)
    ensures Mangled(u, n) != Utf8(g) && Field(u, n) != Utf8(g)
  {
    RunesOfUtf8(g);
    RunesOfUtf8(Text.Mangle(u, Runes(n)));
    RunesOfUtf8(Text.FieldName(u, Runes(n)));
    Text.NeverGenerated(u, Runes(n));
  }
}
