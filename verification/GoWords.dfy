/**
  Go's words, as its specification lists them in its sections Keywords and
  Predeclared identifiers, and what no name made for a program's is.
*/
module GoWords {
  import opened NameText

  predicate Keyword(w: string) {
    w in {"break", "default", "func", "interface", "select", "case", "defer", "go", "map", "struct", "chan", "else", "goto",
          "package", "switch", "const", "fallthrough", "if", "range", "type", "continue", "for", "import", "return", "var"}
  }

  predicate Predeclared(w: string) {
    || w in {"any", "bool", "byte", "comparable", "complex64", "complex128", "error", "float32", "float64", "int", "int8", "int16",
             "int32", "int64", "rune", "string", "uint", "uint8", "uint16", "uint32", "uint64", "uintptr"}
    || w in {"true", "false", "iota", "nil"}
    || w in {"append", "cap", "clear", "close", "complex", "copy", "delete", "imag", "len", "make", "max", "min", "new", "panic",
             "print", "println", "real", "recover"}
  }

  // What Go runs itself, and the runtime's package.
  predicate Special(w: string) { w == "main" || w == "init" || w == "cakebearrt" }

  lemma KeywordIsReserved(w: string)
    ensures Keyword(w) <==> w in KEYWORDS
  {
  }

  lemma PredeclaredIsReserved(w: string)
    requires Predeclared(w) && w != "comparable"
    ensures w in PREDECLARED_TYPES || w in PREDECLARED_VALUES
  {
  }

  lemma SpecialIsReserved(w: string)
    requires Special(w)
    ensures Reserved(w)
  {
  }

  lemma TenLetters(w: string)
    requires |w| == 10
    ensures w !in KEYWORDS && w !in PREDECLARED_VALUES && (w in PREDECLARED_TYPES ==> w[4] == 'l') && w !in OBJECT_METHODS
  {
    assert w in OBJECT_METHODS ==> w == "CloneObject" || w == "Layout" || w == "Field";
  }

  lemma ComparableIsNot()
    ensures "comparable" !in KEYWORDS && "comparable" !in PREDECLARED_TYPES && "comparable" !in PREDECLARED_VALUES
    ensures !HasPrefix("comparable", TS) && "comparable" != "_" && "comparable" != RT_PKG && "comparable" !in OBJECT_METHODS
  {
    var w := "comparable";
    assert |w| == 10 && w[4] == 'a' && w[0] == 'c';
    TenLetters(w);
    assert w[..3][0] == 'c' && RT_PKG[1] == 'a' && w[1] == 'o';
  }

  // A word of Go's begins with no ts_.
  lemma WordIsNoTs(w: string)
    requires Keyword(w) || Predeclared(w) || Special(w) || w == "_"
    ensures !HasPrefix(w, TS)
  {
    hide Reserved, Ordinary;
    if HasPrefix(w, TS) {
      TsNameReads(w);
      if w == "comparable" || Keyword(w) || Predeclared(w) || Special(w) {
        WordIsOrdinary(w);
        OrdinaryIsNoTs(w);
      }
    }
  }

  lemma WordIsOrdinary(w: string)
    requires Keyword(w) || Predeclared(w) || Special(w)
    ensures Ordinary(w)
  {
    hide Reserved, Ordinary, Keyword, Predeclared, Special;
    if Keyword(w) { KeywordIsReserved(w); KeywordsAreOrdinary(w); }
    else if Special(w) { SpecialIsReserved(w); ReservedIsOrdinary(w); }
    else if w == "comparable" { ComparableIsOrdinary(); }
    else {
      PredeclaredIsReserved(w);
      if w in PREDECLARED_TYPES { TypesAreOrdinary(w); } else { ValuesAreOrdinary(w); }
    }
  }

  lemma ComparableIsOrdinary()
    ensures Ordinary("comparable")
  {
  }

  lemma OrdinaryIsNoTs(w: string)
    requires Ordinary(w)
    ensures !(w[0] == 't' && w[1] == 's')
  {
  }

  // A name that goes through as it is, of the ones Go has a word for.
  lemma {:induction false} OnlyComparable(w: string)
    requires !Reserved(w)
    ensures !Keyword(w) && !Special(w) && (Predeclared(w) ==> w == "comparable")
  {
    hide Keyword, Predeclared, Special;
    KeywordIsReserved(w);
    if Special(w) { SpecialIsReserved(w); }
    if Predeclared(w) && w != "comparable" { PredeclaredIsReserved(w); }
  }

  lemma {:induction false} PrefixedIsNoWord(p: string)
    requires HasPrefix(p, TS)
    ensures !Keyword(p) && !Special(p) && !Predeclared(p)
  {
    hide Keyword, Predeclared, Special;
    if Keyword(p) || Special(p) || Predeclared(p) { WordIsNoTs(p); }
  }

  lemma UnderscoreIsNoWord()
    ensures !Keyword("_") && !Special("_") && !Predeclared("_")
  {
  }

  lemma {:induction false} MangledWord(u: Unicode, name: string)
    ensures var g := Mangle(u, name);
      !Keyword(g) && !Special(g) && (Predeclared(g) ==> name == g == "comparable")
  {
    hide Keyword, Predeclared, Special, Reserved, Escape;
    UnderscoreIsNoWord();
    PrefixReads(TS, name);
    PrefixReads(TS, "blank");
    PrefixReads(TS, "x_" + Escape(u, name));
    assert TS + "blank" == "ts_blank" && TS + ("x_" + Escape(u, name)) == ESCAPED + Escape(u, name);
    var g := Mangle(u, name);
    if HasPrefix(g, TS) { PrefixedIsNoWord(g); }
    else if name != "" { OnlyComparable(name); }
  }

  lemma {:induction false} ComparableGoesThrough(u: Unicode)
    requires AsciiRight(u)
    ensures Mangle(u, "comparable") == "comparable" == FieldName(u, "comparable")
  {
    hide HasPrefix, Escape;
    ComparableIsNot();
    assert !u.digit('c');
    forall k | 0 <= k < |"comparable"|
      ensures !NotGo(u, "comparable"[k])
    {
      assert "comparable"[k] < 128 as char && 'a' <= "comparable"[k] <= 'z';
    }
  }

  /** No Go name made for a program's is a keyword, main, init or the runtime's
      package, and just one is a predeclared identifier: comparable's, which the
      list of them does not hold. */
  lemma {:induction false} NeverAWord(u: Unicode, name: string)
    requires AsciiRight(u)
    ensures !Keyword(Mangle(u, name)) && !Special(Mangle(u, name))
    ensures !Keyword(FieldName(u, name)) && !Special(FieldName(u, name))
    ensures Predeclared(Mangle(u, name)) <==> name == "comparable"
    ensures Predeclared(FieldName(u, name)) <==> name == "comparable"
  {
    hide Keyword, Predeclared, Special, Mangle, Escape, AsciiRight;
    MangledWord(u, name);
    PrefixReads(TS, name);
    PrefixReads(TS, "x_" + Escape(u, name));
    assert TS + ("x_" + Escape(u, name)) == ESCAPED + Escape(u, name);
    PrefixedIsNoWord(TS + name);
    PrefixedIsNoWord(ESCAPED + Escape(u, name));
    if name == "comparable" {
      ComparableGoesThrough(u);
      ComparableIsPredeclared();
    }
  }

  lemma ComparableIsPredeclared()
    ensures Predeclared("comparable")
  {
  }

  /** No property's field is named as a method every object has. */
  lemma {:induction false} NeverAMethod(u: Unicode, name: string)
    ensures FieldName(u, name) != "Layout" && FieldName(u, name) != "Field" && FieldName(u, name) != "CloneObject"
  {
    hide Reserved, Escape;
    var g := FieldName(u, name);
    PrefixReads(TS, name);
    PrefixReads(ESCAPED, Escape(u, name));
    if HasPrefix(g, TS) { TsNameReads(g); }
    if HasPrefix(g, ESCAPED) { assert g[0] == ESCAPED[0]; }
    assert "_"[0] == '_' && "ts_blank"[0] == 't';
    assert name == "Layout" || name == "Field" || name == "CloneObject" ==> name in OBJECT_METHODS;
  }

  // A Go identifier: letters, digits and underscores, no digit first.
  predicate Identifier(u: Unicode, g: string) { g != "" && !u.digit(g[0]) && AllGo(u, g) }

  lemma AllGoTogether(u: Unicode, a: string, b: string)
    requires AllGo(u, a) && AllGo(u, b)
    ensures AllGo(u, a + b)
  {
  }

  lemma {:induction false} HexIsGo(u: Unicode, n: nat)
    requires AsciiRight(u)
    ensures AllGo(u, Hex(n))
    decreases n
  {
    if n >= 16 { HexIsGo(u, n / 16); }
  }

  lemma AsciiIsGo(u: Unicode, s: string)
    requires AsciiRight(u) && forall k :: 0 <= k < |s| ==> s[k] == '_' || 'a' <= s[k] <= 'z' || 'A' <= s[k] <= 'Z'
    ensures AllGo(u, s)
  {
  }

  lemma {:induction false} EscapeIsGo(u: Unicode, name: string)
    requires AsciiRight(u)
    ensures AllGo(u, Escape(u, name))
    decreases |name|
  {
    hide AsciiRight, AllGo, Hex;
    if name == "" {
      AsciiIsGo(u, "");
    } else {
      CharIsGo(u, name[0]);
      EscapeIsGo(u, name[1..]);
      AllGoTogether(u, EscapeChar(u, name[0]), Escape(u, name[1..]));
    }
  }

  lemma {:induction false} CharIsGo(u: Unicode, c: char)
    requires AsciiRight(u)
    ensures AllGo(u, EscapeChar(u, c))
  {
    hide AsciiRight, Hex;
    if c == '_' { AsciiIsGo(u, "__"); }
    else if c == '$' { AsciiIsGo(u, "_D"); }
    else if NotGo(u, c) {
      AsciiIsGo(u, "_u");
      AsciiIsGo(u, "_");
      HexIsGo(u, c as int);
      AllGoTogether(u, "_u", Hex(c as int));
      AllGoTogether(u, "_u" + Hex(c as int), "_");
    }
  }

  /** Every Go name made is an identifier, whatever the property; mangle's is of
      any name that begins with no digit. */
  lemma {:induction false} AlwaysAnIdentifier(u: Unicode, name: string)
    requires AsciiRight(u)
    ensures Identifier(u, FieldName(u, name))
    ensures name == "" || !u.digit(name[0]) ==> Identifier(u, Mangle(u, name))
  {
    hide Reserved, Escape, HasPrefix;
    AsciiIsGo(u, "_");
    AsciiIsGo(u, "ts_blank");
    AsciiIsGo(u, ESCAPED);
    AsciiIsGo(u, TS);
    EscapeIsGo(u, name);
    AllGoTogether(u, ESCAPED, Escape(u, name));
    assert !u.digit('t') && !u.digit('_');
    if AllGo(u, name) { AllGoTogether(u, TS, name); }
    if name in OBJECT_METHODS {
      AsciiIsGo(u, name);
      AllGoTogether(u, TS, name);
    }
  }
}
