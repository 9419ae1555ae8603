/**
  Go's names for a program's (backend/mangle.go, emit_object.go), as sequences
  of code points. Module Names has them as the bytes the source works on.
*/
module NameText {
  import opened Digits

  // unicode.IsLetter and unicode.IsDigit, of which only ASCII is spelt out here.
  datatype Unicode = Unicode(letter: char -> bool, digit: char -> bool)

  ghost predicate AsciiRight(u: Unicode) {
    forall c: char :: c < 128 as char ==>
      (u.letter(c) <==> 'a' <= c <= 'z' || 'A' <= c <= 'Z') && (u.digit(c) <==> '0' <= c <= '9')
  }

  const KEYWORDS: set<string> := {
    "break", "case", "chan", "const", "continue", "default", "defer", "else", "fallthrough", "for", "func", "go", "goto",
    "if", "import", "interface", "map", "package", "range", "return", "select", "struct", "switch", "type", "var" }

  const PREDECLARED_TYPES: set<string> := {
    "any", "bool", "byte", "complex64", "complex128", "error", "float32", "float64", "int", "int8", "int16", "int32",
    "int64", "rune", "string", "uint", "uint8", "uint16", "uint32", "uint64", "uintptr" }

  const PREDECLARED_VALUES: set<string> := {
    "true", "false", "iota", "nil", "append", "cap", "clear", "close", "complex", "copy", "delete", "imag", "len", "make",
    "max", "min", "new", "panic", "print", "println", "real", "recover", "main", "init" }

  const RT_PKG := "cakebearrt"
  const TS := "ts_"
  const ESCAPED := "ts_x_"
  const OBJECT_METHODS: set<string> := {"Layout", "Field", "CloneObject"}

  predicate Reserved(name: string) { name in KEYWORDS || name in PREDECLARED_TYPES || name in PREDECLARED_VALUES || name == RT_PKG }

  predicate HasPrefix(s: string, p: string) { |p| <= |s| && s[..|p|] == p }

  predicate NotGo(u: Unicode, c: char) { c != '_' && !u.letter(c) && !u.digit(c) }

  // %X.
  function Hex(n: nat): (s: string)
    ensures s != ""
  {
    if n < 16 then [UpperHex(n) as char] else Hex(n / 16) + [UpperHex(n % 16) as char]
  }

  function EscapeChar(u: Unicode, c: char): (s: string)
    ensures s != ""
  {
    if c == '_' then "__"
    else if c == '$' then "_D"
    else if NotGo(u, c) then "_u" + Hex(c as int) + "_"
    else [c]
  }

  function Escape(u: Unicode, name: string): string {
    if name == "" then "" else EscapeChar(u, name[0]) + Escape(u, name[1..])
  }

  predicate AllGo(u: Unicode, name: string) { forall k :: 0 <= k < |name| ==> !NotGo(u, name[k]) }

  function Mangle(u: Unicode, name: string): string {
    if name == "" then "_"
    else if !AllGo(u, name) then ESCAPED + Escape(u, name)
    else if Reserved(name) || HasPrefix(name, TS) then TS + name
    else if name == "_" then "ts_blank"
    else name
  }

  function FieldName(u: Unicode, name: string): string {
    if name == "" || u.digit(name[0]) then ESCAPED + Escape(u, name)
    else if name in OBJECT_METHODS then TS + name
    else Mangle(u, name)
  }

  // Reading a name back.

  function FromHex(s: string): nat {
    if s == "" then 0 else FromHex(s[..|s| - 1]) * 16 + Digit(s[|s| - 1] as int)
  }

  // How much of s comes before its first underscore.
  function ToUnderscore(s: string): (n: nat)
    ensures n <= |s|
  {
    if s == "" || s[0] == '_' then 0 else 1 + ToUnderscore(s[1..])
  }

  function CharOf(n: nat): char { if n < 0xD800 || 0xE000 <= n < 0x11_0000 then n as char else '?' }

  function Unescape(s: string): string {
    if s == "" then ""
    else if s[0] != '_' then [s[0]] + Unescape(s[1..])
    else if |s| == 1 then ""
    else if s[1] == '_' then "_" + Unescape(s[2..])
    else if s[1] == 'D' then "$" + Unescape(s[2..])
    else
      var n := ToUnderscore(s[2..]);
      [CharOf(FromHex(s[2..2 + n]))] + if 3 + n <= |s| then Unescape(s[3 + n..]) else ""
  }

  function Unmangle(s: string): string {
    if s == "_" then ""
    else if s == "ts_blank" then "_"
    else if HasPrefix(s, ESCAPED) then Unescape(s[|ESCAPED|..])
    else if HasPrefix(s, TS) then s[|TS|..]
    else s
  }

  function FieldProperty(s: string): string {
    if s == "ts_blank" then "_"
    else if HasPrefix(s, ESCAPED) then Unescape(s[|ESCAPED|..])
    else if HasPrefix(s, TS) then s[|TS|..]
    else s
  }

  lemma {:induction false} FromHexOf(first: string, c: char)
    ensures FromHex(first + [c]) == FromHex(first) * 16 + Digit(c as int)
  {
    assert (first + [c])[..|first|] == first;
  }

  lemma {:induction false} HexReads(n: nat)
    ensures FromHex(Hex(n)) == n
    ensures forall k :: 0 <= k < |Hex(n)| ==> Hex(n)[k] != '_'
    decreases n
  {
    hide Digit, FromHex;
    if n < 16 {
      assert [UpperHex(n) as char] == "" + [UpperHex(n) as char];
      FromHexOf("", UpperHex(n) as char);
      assert FromHex("") == 0 by { FromNothing(); }
    } else {
      HexReads(n / 16);
      FromHexOf(Hex(n / 16), UpperHex(n % 16) as char);
    }
  }

  lemma FromNothing()
    ensures FromHex("") == 0
  {
  }

  lemma {:induction false} UnderscoreAfter(a: string, t: string)
    requires forall k :: 0 <= k < |a| ==> a[k] != '_'
    ensures ToUnderscore(a + "_" + t) == |a|
    decreases |a|
  {
    if a == "" {
      assert a + "_" + t == "_" + t;
    } else {
      assert (a + "_" + t)[1..] == a[1..] + "_" + t;
      UnderscoreAfter(a[1..], t);
    }
  }

  lemma {:induction false} CharReads(u: Unicode, c: char, rest: string)
    ensures Unescape(EscapeChar(u, c) + rest) == [c] + Unescape(rest)
  {
    var s := EscapeChar(u, c) + rest;
    if c == '_' || c == '$' {
      assert s[2..] == rest;
    } else if NotGo(u, c) {
      var hex := Hex(c as int);
      HexReads(c as int);
      UnderscoreAfter(hex, rest);
      assert s[2..] == hex + "_" + rest;
      assert s[2..2 + |hex|] == hex && s[3 + |hex|..] == rest;
      assert CharOf(c as int) == c;
    } else {
      assert s[1..] == rest;
    }
  }

  /** An escaped name reads back to its original. */
  lemma {:induction false} EscapeReads(u: Unicode, name: string)
    ensures Unescape(Escape(u, name)) == name
    decreases |name|
  {
    if name != "" {
      CharReads(u, name[0], Escape(u, name[1..]));
      EscapeReads(u, name[1..]);
    }
  }

  // How the reserved names, and only some others, begin.
  predicate Ordinary(w: string) {
    && |w| >= 2 && w[0] != 'x' && w[0] != 'k' && w[0] != 'o'
    && !(w[0] == 'm' && ('0' <= w[1] <= '9' || w[1] == 'o'))
    && !(w[0] == 'l' && w[1] == 'a') && !(w[0] == 's' && w[1] == 'h') && !(w[0] == 'a' && w[1] == 'c')
    && !(w[0] == 't' && w[1] == 's') && !(w[0] == 'd' && w[1] == 'o') && !(w[0] == 'b' && w[1] == 'l')
    && !(w[0] == 'c' && |w| == 2) && !(w[0] == 'r' && |w| == 4 && w[3] == 'd')
    && !(w[0] in {'t', 'r'} && '0' <= w[1] <= '9') && !(w[0] == 's' && w[1] == 'i')
    && !(w[0] == 's' && w[1] == 'e' && |w| > 2 && w[2] == 't') && !(w[0] == 'd' && w[1] == 'e' && |w| > 6 && w[2] == 'l')
  }

  lemma KeywordsAreOrdinary(w: string)
    requires w in KEYWORDS
    ensures Ordinary(w)
  {
  }

  lemma TypesAreOrdinary(w: string)
    requires w in PREDECLARED_TYPES
    ensures Ordinary(w)
  {
  }

  lemma ValuesAreOrdinary(w: string)
    requires w in PREDECLARED_VALUES
    ensures Ordinary(w)
  {
  }

  lemma ReservedIsOrdinary(w: string)
    requires Reserved(w)
    ensures Ordinary(w)
  {
    if w in KEYWORDS { KeywordsAreOrdinary(w); }
    else if w in PREDECLARED_TYPES { TypesAreOrdinary(w); }
    else if w in PREDECLARED_VALUES { ValuesAreOrdinary(w); }
  }

  lemma PrefixReads(p: string, s: string)
    ensures HasPrefix(p + s, p) && (p + s)[|p|..] == s
  {
  }

  // A name under the prefix is not an escaped one.
  lemma {:induction false} PrefixedReads(name: string)
    requires |name| >= 2 && !(name[0] == 'x' && name[1] == '_') && name != "blank"
    ensures var g := TS + name; g != "_" && g != "ts_blank" && !HasPrefix(g, ESCAPED) && HasPrefix(g, TS) && g[|TS|..] == name
  {
    var g := TS + name;
    PrefixReads(TS, name);
    assert g[3] == name[0] && g[4] == name[1];
    assert g[3..] == name && "ts_blank"[3..] == "blank";
  }

  lemma {:induction false} EscapedReads(u: Unicode, name: string)
    ensures var g := ESCAPED + Escape(u, name); g != "_" && g != "ts_blank" && HasPrefix(g, ESCAPED) && Unescape(g[|ESCAPED|..]) == name
  {
    PrefixReads(ESCAPED, Escape(u, name));
    EscapeReads(u, name);
    var g := ESCAPED + Escape(u, name);
    assert g[3] == 'x';
  }

  lemma {:induction false} PlainReads(name: string)
    requires name != "" && !HasPrefix(name, TS)
    ensures name != "ts_blank" && !HasPrefix(name, ESCAPED)
  {
    hide HasPrefix;
    PrefixReads(TS, "blank");
    assert "ts_blank" == TS + "blank" && ESCAPED == TS + "x_";
    if HasPrefix(name, ESCAPED) { PrefixOfPrefix(name, TS, "x_"); }
  }

  lemma {:induction false} PrefixOfPrefix(s: string, p: string, q: string)
    requires HasPrefix(s, p + q)
    ensures HasPrefix(s, p)
  {
    assert s[..|p|] == s[..|p + q|][..|p|] == p;
  }

  lemma {:induction false} TsNameReads(name: string)
    requires HasPrefix(name, TS)
    ensures |name| >= 3 && name[0] == 't' && name[1] == 's'
  {
    assert name[..3][0] == 't' && name[..3][1] == 's';
  }

  /** mangle has a left inverse: no two names share a Go name. */
  lemma {:induction false} MangleReads(u: Unicode, name: string)
    ensures Unmangle(Mangle(u, name)) == name
  {
    hide Escape, Unescape, Reserved;
    if name != "" {
      if !AllGo(u, name) {
        EscapedReads(u, name);
      } else if Reserved(name) || HasPrefix(name, TS) {
        if Reserved(name) { ReservedIsOrdinary(name); } else { TsNameReads(name); }
        PrefixedReads(name);
      } else if name != "_" {
        PlainReads(name);
      }
    }
  }

  /** And so has fieldName, of any property name. */
  lemma {:induction false} FieldNameReads(u: Unicode, name: string)
    requires AsciiRight(u)
    ensures FieldProperty(FieldName(u, name)) == name
  {
    hide Escape, Unescape, Reserved;
    if name == "" || u.digit(name[0]) {
      EscapedReads(u, name);
    } else if name in OBJECT_METHODS {
      PrefixedReads(name);
    } else if !AllGo(u, name) {
      EscapedReads(u, name);
    } else if Reserved(name) || HasPrefix(name, TS) {
      if Reserved(name) { ReservedIsOrdinary(name); } else { TsNameReads(name); }
      PrefixedReads(name);
    } else if name != "_" {
      PlainReads(name);
    }
  }

  predicate NumberAfter(s: string, p: string) { HasPrefix(s, p) && |s| > |p| && '0' <= s[|p|] <= '9' }

  // The names the emitter makes up, and some more: each number may go on as it likes.
  predicate Generated(g: string) {
    || g in {"ts_read", "ts_domain", "ts_co", "ts_module", "ts_of", "ts_i", "ts_sites"}
    || HasPrefix(g, "ts_acc_") || HasPrefix(g, "ts_layout") || HasPrefix(g, "ts_shape")
    || NumberAfter(g, "ts_k") || NumberAfter(g, "ts_t") || NumberAfter(g, "ts_r") || NumberAfter(g, "ts_m")
    || NumberAfter(g, "ts_set") || NumberAfter(g, "ts_delete")
  }

  // g begins with p, a prefix of its own.
  lemma {:induction false} BeginsWith(g: string, p: string, w: string)
    requires HasPrefix(g, p) && p == TS + w
    ensures HasPrefix(g, TS) && HasPrefix(g[3..], w)
  {
    assert g[..3] == p[..3] == TS;
    assert g[3..][..|w|] == g[..|p|][3..] == w;
  }

  lemma {:induction false} NumberIs(g: string, p: string, w: string)
    requires NumberAfter(g, p) && p == TS + w
    ensures HasPrefix(g, TS) && |g| > 3 + |w| && HasPrefix(g[3..], w) && '0' <= g[3..][|w|] <= '9'
  {
    BeginsWith(g, p, w);
  }

  // As no reserved name, escaped name or prefixed name goes on after ts_.
  predicate Odd(w: string) {
    && w != "" && !Ordinary(w) && !(w[0] == 't' && |w| > 1 && w[1] == 's')
    && w[0] !in {'x', 'L', 'F', 'C'} && w != "blank"
  }

  lemma OddBeginning(w: string)
    requires HasPrefix(w, "acc_") || HasPrefix(w, "layout") || HasPrefix(w, "shape")
    ensures Odd(w)
  {
    if HasPrefix(w, "acc_") { assert w[..4][0] == 'a' && w[..4][1] == 'c'; }
    else if HasPrefix(w, "layout") { assert w[..6][0] == 'l' && w[..6][1] == 'a'; }
    else { assert w[..5][0] == 's' && w[..5][1] == 'h'; }
  }

  lemma OddNumber(w: string, p: string)
    requires p in {"k", "t", "r", "m", "set", "delete"} && NumberAfter(w, p)
    ensures Odd(w)
  {
    assert w[0] == p[0] && (|p| > 2 ==> w[1] == p[1] && w[2] == p[2]) by { assert w[..|p|] == p; }
  }

  lemma OddName(g: string)
    requires g in {"ts_read", "ts_domain", "ts_co", "ts_module", "ts_of", "ts_i", "ts_sites"}
    ensures HasPrefix(g, TS) && Odd(g[3..])
  {
    assert "ts_read"[..3] == "ts_" && "ts_domain"[..3] == "ts_" && "ts_co"[..3] == "ts_" && "ts_sites"[..3] == "ts_";
    assert "ts_module"[..3] == "ts_" && "ts_of"[..3] == "ts_" && "ts_i"[..3] == "ts_";
  }

  lemma {:induction false} OddPrefixed(g: string, p: string, w: string)
    requires HasPrefix(g, p) && p == TS + w && w in {"acc_", "layout", "shape"}
    ensures HasPrefix(g, TS) && Odd(g[3..])
  {
    hide Odd;
    BeginsWith(g, p, w);
    OddBeginning(g[3..]);
  }

  lemma {:induction false} OddNumbered(g: string, p: string, w: string)
    requires NumberAfter(g, p) && p == TS + w && w in {"k", "t", "r", "m", "set", "delete"}
    ensures HasPrefix(g, TS) && Odd(g[3..])
  {
    hide Odd;
    NumberIs(g, p, w);
    OddNumber(g[3..], w);
  }

  lemma {:induction false} GeneratedShape(g: string)
    requires Generated(g)
    ensures HasPrefix(g, TS) && Odd(g[3..])
  {
    hide Odd, NumberAfter, HasPrefix;
    if HasPrefix(g, "ts_acc_") { OddPrefixed(g, "ts_acc_", "acc_"); }
    else if HasPrefix(g, "ts_layout") { OddPrefixed(g, "ts_layout", "layout"); }
    else if HasPrefix(g, "ts_shape") { OddPrefixed(g, "ts_shape", "shape"); }
    else if NumberAfter(g, "ts_k") { OddNumbered(g, "ts_k", "k"); }
    else if NumberAfter(g, "ts_t") { OddNumbered(g, "ts_t", "t"); }
    else if NumberAfter(g, "ts_r") { OddNumbered(g, "ts_r", "r"); }
    else if NumberAfter(g, "ts_m") { OddNumbered(g, "ts_m", "m"); }
    else if NumberAfter(g, "ts_set") { OddNumbered(g, "ts_set", "set"); }
    else if NumberAfter(g, "ts_delete") { OddNumbered(g, "ts_delete", "delete"); }
    else { OddName(g); }
  }

  lemma {:induction false} NotGenerated(w: string)
    requires w != ""
    requires Ordinary(w) || (|w| > 1 && w[0] == 't' && w[1] == 's') || w[0] in {'x', 'L', 'F', 'C'} || w == "blank"
    ensures !Generated(TS + w)
  {
    hide Generated, Ordinary;
    PrefixReads(TS, w);
    assert (TS + w)[3] == w[0] && (|w| > 1 ==> (TS + w)[4] == w[1]);
    if Generated(TS + w) { GeneratedShape(TS + w); }
  }

  lemma {:induction false} GeneratedIsPrefixed(g: string)
    ensures Generated(g) ==> HasPrefix(g, TS)
  {
    hide Generated;
    if Generated(g) { GeneratedShape(g); }
  }

  lemma {:induction false} EscapedNotGenerated(u: Unicode, name: string)
    ensures !Generated(ESCAPED + Escape(u, name))
  {
    hide Generated, Escape;
    var w := "x_" + Escape(u, name);
    assert ESCAPED + Escape(u, name) == TS + w;
    NotGenerated(w);
  }

  lemma {:induction false} NotMangled(u: Unicode, name: string)
    ensures !Generated(Mangle(u, name))
  {
    hide Escape, Reserved, Ordinary, Generated, HasPrefix;
    if name == "" {
      GeneratedIsPrefixed("_");
      NoUnderscorePrefix();
    } else if !AllGo(u, name) {
      EscapedNotGenerated(u, name);
    } else if Reserved(name) {
      ReservedIsOrdinary(name);
      NotGenerated(name);
    } else if HasPrefix(name, TS) {
      TsNameReads(name);
      NotGenerated(name);
    } else if name == "_" {
      assert TS + "blank" == "ts_blank";
      NotGenerated("blank");
    } else {
      GeneratedIsPrefixed(name);
    }
  }

  lemma NoUnderscorePrefix()
    ensures !HasPrefix("_", TS)
  {
  }

  /** No program's name, and no property's, becomes one the emitter makes up. */
  lemma {:induction false} NeverGenerated(u: Unicode, name: string)
    requires AsciiRight(u)
    ensures !Generated(Mangle(u, name)) && !Generated(FieldName(u, name))
  {
    hide Escape, Generated, Ordinary, Mangle;
    NotMangled(u, name);
    EscapedNotGenerated(u, name);
    if name in OBJECT_METHODS { NotGenerated(name); }
  }
}
