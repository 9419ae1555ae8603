/**
  String operations as the runtime does them (backend/runtime/str.go,
  json_string.go): loops over the bytes, each proved to give what the code
  units say.
*/
module Strings {
  import opened Floats
  import opened Options
  import opened Wtf8
  import opened Wtf8Seams
  import opened StringBuilder

  const STRING_LIMIT := 0x2000_0000 - 24

  predicate Ascii(s: bytes) { forall i :: 0 <= i < |s| ==> s[i] < 0x80 }

  lemma {:induction false} AsciiUnits(s: bytes, t: bytes)
    requires Ascii(s)
    ensures Units(s + t) == s + Units(t)
    decreases |s|
  {
    hide DecodeRune;
    if s == [] {
      assert s + t == t;
    } else {
      assert (s + t)[1..] == s[1..] + t;
      AsciiUnits(s[1..], t);
      assert Units(s + t) == [s[0]] + (s[1..] + Units(t));
    }
  }

  lemma {:induction false} AsciiRun(s: bytes, i: nat, k: nat)
    requires i + k <= |s| && Ascii(s[i..i + k])
    ensures Units(s[i..]) == s[i..i + k] + Units(s[i + k..])
  {
    hide First, Units;
    AsciiUnits(s[i..i + k], s[i + k..]);
    assert s[i..i + k] + s[i + k..] == s[i..];
  }

  lemma {:induction false} AsciiBoundary(s: bytes, i: nat, k: nat)
    requires Boundary(s, i) && i + k <= |s| && Ascii(s[i..i + k])
    ensures Boundary(s, i + k)
    decreases k
  {
    hide DecodeRune;
    if k > 0 {
      assert s[i..i + k][0] == s[i];
      assert s[i..i + k][1..] == s[i + 1..i + k];
      NextBoundary(s, i);
      AsciiBoundary(s, i + 1, k - 1);
    }
  }

  lemma {:induction false} AsciiChar(s: bytes, i: nat)
    requires i < |s| && s[i] < 0x80
    ensures First(s[i..]) == Char(s[i], 1)
  {
  }

  // The eight bytes from i, in one test.
  predicate WordIsAscii(s: bytes, i: nat)
    requires i + 8 <= |s|
  {
    && s[i] < 0x80 && s[i + 1] < 0x80 && s[i + 2] < 0x80 && s[i + 3] < 0x80
    && s[i + 4] < 0x80 && s[i + 5] < 0x80 && s[i + 6] < 0x80 && s[i + 7] < 0x80
  }

  /** asciiPrefix: how many bytes below 0x80 s starts with. */
  method AsciiPrefix(s: bytes) returns (i: nat)
    ensures i <= |s| && Ascii(s[..i]) && (i < |s| ==> s[i] >= 0x80)
  {
    i := 0;
    while i + 8 <= |s|
      invariant i <= |s| && Ascii(s[..i])
    {
      if !WordIsAscii(s, i) { break; }
      i := i + 8;
    }
    while i < |s| && s[i] < 0x80
      invariant i <= |s| && Ascii(s[..i])
    {
      i := i + 1;
    }
  }

  method IsAscii(s: bytes) returns (all: bool)
    ensures all <==> Ascii(s)
  {
    var i := AsciiPrefix(s);
    all := i == |s|;
    assert all ==> s[..i] == s;
  }

  lemma {:induction false} NothingLeft(s: bytes)
    ensures s[|s|..] == [] && Units(s[|s|..]) == [] && s[0..] == s && s[..0] == [] && Units(s[..0]) == []
  {
  }

  /** utf16Len: a string's length as JavaScript counts it. */
  method Utf16Len(s: bytes) returns (n: nat)
    ensures n == |Units(s)|
  {
    hide First, Units;
    NothingLeft(s);
    n := 0;
    var i := 0;
    while i < |s|
      invariant i <= |s| && n + |Units(s[i..])| == |Units(s)|
    {
      if s[i] < 0x80 {
        var k := AsciiPrefix(s[i..]);
        assert s[i..][..k] == s[i..i + k];
        assert k > 0;
        AsciiRun(s, i, k);
        i := i + k;
        n := n + k;
      } else {
        UnitsFromChar(s, i);
        var c := First(s[i..]);
        i := i + c.size;
        n := n + 1;
        if c.r >= 0x1_0000 { n := n + 1; }
      }
    }
  }

  lemma {:induction false} Advance(s: bytes, i: nat, done: units, c: Char, j: nat)
    requires i < |s| && c == First(s[i..]) && j == i + c.size && Units(s) == done + Units(s[i..])
    ensures j <= |s| && Units(s) == (done + UnitsOf(c.r)) + Units(s[j..])
  {
    hide First, Units, UnitsOf;
    UnitsFromChar(s, i);
  }

  method ToUnits(s: bytes) returns (u: units)
    ensures u == Units(s)
  {
    hide First, Units;
    NothingLeft(s);
    u := [];
    var i := 0;
    while i < |s|
      invariant i <= |s| && Units(s) == u + Units(s[i..])
    {
      var c := First(s[i..]);
      Advance(s, i, u, c, i + c.size);
      i := i + c.size;
      if c.r >= 0x1_0000 { u := u + [HighOf(c.r), LowOf(c.r)]; } else { u := u + [c.r]; }
    }
  }

  /** unitAt: the code unit at index i, if there is one. */
  method UnitAt(s: bytes, i: nat) returns (u: Option<unit>)
    ensures u == if i < |Units(s)| then Some(Units(s)[i]) else None
  {
    hide First, Units;
    NothingLeft(s);
    var n, j := 0, 0;
    ghost var done: units := [];
    while j < |s|
      invariant j <= |s| && n == |done| <= i && Units(s) == done + Units(s[j..])
    {
      var c := First(s[j..]);
      Advance(s, j, done, c, j + c.size);
      done := done + UnitsOf(c.r);
      if s[j] < 0x80 {
        AsciiChar(s, j);
        if n == i { return Some(s[j]); }
        j, n := j + 1, n + 1;
        continue;
      }
      j := j + c.size;
      if c.r >= 0x1_0000 {
        if n == i { return Some(HighOf(c.r)); }
        if n + 1 == i { return Some(LowOf(c.r)); }
        n := n + 2;
        continue;
      }
      if n == i { return Some(c.r); }
      n := n + 1;
    }
    u := None;
  }

  class StrBuilder {
    var b: bytes

    constructor ()
      ensures b == []
    {
      b := [];
    }

    method JoinLow(low: rune) returns (joined: bool)
      requires Low(low)
      modifies this
      ensures joined <==> EndsHigh(old(b))
      ensures b == if joined then old(b)[..|old(b)| - 3] + Enc(Pair(LastHalf(old(b)), low)) else old(b)
    {
      var n := |b|;
      if n < 3 { return false; }
      if !IsHalf(b[n - 3], b[n - 2], b[n - 1]) { return false; }
      var high := Half(b[n - 3], b[n - 2], b[n - 1]);
      if high >= 0xDC00 { return false; }
      b := b[..n - 3] + Enc(0x1_0000 + (high - 0xD800) * 0x400 + (low - 0xDC00));
      joined := true;
    }

    method Str(s: bytes)
      modifies this
      ensures b == WithStr(old(b), s)
    {
      var rest := s;
      if |s| >= 3 && IsHalf(s[0], s[1], s[2]) && Half(s[0], s[1], s[2]) >= 0xDC00 {
        var joined := JoinLow(Half(s[0], s[1], s[2]));
        if joined { rest := s[3..]; }
      }
      b := b + rest;
    }

    method Unit(u: unit)
      modifies this
      ensures b == WithUnit(old(b), u)
    {
      if u < 0x80 {
        b := b + [u];
      } else if 0xDC00 <= u <= 0xDFFF {
        var joined := JoinLow(u);
        if !joined { b := b + Enc(u); }
      } else {
        b := b + Enc(u);
      }
    }

    // sub, for the code units of a string that isn't ASCII.
    method Sub(us: units)
      modifies this
      ensures b == WithUnits(old(b), us)
    {
      for k := 0 to |us|
        invariant WithUnits(b, us[k..]) == WithUnits(old(b), us)
      {
        assert us[k..][0] == us[k] && us[k..][1..] == us[k + 1..];
        Unit(us[k]);
      }
      assert us[|us|..] == [];
    }
  }

  // jsStr.sub: an ASCII string is cut as it is, another rebuilt from its units.
  method Sub(s: bytes, from: nat, to: nat) returns (r: bytes)
    requires from <= to <= |Units(s)|
    ensures r == WithUnits([], Units(s)[from..to])
  {
    var ascii := IsAscii(s);
    if ascii {
      AsciiUnits(s, []);
      assert s + [] == s && Units(s) == s;
      r := s[from..to];
      AsciiUnits(r, []);
      assert r + [] == r;
      AsciiIsCanonical(r, false);
      Bijection(r, []);
    } else {
      var u := ToUnits(s);
      var b := new StrBuilder();
      b.Sub(u[from..to]);
      r := b.b;
    }
  }

  lemma {:induction false} AsciiIsCanonical(s: bytes, high: bool)
    requires Ascii(s)
    ensures CanonicalAfter(s, high)
    decreases |s|
  {
    if s != [] { AsciiIsCanonical(s[1..], false); }
  }

  // position: ToIntegerOrInfinity(pos) clamped to 0..n.
  function Position(pos: Float, n: nat): (i: nat)
    ensures i <= n
  {
    match pos
    case PosInf => n
    case Num(v) => if !(v > 0.0) then 0 else if v >= n as real then n else v.Floor
    case _ => 0
  }

  // relative: slice's index, where a negative one counts back from the end.
  function Relative(pos: Float, n: nat): (i: nat)
    ensures i <= n
  {
    if pos.Num? && Truncated(pos.v) < 0 then Position(Num((Truncated(pos.v) + n) as real), n) else Position(pos, n)
  }

  // ToIntegerOrInfinity, kept within -bound..bound (section 7.1.5 of ECMA-262).
  function ToInteger(pos: Float, bound: int): int {
    match pos
    case NaN => 0
    case NegInf => -bound
    case PosInf => bound
    case Num(v) => if Truncated(v) < -bound then -bound else if Truncated(v) > bound then bound else Truncated(v)
  }

  /** The two clamps of section 22.1.3 of ECMA-262. */
  lemma {:induction false} Clamps(pos: Float, n: nat)
    ensures var t := ToInteger(pos, n);
      && Position(pos, n) == (if t < 0 then 0 else t)
      && Relative(pos, n) == (if t < 0 then n + t else t)
  {
  }

  /** StrSlice: the canonical string of the code units from start to end. */
  method StrSlice(s: bytes, args: seq<Float>) returns (r: bytes)
    ensures var n := |Units(s)|;
      var from := if |args| > 0 then Relative(args[0], n) else 0;
      var to := if |args| > 1 then Relative(args[1], n) else n;
      Canonical(r) && Units(r) == if from >= to then [] else Units(s)[from..to]
  {
    var n := Utf16Len(s);
    var from, to := 0, n;
    if |args| > 0 { from := Relative(args[0], n); }
    if |args| > 1 { to := Relative(args[1], n); }
    if from >= to { return []; }
    r := Sub(s, from, to);
    Bijection(r, Units(s)[from..to]);
  }

  method StrSubstring(s: bytes, args: seq<Float>) returns (r: bytes)
    ensures var n := |Units(s)|;
      var a := if |args| > 0 then Position(args[0], n) else 0;
      var b := if |args| > 1 then Position(args[1], n) else n;
      Canonical(r) && Units(r) == if a <= b then Units(s)[a..b] else Units(s)[b..a]
  {
    var n := Utf16Len(s);
    var start, end := 0, n;
    if |args| > 0 { start := Position(args[0], n); }
    if |args| > 1 { end := Position(args[1], n); }
    var from, to := if start <= end then start else end, if start <= end then end else start;
    r := Sub(s, from, to);
    Bijection(r, Units(s)[from..to]);
  }

  // What has been passed of s, on the way to its first n code units.
  ghost predicate Passed(s: bytes, i: nat, count: nat) {
    Boundary(s, i) && i <= |s| && count == |Units(s[..i])| && Units(s) == Units(s[..i]) + Units(s[i..])
  }

  lemma {:induction false} PassChar(s: bytes, i: nat, count: nat, c: Char)
    requires Passed(s, i, count) && i < |s| && c == First(s[i..])
    ensures Passed(s, i + c.size, count + |UnitsOf(c.r)|)
  {
    hide First, Units, Boundary, UnitsOf;
    CharAfter(s, i, i + c.size, c);
    UnitsAtBoundary(s, i + c.size);
  }

  lemma {:induction false} CutHere(s: bytes, i: nat, count: nat)
    requires Passed(s, i, count)
    ensures count <= |Units(s)| && Units(s[..i]) == Units(s)[..count]
    ensures Canonical(s) ==> Canonical(s[..i])
  {
    hide First, Units, Boundary, CanonicalAfter;
    if Canonical(s) { CanonicalCut(s, i); }
  }

  lemma {:induction false} CutPair(s: bytes, i: nat, count: nat, high: rune)
    requires Passed(s, i, count) && i < |s| && First(s[i..]).r >= 0x1_0000 && high == HighOf(First(s[i..]).r)
    ensures count + 1 <= |Units(s)| && Units(s[..i] + Enc(high)) == Units(s)[..count + 1]
    ensures Canonical(s) ==> Canonical(s[..i] + Enc(high))
  {
    hide First, Units, Boundary, CanonicalAfter, Enc;
    UnitsFromChar(s, i);
    UnitsOfEnc(high);
    UnitsAtSeam(s[..i], Enc(high));
    assert Units(s)[..count + 1] == Units(s[..i]) + [high];
    if Canonical(s) {
      CanonicalCut(s, i);
      CanonicalAtSeam(s[..i], Enc(high), false);
      CanonicalEnc(high, if s[..i] == [] then false else EndsHigh(s[..i]));
    }
  }

  /** firstUnits: s.slice(0, n), without counting past the cut. */
  method FirstUnits(s: bytes, n: nat) returns (r: bytes)
    ensures Units(r) == if n <= |Units(s)| then Units(s)[..n] else Units(s)
    ensures Canonical(s) ==> Canonical(r)
  {
    hide First, Units, Boundary, CanonicalAfter, Enc;
    NothingLeft(s);
    var count, i := 0, 0;
    assert Passed(s, 0, 0) by { FirstPassed(s); }
    while i < |s|
      invariant Passed(s, i, count) && count <= n
    {
      if count == n {
        CutHere(s, i, count);
        return s[..i];
      }
      var c := First(s[i..]);
      PassChar(s, i, count, c);
      if c.r >= 0x1_0000 {
        if count == n - 1 {
          CutPair(s, i, count, HighOf(c.r));
          return s[..i] + Enc(HighOf(c.r));
        }
        count := count + 1;
      }
      count := count + 1;
      i := i + c.size;
    }
    assert s[..i] == s;
    r := s;
  }

  lemma {:induction false} FirstPassed(s: bytes)
    ensures Passed(s, 0, 0)
  {
    NothingLeft(s);
  }

  lemma {:induction false} CanonicalCut(s: bytes, i: nat)
    requires Canonical(s) && Boundary(s, i)
    ensures i <= |s| && Canonical(s[..i]) && Starts(s[i..])
  {
    CutKeepsCanonical(s, i, false);
  }

  lemma {:induction false} CutKeepsCanonical(s: bytes, i: nat, high: bool)
    requires CanonicalAfter(s, high) && Boundary(s, i)
    ensures i <= |s| && CanonicalAfter(s[..i], high) && Starts(s[i..])
    decreases |s|
  {
    BoundaryIsInside(s, i);
    if i == 0 {
      assert s[0..] == s;
    } else {
      var k := First(s).size;
      CutKeepsCanonical(s[k..], i - k, High(First(s).r));
      FirstOfPrefix(s, i);
      assert s[..i][k..] == s[k..][..i - k] && s[k..][i - k..] == s[i..];
    }
  }

  // Joining.

  method JoinsHalves(items: seq<bytes>, sep: bytes) returns (joins: bool)
    ensures joins <==> Joins(Separated(items, sep), false)
  {
    hide First, EndsHigh, StartsLow;
    var sepLow, sepHigh := StartsLow(sep), EndsHigh(sep);
    var high := false;
    for i := 0 to |items|
      invariant Joins(Separated(items, sep), false) <==>
        if i == 0 || i == |items| then Joins(Separated(items[i..], sep), high) else Joins([sep] + Separated(items[i..], sep), high)
    {
      var s := items[i];
      var rest := Separated(items[i..], sep);
      assert items[i..][0] == s && items[i..][1..] == items[i + 1..];
      if i > 0 { assert ([sep] + rest)[1..] == rest; }
      assert rest[0] == s && rest[1..] == if i + 1 == |items| then [] else [sep] + Separated(items[i + 1..], sep);
      if i > 0 && sep != [] {
        if high && sepLow { return true; }
        high := sepHigh;
      }
      if s != [] {
        if high && StartsLow(s) { return true; }
        high := EndsHigh(s);
      }
    }
    joins := false;
  }

  method JoinStrings(items: seq<bytes>, sep: bytes) returns (r: bytes)
    ensures r == Join(Separated(items, sep))
  {
    hide First, DecodeRune, EndsHigh, StartsLow, WithStr, Joins;
    var joins := JoinsHalves(items, sep);
    if !joins { return Flat(Separated(items, sep)); }
    var b := new StrBuilder();
    for i := 0 to |items|
      invariant WithAll([], Separated(items, sep)) == WithAll(b.b,
        if i == 0 || i == |items| then Separated(items[i..], sep) else [sep] + Separated(items[i..], sep))
    {
      var s := items[i];
      var rest := Separated(items[i..], sep);
      assert items[i..][0] == s && items[i..][1..] == items[i + 1..];
      if i > 0 { assert ([sep] + rest)[1..] == rest; }
      assert rest[0] == s && rest[1..] == if i + 1 == |items| then [] else [sep] + Separated(items[i + 1..], sep);
      if i > 0 { b.Str(sep); }
      b.Str(s);
    }
    r := b.b;
  }

  /** StrConcat: the pieces joined, or the RangeError past V8's limit. Of
      canonical strings it is the canonical string of their code units one
      after another. */
  method StrConcat(parts: seq<bytes>) returns (r: Option<bytes>)
    ensures r.None? <==> |parts| > 1 && |UnitsOfAll(parts)| > STRING_LIMIT
    ensures r.Some? ==> r.value == Join(parts)
    ensures r.Some? && AllCanonical(parts) ==> Canonical(r.value) && Units(r.value) == UnitsOfAll(parts)
  {
    hide First, EndsHigh, StartsLow;
    if AllCanonical(parts) { JoinJoinsUnits(parts); }
    if |parts| == 0 { return Some([]); }
    if |parts| == 1 {
      assert parts[1..] == [] && Flat(parts) == parts[0] + Flat([]) && !Joins([], false) && !Joins([], EndsHigh(parts[0]));
      return Some(parts[0]);
    }
    var total := 0;
    for k := 0 to |parts|
      invariant |UnitsOfAll(parts)| <= total + |UnitsOfAll(parts[k..])|
    {
      UnitsNoLonger(parts[k]);
      assert parts[k..][0] == parts[k] && parts[k..][1..] == parts[k + 1..];
      total := total + |parts[k]|;
    }
    if total > STRING_LIMIT {
      var count := 0;
      for k := 0 to |parts|
        invariant |UnitsOfAll(parts)| == count + |UnitsOfAll(parts[k..])|
      {
        assert parts[k..][0] == parts[k] && parts[k..][1..] == parts[k + 1..];
        var n := Utf16Len(parts[k]);
        count := count + n;
      }
      if count > STRING_LIMIT { return None; }
    }
    var joined := JoinStrings(parts, []);
    SeparatedByNothing(parts);
    r := Some(joined);
  }

  // Empty pieces change nothing.
  lemma {:induction false} SeparatedByNothing(parts: seq<bytes>)
    ensures Join(Separated(parts, [])) == Join(parts)
  {
    SameSeams(parts, false);
    SameFlat(parts);
    SameAll([], parts);
  }

  lemma {:induction false} TwoSeparated(parts: seq<bytes>)
    requires |parts| > 1
    ensures var all := Separated(parts, []);
      |all| > 1 && all[0] == parts[0] && all[1..][0] == [] && all[1..][1..] == Separated(parts[1..], [])
  {
  }

  lemma {:induction false} SameSeams(parts: seq<bytes>, high: bool)
    ensures Joins(Separated(parts, []), high) == Joins(parts, high)
    decreases |parts|
  {
    hide EndsHigh, StartsLow, Separated;
    if |parts| > 1 {
      TwoSeparated(parts);
      SameSeams(parts[1..], if parts[0] == [] then high else EndsHigh(parts[0]));
    } else {
      FewSeparated(parts);
    }
  }

  lemma FewSeparated(parts: seq<bytes>)
    requires |parts| <= 1
    ensures Separated(parts, []) == parts
  {
  }

  lemma {:induction false} SameFlat(parts: seq<bytes>)
    ensures Flat(Separated(parts, [])) == Flat(parts)
    decreases |parts|
  {
    hide Separated;
    if |parts| > 1 {
      TwoSeparated(parts);
      SameFlat(parts[1..]);
      assert Flat(Separated(parts, [])[1..]) == [] + Flat(Separated(parts[1..], []));
    } else {
      FewSeparated(parts);
    }
  }

  lemma {:induction false} SameAll(b: bytes, parts: seq<bytes>)
    ensures WithAll(b, Separated(parts, [])) == WithAll(b, parts)
    decreases |parts|
  {
    hide Separated, WithStr;
    if |parts| > 1 {
      TwoSeparated(parts);
      var b' := WithStr(b, parts[0]);
      NothingAdded(b');
      SameAll(b', parts[1..]);
      assert WithAll(b', Separated(parts, [])[1..]) == WithAll(WithStr(b', []), Separated(parts[1..], []));
    } else {
      FewSeparated(parts);
    }
  }

  lemma NothingAdded(b: bytes)
    ensures WithStr(b, []) == b
  {
    assert b + [] == b;
  }
}
