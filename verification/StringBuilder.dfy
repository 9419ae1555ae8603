/**
  The builder every string the runtime makes goes through (backend/runtime/
  str.go), and joining strings. The functions say what it writes; class
  StrBuilder appends in place.
*/
module StringBuilder {
  import opened Sequences
  import opened Wtf8
  import opened Wtf8Seams

  // strBuilder.unit: a low half joins a high one before it.
  function WithUnit(b: bytes, u: unit): bytes {
    if Low(u) && EndsHigh(b) then b[..|b| - 3] + Enc(Pair(LastHalf(b), u)) else b + Enc(u)
  }

  function WithUnits(b: bytes, us: units): bytes
    decreases |us|
  {
    if us == [] then b else WithUnits(WithUnit(b, us[0]), us[1..])
  }

  // strBuilder.str.
  function WithStr(b: bytes, s: bytes): bytes {
    if StartsLow(s) && EndsHigh(b) then b[..|b| - 3] + Enc(Pair(LastHalf(b), Half(s[0], s[1], s[2]))) + s[3..] else b + s
  }

  lemma {:induction false} PairOfHalves(r: rune)
    requires r >= 0x1_0000
    ensures High(HighOf(r)) && Low(LowOf(r)) && Pair(HighOf(r), LowOf(r)) == r
  {
  }

  lemma {:induction false} HalvesOfPair(high: rune, low: rune)
    requires High(high) && Low(low)
    ensures 0x1_0000 <= Pair(high, low) < 0x11_0000
    ensures HighOf(Pair(high, low)) == high && LowOf(Pair(high, low)) == low
  {
  }

  /** A unit appended is one unit more, whatever bytes it follows. */
  lemma {:induction false} UnitAppends(b: bytes, u: unit)
    ensures Units(WithUnit(b, u)) == Units(b) + [u]
  {
    if Low(u) && EndsHigh(b) {
      var r := Pair(LastHalf(b), u);
      HalvesOfPair(LastHalf(b), u);
      EndingHalf(b);
      UnitsOfEnc(r);
      UnitsAtSeam(b[..|b| - 3], Enc(r));
    } else {
      UnitsOfEnc(u);
      UnitsAtSeam(b, Enc(u));
    }
  }

  lemma {:induction false} UnitsAppend(b: bytes, us: units)
    ensures Units(WithUnits(b, us)) == Units(b) + us
    decreases |us|
  {
    if us != [] {
      UnitAppends(b, us[0]);
      UnitsAppend(WithUnit(b, us[0]), us[1..]);
    }
  }

  lemma {:induction false} WithUnitsAppend(b: bytes, us: units, vs: units)
    ensures WithUnits(b, us + vs) == WithUnits(WithUnits(b, us), vs)
    decreases |us|
  {
    if us == [] {
      assert us + vs == vs;
    } else {
      assert (us + vs)[1..] == us[1..] + vs;
      WithUnitsAppend(WithUnit(b, us[0]), us[1..], vs);
    }
  }

  // Canonical form.

  lemma {:induction false} CanonicalAtSeam(a: bytes, t: bytes, high: bool)
    requires Starts(t)
    ensures CanonicalAfter(a + t, high) <==> CanonicalAfter(a, high) && CanonicalAfter(t, if a == [] then high else EndsHigh(a))
    decreases |a|
  {
    hide First;
    if a == [] {
      assert a + t == t;
    } else {
      FirstAtSeam(a, t);
      var k := First(a).size;
      var rest := a[k..];
      assert (a + t)[k..] == rest + t;
      CanonicalAtSeam(rest, t, High(First(a).r));
      if rest == [] {
        EndsHighIsLast(a);
        assert Units(a) == UnitsOf(First(a).r) + [];
      } else {
        EndsHighIsLast(a);
        EndsHighIsLast(rest);
        UnitsNotEmpty(rest);
      }
    }
  }

  lemma {:induction false} CanonicalEnc(r: rune, high: bool)
    ensures CanonicalAfter(Enc(r), high) <==> !(high && Low(r))
    ensures EndsHigh(Enc(r)) <==> High(r)
  {
    EncodedIsRead(r, []);
    assert Enc(r) + [] == Enc(r);
    UnitsOfEnc(r);
    EndsHighIsLast(Enc(r));
  }

  lemma {:induction false} UnitKeepsCanonical(b: bytes, u: unit)
    requires Canonical(b)
    ensures Canonical(WithUnit(b, u))
  {
    if Low(u) && EndsHigh(b) {
      var before := b[..|b| - 3];
      var r := Pair(LastHalf(b), u);
      EndingHalf(b);
      UnitsOfEnc(LastHalf(b));
      UnitsOfEnc(r);
      CanonicalAtSeam(before, Enc(LastHalf(b)), false);
      CanonicalAtSeam(before, Enc(r), false);
      CanonicalEnc(r, if before == [] then false else EndsHigh(before));
    } else {
      UnitsOfEnc(u);
      CanonicalAtSeam(b, Enc(u), false);
      CanonicalEnc(u, if b == [] then false else EndsHigh(b));
    }
  }

  lemma {:induction false} UnitsKeepCanonical(b: bytes, us: units)
    requires Canonical(b)
    ensures Canonical(WithUnits(b, us))
    decreases |us|
  {
    if us != [] {
      UnitKeepsCanonical(b, us[0]);
      UnitsKeepCanonical(WithUnit(b, us[0]), us[1..]);
    }
  }

  lemma {:induction false} EncEndsHigh(b: bytes, r: rune)
    ensures EndsHigh(b + Enc(r)) <==> High(r)
  {
    UnitsOfEnc(r);
    UnitsAtSeam(b, Enc(r));
    EndsHighIsLast(b + Enc(r));
  }

  lemma {:induction false} CharRebuilds(b: bytes, r: rune)
    requires !(EndsHigh(b) && Low(r))
    ensures WithUnits(b, UnitsOf(r)) == b + Enc(r)
  {
    hide First, Units, CanonicalAfter;
    if r < 0x1_0000 {
      assert WithUnits(b, [r]) == WithUnits(WithUnit(b, r), []);
    } else {
      var h, l := HighOf(r), LowOf(r);
      PairOfHalves(r);
      var b' := b + Enc(h);
      assert WithUnit(b, h) == b';
      UnitsOfEnc(h);
      UnitsAtSeam(b, Enc(h));
      EndsHighIsLast(b');
      EndingHalf(b');
      assert LastHalf(b') == h;
      assert Enc(h) == b'[|b|..] && |Enc(h)| == 3;
      assert b'[..|b'| - 3] == b;
      assert [h, l][1..] == [l];
      assert WithUnits(b, [h, l]) == WithUnits(b', [l]) == WithUnits(WithUnit(b', l), []);
    }
  }

  lemma {:induction false} RebuildFirst(b: bytes, s: bytes)
    requires s != [] && CanonicalAfter(s, EndsHigh(b))
    ensures var r, rest := First(s).r, s[First(s).size..];
      && WithUnits(b, UnitsOf(r)) == b + Enc(r)
      && CanonicalAfter(rest, EndsHigh(b + Enc(r)))
      && (b + Enc(r)) + rest == b + s
      && Units(s) == UnitsOf(r) + Units(rest)
  {
    var r := First(s).r;
    ReadIsEncoded(s);
    CharRebuilds(b, r);
    EncEndsHigh(b, r);
  }

  /** Writing the code units of a canonical string writes the string. */
  lemma {:induction false} UnitsRebuild(b: bytes, s: bytes)
    requires CanonicalAfter(s, EndsHigh(b))
    ensures WithUnits(b, Units(s)) == b + s
    decreases |s|
  {
    if s == [] {
      assert b + s == b;
    } else {
      var r, rest := First(s).r, s[First(s).size..];
      RebuildFirst(b, s);
      UnitsRebuild(b + Enc(r), rest);
      WithUnitsAppend(b, UnitsOf(r), Units(rest));
    }
  }

  /** Canonical strings are the code unit sequences: each sequence is written
      as one, and each canonical string is the one its units are written as. */
  lemma {:induction false} Bijection(s: bytes, us: units)
    ensures Canonical(WithUnits([], us)) && Units(WithUnits([], us)) == us
    ensures Canonical(s) <==> WithUnits([], Units(s)) == s
  {
    UnitsKeepCanonical([], us);
    UnitsAppend([], us);
    UnitsKeepCanonical([], Units(s));
    assert [] + us == us && [] + s == s && Units([]) == [];
    if Canonical(s) { UnitsRebuild([], s); }
  }

  /** `===`: canonical strings with the same code units are the same bytes. */
  lemma {:induction false} SameUnitsSameBytes(s: bytes, t: bytes)
    requires Canonical(s) && Canonical(t)
    ensures s == t <==> Units(s) == Units(t)
  {
    Bijection(s, []);
    Bijection(t, []);
  }

  lemma {:induction false} StrIsItsUnits(b: bytes, s: bytes)
    requires Canonical(s)
    ensures WithStr(b, s) == WithUnits(b, Units(s))
  {
    StartsLowIsFirst(s);
    if StartsLow(s) && EndsHigh(b) {
      var low := Half(s[0], s[1], s[2]);
      var b' := WithUnit(b, low);
      ReadIsEncoded(s);
      UnitAppends(b, low);
      EndsHighIsLast(b');
      UnitsRebuild(b', s[3..]);
      assert Units(s) == [low] + Units(s[3..]);
    } else if s != [] {
      assert CanonicalAfter(s, EndsHigh(b));
      UnitsRebuild(b, s);
    }
  }

  // Joining strings.

  function UnitsOfAll(pieces: seq<bytes>): units {
    if pieces == [] then [] else Units(pieces[0]) + UnitsOfAll(pieces[1..])
  }

  function Flat(pieces: seq<bytes>): bytes {
    if pieces == [] then [] else pieces[0] + Flat(pieces[1..])
  }

  predicate AllCanonical(pieces: seq<bytes>) { forall i :: 0 <= i < |pieces| ==> Canonical(pieces[i]) }

  function WithAll(b: bytes, pieces: seq<bytes>): bytes
    decreases |pieces|
  {
    if pieces == [] then b else WithAll(WithStr(b, pieces[0]), pieces[1..])
  }

  // The items with sep between them.
  function Separated(items: seq<bytes>, sep: bytes): seq<bytes> {
    if |items| <= 1 then items else [items[0], sep] + Separated(items[1..], sep)
  }

  // Whether a high half meets a low one anywhere, with nothing between them.
  predicate Joins(pieces: seq<bytes>, high: bool)
    decreases |pieces|
  {
    pieces != [] &&
    if pieces[0] == [] then Joins(pieces[1..], high)
    else (high && StartsLow(pieces[0])) || Joins(pieces[1..], EndsHigh(pieces[0]))
  }

  lemma {:induction false} CopyJoins(b: bytes, pieces: seq<bytes>)
    requires pieces != [] && Canonical(pieces[0]) && !Joins(pieces, EndsHigh(b))
    ensures !Joins(pieces[1..], EndsHigh(b + pieces[0]))
  {
    if pieces[0] == [] { assert b + pieces[0] == b; } else { EndsLater(b, pieces[0]); }
  }

  lemma {:induction false} CopyFirst(b: bytes, pieces: seq<bytes>)
    requires pieces != [] && AllCanonical(pieces) && !Joins(pieces, EndsHigh(b))
    ensures WithStr(b, pieces[0]) == b + pieces[0]
    ensures AllCanonical(pieces[1..]) && !Joins(pieces[1..], EndsHigh(b + pieces[0]))
  {
    hide First, Units, CanonicalAfter;
    CopyJoins(b, pieces);
  }

  /** Where no seam joins, the builder only copies. */
  lemma {:induction false} NoSeamCopies(b: bytes, pieces: seq<bytes>)
    requires AllCanonical(pieces) && !Joins(pieces, EndsHigh(b))
    ensures WithAll(b, pieces) == b + Flat(pieces)
    decreases |pieces|
  {
    if pieces == [] {
      assert b + [] == b;
    } else {
      CopyFirst(b, pieces);
      NoSeamCopies(b + pieces[0], pieces[1..]);
      Assoc(b, pieces[0], Flat(pieces[1..]));
    }
  }

  lemma {:induction false} EndsLater(b: bytes, p: bytes)
    requires Canonical(p) && p != []
    ensures EndsHigh(b + p) <==> EndsHigh(p)
  {
    CanonicalStarts(p, false);
    UnitsAtSeam(b, p);
    EndsHighIsLast(b + p);
    EndsHighIsLast(p);
    UnitsNotEmpty(p);
  }

  /** What the builder makes of pieces is what their code units make. */
  lemma {:induction false} AllIsItsUnits(b: bytes, pieces: seq<bytes>)
    requires AllCanonical(pieces)
    ensures WithAll(b, pieces) == WithUnits(b, UnitsOfAll(pieces))
    decreases |pieces|
  {
    if pieces != [] {
      StrIsItsUnits(b, pieces[0]);
      AllIsItsUnits(WithStr(b, pieces[0]), pieces[1..]);
      WithUnitsAppend(b, Units(pieces[0]), UnitsOfAll(pieces[1..]));
    }
  }

  // joinStrings: the fast path copies, the other builds.
  function Join(pieces: seq<bytes>): bytes {
    if Joins(pieces, false) then WithAll([], pieces) else Flat(pieces)
  }

  /** Joining canonical strings gives the canonical string of their code units
      one after another, empty pieces and split pairs included. */
  lemma {:induction false} JoinJoinsUnits(pieces: seq<bytes>)
    requires AllCanonical(pieces)
    ensures Canonical(Join(pieces)) && Units(Join(pieces)) == UnitsOfAll(pieces)
    ensures Join(pieces) == WithAll([], pieces)
  {
    assert [] + Flat(pieces) == Flat(pieces);
    if !Joins(pieces, false) { NoSeamCopies([], pieces); }
    AllIsItsUnits([], pieces);
    Bijection([], UnitsOfAll(pieces));
  }
}
