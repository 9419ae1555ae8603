/**
  Where one string meets the next. No byte that begins a character is ever
  inside another, so a cut before one cuts the code units too; and the last
  three bytes are a half exactly when the last code unit is one.
*/
module Wtf8Seams {
  import opened Wtf8

  // Text that begins no character in the middle.
  predicate Starts(t: bytes) { t == [] || !Cont(t[0]) }

  lemma {:induction false} FirstAtSeam(a: bytes, t: bytes)
    requires a != [] && Starts(t)
    ensures First(a + t) == First(a)
  {
  }

  /** A cut before a byte that begins a character cuts the code units. */
  lemma {:induction false} UnitsAtSeam(a: bytes, t: bytes)
    requires Starts(t)
    ensures Units(a + t) == Units(a) + Units(t)
    decreases |a|
  {
    if a == [] {
      assert a + t == t;
    } else {
      FirstAtSeam(a, t);
      var k := First(a).size;
      assert (a + t)[k..] == a[k..] + t;
      UnitsAtSeam(a[k..], t);
    }
  }

  lemma {:induction false} UnitsOfEnc(r: rune)
    ensures Units(Enc(r)) == UnitsOf(r)
    ensures Starts(Enc(r))
  {
    EncodedIsRead(r, []);
    assert Enc(r) + [] == Enc(r);
    assert Units([]) == [];
  }

  // endsHigh and startsLow.
  predicate EndsHigh(s: bytes) {
    |s| >= 3 && IsHalf(s[|s| - 3], s[|s| - 2], s[|s| - 1]) && High(Half(s[|s| - 3], s[|s| - 2], s[|s| - 1]))
  }

  function LastHalf(s: bytes): rune
    requires EndsHigh(s)
  {
    Half(s[|s| - 3], s[|s| - 2], s[|s| - 1])
  }

  predicate StartsLow(s: bytes) { |s| >= 3 && IsHalf(s[0], s[1], s[2]) && Low(Half(s[0], s[1], s[2])) }

  lemma {:induction false} EndingHalf(s: bytes)
    requires EndsHigh(s)
    ensures s == s[..|s| - 3] + Enc(LastHalf(s))
    ensures Units(s) == Units(s[..|s| - 3]) + [LastHalf(s)]
  {
    var t := s[|s| - 3..];
    assert s == s[..|s| - 3] + t;
    ReadIsEncoded(t);
    assert t == Enc(LastHalf(s));
    UnitsAtSeam(s[..|s| - 3], t);
    UnitsOfEnc(LastHalf(s));
  }

  /** s ends in a high half's bytes exactly when its last code unit is one. */
  lemma {:induction false} EndsHighIsLast(s: bytes)
    ensures EndsHigh(s) <==> Units(s) != [] && High(Units(s)[|Units(s)| - 1])
    decreases |s|
  {
    if EndsHigh(s) {
      EndingHalf(s);
    } else if s != [] {
      var rest := s[First(s).size..];
      EndsHighIsLast(rest);
      if rest == [] { assert Units(s) == UnitsOf(First(s).r) + []; }
      else { UnitsNotEmpty(rest); }
    }
  }

  lemma {:induction false} UnitsNotEmpty(s: bytes)
    requires s != []
    ensures Units(s) != []
  {
  }

  /** s starts with a low half's bytes exactly when its first code unit is one. */
  lemma {:induction false} StartsLowIsFirst(s: bytes)
    ensures StartsLow(s) <==> Units(s) != [] && Low(Units(s)[0])
  {
    if s != [] { assert Units(s)[0] == UnitsOf(First(s).r)[0]; }
  }

  lemma {:induction false} UnitsNoLonger(s: bytes)
    ensures |Units(s)| <= |s|
    decreases |s|
  {
    if s != [] {
      UnitsNoLonger(s[First(s).size..]);
      assert First(s).size < 4 ==> First(s).r < 0x1_0000;
    }
  }

  lemma {:induction false} CanonicalStarts(s: bytes, high: bool)
    requires CanonicalAfter(s, high)
    ensures Starts(s)
  {
  }

  // Between two characters of s.
  predicate Boundary(s: bytes, i: nat)
    decreases |s|
  {
    i == 0 || (s != [] && First(s).size <= i && Boundary(s[First(s).size..], i - First(s).size))
  }

  lemma {:induction false} BoundaryIsInside(s: bytes, i: nat)
    requires Boundary(s, i)
    ensures i <= |s|
    decreases |s|
  {
    if i != 0 { BoundaryIsInside(s[First(s).size..], i - First(s).size); }
  }

  lemma {:induction false} FirstOfPrefix(s: bytes, i: nat)
    requires s != [] && First(s).size <= i <= |s|
    ensures First(s[..i]) == First(s)
  {
    var t := s[..i];
    assert forall k :: 0 <= k < i ==> t[k] == s[k];
  }

  /** A cut between characters cuts the code units, stray bytes or not. */
  lemma {:induction false} UnitsAtBoundary(s: bytes, i: nat)
    requires Boundary(s, i)
    ensures i <= |s| && Units(s) == Units(s[..i]) + Units(s[i..])
    decreases |s|
  {
    hide DecodeRune, First, UnitsOf;
    BoundaryIsInside(s, i);
    if i == 0 {
      assert s[..0] == [] && s[0..] == s;
    } else {
      var k := First(s).size;
      UnitsAtBoundary(s[k..], i - k);
      FirstOfPrefix(s, i);
      assert s[..i][k..] == s[k..][..i - k];
      assert s[k..][i - k..] == s[i..];
    }
  }

  lemma {:induction false} NextBoundary(s: bytes, i: nat)
    requires Boundary(s, i) && i < |s|
    ensures Boundary(s, i + First(s[i..]).size)
    decreases |s|
  {
    if i == 0 {
      assert s[0..] == s;
    } else {
      var k := First(s).size;
      assert s[k..][i - k..] == s[i..];
      NextBoundary(s[k..], i - k);
    }
  }

  lemma {:induction false} UnitsFromChar(s: bytes, i: nat)
    requires i < |s|
    ensures var c := First(s[i..]);
      i + c.size <= |s| && Units(s[i..]) == UnitsOf(c.r) + Units(s[i + c.size..])
  {
    hide First, UnitsOf;
    assert s[i..][First(s[i..]).size..] == s[i + First(s[i..]).size..];
  }

  lemma {:induction false} SameFront(all: units, a: units, b: units, t: units, front: units)
    requires all == a + (b + t) && all == front + t
    ensures front == a + b
  {
    assert front == all[..|front|] && a + b == all[..|a + b|];
  }

  lemma {:induction false} UnitsBetween(s: bytes, i: nat, j: nat, u: units)
    requires Boundary(s, i) && Boundary(s, j) && i <= j <= |s| && Units(s[i..]) == u + Units(s[j..])
    ensures Units(s[..j]) == Units(s[..i]) + u
  {
    hide First, Units, Boundary;
    UnitsAtBoundary(s, i);
    UnitsAtBoundary(s, j);
    SameFront(Units(s), Units(s[..i]), u, Units(s[j..]), Units(s[..j]));
  }

  /** One character on. */
  lemma {:induction false} CharAfter(s: bytes, i: nat, j: nat, c: Char)
    requires Boundary(s, i) && i < |s| && c == First(s[i..]) && j == i + c.size
    ensures Boundary(s, j) && j <= |s|
    ensures Units(s[..j]) == Units(s[..i]) + UnitsOf(c.r)
    ensures Units(s[i..]) == UnitsOf(c.r) + Units(s[j..])
  {
    hide First, Units, Boundary, UnitsOf;
    UnitsFromChar(s, i);
    NextBoundary(s, i);
    UnitsBetween(s, i, j, UnitsOf(c.r));
  }

  lemma {:induction false} SeamIsBoundary(a: bytes, t: bytes)
    requires Starts(t)
    ensures Boundary(a + t, |a|)
    decreases |a|
  {
    if a != [] {
      FirstAtSeam(a, t);
      var k := First(a).size;
      assert (a + t)[k..] == a[k..] + t;
      SeamIsBoundary(a[k..], t);
    }
  }

  lemma {:induction false} EndIsBoundary(s: bytes)
    ensures Boundary(s, |s|)
  {
    assert s + [] == s;
    SeamIsBoundary(s, []);
  }
}
