/**
  The searches as the runtime makes them (backend/runtime/str_search.go,
  str_search_ascii.go): for an ASCII pattern on the bytes, for any other on the
  code units. Either way the answer is the one the code units give.
*/
module AsciiSearch {
  import opened Options
  import opened Wtf8
  import opened Wtf8Seams
  import opened StringBuilder
  import opened Strings
  import opened StringSearch

  function Offset(s: bytes, b: nat): nat
    requires b <= |s|
  {
    |Units(s[..b])|
  }

  // The first character of s starting at or after code unit u, or the end.
  ghost predicate FallsAt(s: bytes, u: int, b: nat) {
    && Boundary(s, b) && b <= |s|
    && (b < |s| ==> Offset(s, b) >= u)
    && AllBefore(s, u, b)
  }

  lemma {:induction false} NoneInside(s: bytes, b: nat, c: nat)
    requires Boundary(s, b) && b < |s| && b < c < b + First(s[b..]).size
    ensures !Boundary(s, c)
    decreases |s|
  {
    if b == 0 {
      assert s[0..] == s;
    } else {
      var k := First(s).size;
      BoundaryIsInside(s[k..], b - k);
      assert s[k..][b - k..] == s[b..];
      NoneInside(s[k..], b - k, c - k);
    }
  }

  lemma {:induction false} InOrder(s: bytes, b: nat, c: nat)
    requires Boundary(s, b) && Boundary(s, c) && b <= |s| && c <= |s|
    ensures b < c <==> Offset(s, b) < Offset(s, c)
  {
    if b < c { BoundariesInOrder(s, b, c); }
    if c < b { BoundariesInOrder(s, c, b); }
  }

  lemma {:induction false} OffsetAfter(s: bytes, b: nat, c: nat)
    requires Boundary(s, b) && b <= c <= |s|
    ensures Offset(s, c) == Offset(s, b) + |Units(s[b..c])|
  {
    hide First, Boundary, Units;
    CutBoundary(s, b, c);
    UnitsAtBoundary(s[..c], b);
    assert s[..c][..b] == s[..b] && s[..c][b..] == s[b..c];
  }

  lemma {:induction false} Ends(s: bytes)
    ensures Boundary(s, 0) && Offset(s, 0) == 0 && Boundary(s, |s|) && Offset(s, |s|) == |Units(s)|
  {
    EndIsBoundary(s);
    assert s[..0] == [] && s[..|s|] == s;
  }

  // Every boundary before b is before code unit u.
  ghost predicate AllBefore(s: bytes, u: int, b: nat) {
    forall c: nat :: c < b && c <= |s| && Boundary(s, c) ==> Offset(s, c) < u
  }

  lemma {:induction false} BeforeIsBefore(s: bytes, u: int, b: nat)
    requires Boundary(s, b) && b <= |s| && Offset(s, b) <= u
    ensures AllBefore(s, u, b)
  {
    hide First, Boundary, Units;
    forall c: nat | c < b && Boundary(s, c)
      ensures Offset(s, c) < u
    {
      InOrder(s, c, b);
    }
  }

  lemma {:induction false} AllBeforeNext(s: bytes, u: int, b: nat)
    requires Boundary(s, b) && b < |s| && Offset(s, b) < u && AllBefore(s, u, b)
    ensures AllBefore(s, u, b + First(s[b..]).size)
  {
    hide First, Boundary, Units;
    forall c: nat | c < b + First(s[b..]).size && c <= |s| && Boundary(s, c)
      ensures Offset(s, c) < u
    {
      if b < c { NoneInside(s, b, c); }
    }
  }

  lemma {:induction false} OffsetNext(s: bytes, b: nat, c: Char)
    requires Boundary(s, b) && b < |s| && c == First(s[b..])
    ensures Boundary(s, b + c.size) && b + c.size <= |s| && Offset(s, b + c.size) == Offset(s, b) + |UnitsOf(c.r)|
  {
    hide First, Boundary, Units;
    CharAfter(s, b, b + c.size, c);
  }

  lemma {:induction false} OffsetRun(s: bytes, b: nat, k: nat)
    requires Boundary(s, b) && b + k <= |s| && Ascii(s[b..b + k])
    ensures Boundary(s, b + k) && Offset(s, b + k) == Offset(s, b) + k
  {
    hide First, Boundary, Units;
    AsciiBoundary(s, b, k);
    AsciiRun(s, b, k);
    UnitsBetween(s, b, b + k, s[b..b + k]);
  }

  lemma {:induction false} SliceOfSlice(s: bytes, b: nat, end: nat, k: nat)
    requires b + k <= end <= |s|
    ensures s[b..end][..k] == s[b..b + k]
  {
  }

  /** unitOffset: where code unit u falls in s, and how many code units come
      before it. */
  method UnitOffset(s: bytes, u: nat) returns (b: nat, at: nat)
    ensures FallsAt(s, u, b) && at == Offset(s, b)
  {
    hide First, Boundary, Units;
    Ends(s);
    b, at := 0, 0;
    while b < |s| && at < u
      invariant Boundary(s, b) && b <= |s| && at == Offset(s, b) && AllBefore(s, u, b)
    {
      if s[b] < 0x80 {
        var end := if b + u - at < |s| then b + u - at else |s|;
        assert s[b..end][0] == s[b];
        var k := AsciiPrefix(s[b..end]);
        SliceOfSlice(s, b, end, k);
        OffsetRun(s, b, k);
        BeforeIsBefore(s, u, b + k);
        b, at := b + k, at + k;
      } else {
        var c := First(s[b..]);
        OffsetNext(s, b, c);
        AllBeforeNext(s, u, b);
        b, at := b + c.size, at + |UnitsOf(c.r)|;
      }
    }
  }

  // What byte matches and code unit matches have to do with each other.

  lemma {:induction false} MatchAt(s: bytes, w: bytes, b: nat)
    requires Pattern(w) && Occurs(s, w, b)
    ensures Occurs(Units(s), w, Offset(s, b)) && Boundary(s, b) && Boundary(s, b + |w|)
    ensures Offset(s, b + |w|) == Offset(s, b) + |w|
  {
    hide First, Boundary, Units;
    MatchIsABoundary(s, w, b);
    ByteMatch(s, w, b);
    OffsetRun(s, b, |w|);
  }

  lemma {:induction false} MatchOf(s: bytes, w: bytes, k: nat) returns (b: nat)
    requires Pattern(w) && Occurs(Units(s), w, k)
    ensures Occurs(s, w, b) && Offset(s, b) == k && Boundary(s, b) && Boundary(s, b + |w|)
    ensures Offset(s, b + |w|) == k + |w|
  {
    hide First, Boundary, Units;
    b := UnitMatch(s, w, k);
    MatchAt(s, w, b);
  }

  /** The first match in the bytes from where u falls is the first in the code
      units from u. */
  lemma {:induction false} FirstMatch(s: bytes, w: bytes, u: nat, b: nat, i: int)
    requires Pattern(w) && FallsAt(s, u, b) && IsFirst(s, w, b, i)
    ensures IsFirst(Units(s), w, u, if i < 0 then -1 else Offset(s, i))
  {
    hide First, Boundary, Units;
    forall k | k >= u && Occurs(Units(s), w, k)
      ensures i >= 0 && Offset(s, i) <= k
    {
      var c := MatchOf(s, w, k);
      assert c >= b;
      MatchAt(s, w, i);
      InOrder(s, c, i);
    }
    if i >= 0 {
      MatchAt(s, w, i);
      InOrder(s, i, b);
    }
  }

  lemma {:induction false} LaterIndex(s: bytes, w: bytes, b: nat, i: int)
    requires b <= |s| && IsFirst(s[b..], w, 0, i)
    ensures IsFirst(s, w, b, if i < 0 then -1 else b + i)
  {
    forall k | k >= b && Occurs(s, w, k)
      ensures Occurs(s[b..], w, k - b)
    {
      assert s[b..][k - b..k - b + |w|] == s[k..k + |w|];
    }
    if i >= 0 { OccursLater(s, w, b, i); }
  }

  lemma {:induction false} FoundAt(s: bytes, w: bytes, u: nat, b: nat, i: int)
    requires Pattern(w) && FallsAt(s, u, b) && IsFirst(s[b..], w, 0, i)
    ensures i >= 0 ==> b + i <= |s|
    ensures IsFirst(Units(s), w, u, if i < 0 then -1 else Offset(s, b) + |Units(s[b..b + i])|)
  {
    hide First, Boundary, Units;
    LaterIndex(s, w, b, i);
    FirstMatch(s, w, u, b, if i < 0 then -1 else b + i);
    if i >= 0 { OffsetAfter(s, b, b + i); }
  }

  /** indexASCII. */
  method IndexAscii(s: bytes, w: bytes, from: nat) returns (r: int)
    requires Pattern(w)
    ensures IsFirst(Units(s), w, from, r)
  {
    hide First, Boundary, Units;
    var b, at := UnitOffset(s, from);
    var i := Index(s[b..], w, 0);
    IndexIsFirst(s[b..], w, 0);
    FoundAt(s, w, from, b, i);
    if i < 0 { return -1; }
    var n := Utf16Len(s[b..b + i]);
    r := at + n;
  }

  ghost predicate OccursFrom(v: seq<int>, w: seq<int>, from: int) { exists k :: k >= from && Occurs(v, w, k) }

  lemma FirstIfAny(v: seq<int>, w: seq<int>, from: nat, r: int)
    requires IsFirst(v, w, from, r)
    ensures r >= 0 <==> OccursFrom(v, w, from)
  {
  }

  /** includesASCII. */
  method IncludesAscii(s: bytes, w: bytes, from: nat) returns (found: bool)
    requires Pattern(w)
    ensures found <==> OccursFrom(Units(s), w, from)
  {
    hide First, Boundary, Units;
    var b, at := UnitOffset(s, from);
    var i := Index(s[b..], w, 0);
    IndexIsFirst(s[b..], w, 0);
    FoundAt(s, w, from, b, i);
    found := i >= 0;
    FirstIfAny(Units(s), w, from, if i < 0 then -1 else Offset(s, b) + |Units(s[b..b + i])|);
  }

  /** The last match in the bytes ending in time is the last in the code units. */
  lemma {:induction false} LastMatch(s: bytes, w: bytes, start: nat, end: nat, i: int)
    requires Pattern(w) && end <= |s| && IsLast(s[..end], w, end, i)
    requires forall c: nat :: Occurs(s, w, c) ==> (c + |w| <= end <==> Offset(s, c) <= start)
    ensures IsLast(Units(s), w, start, if i < 0 then -1 else Offset(s, i))
  {
    hide First, Boundary, Units;
    forall k | k <= start && Occurs(Units(s), w, k)
      ensures i >= 0 && Occurs(s, w, i) && k <= Offset(s, i)
    {
      var c := MatchOf(s, w, k);
      assert s[..end][c..c + |w|] == s[c..c + |w|];
      assert Occurs(s[..end], w, c);
      assert s[..end][i..i + |w|] == s[i..i + |w|];
      MatchAt(s, w, i);
      InOrder(s, i, c);
    }
    if i >= 0 {
      assert s[..end][i..i + |w|] == s[i..i + |w|];
      assert Occurs(s, w, i);
      MatchAt(s, w, i);
    }
  }

  /** lastIndexASCII. */
  method LastIndexAscii(s: bytes, w: bytes, start: nat) returns (r: int)
    requires Pattern(w)
    ensures IsLast(Units(s), w, start, r)
  {
    hide First, Boundary, Units;
    var end := |s|;
    if start < |s| {
      var b, at := UnitOffset(s, start + 1);
      if b - 1 + |w| < end { end := b - 1 + |w|; }
      forall c: nat | Occurs(s, w, c)
        ensures c + |w| <= end <==> Offset(s, c) <= start
      {
        MatchAt(s, w, c);
        if c >= b { InOrder(s, c, b); }
      }
    } else {
      forall c: nat | Occurs(s, w, c)
        ensures Offset(s, c) <= start
      {
        UnitsNoLonger(s[..c]);
      }
    }
    var i := LastIndex(s[..end], w, end);
    LastIndexIsLast(s[..end], w, end);
    LastMatch(s, w, start, end, i);
    if i < 0 { return -1; }
    r := Utf16Len(s[..i]);
  }

  /** startsWithASCII. */
  method StartsWithAscii(s: bytes, w: bytes, start: nat) returns (starts: bool)
    requires Pattern(w)
    ensures starts <==> Occurs(Units(s), w, start)
  {
    hide First, Boundary, Units;
    var b, at := UnitOffset(s, start);
    starts := at == start && |w| <= |s[b..]| && s[b..][..|w|] == w;
    if starts {
      assert s[b..][..|w|] == s[b..b + |w|];
      MatchAt(s, w, b);
    }
    if Occurs(Units(s), w, start) {
      var c := MatchOf(s, w, start);
      if c > b { InOrder(s, b, c); }
      assert c == b;
      assert s[b..][..|w|] == s[b..b + |w|];
    }
  }

  predicate EndsIn(s: bytes, b: nat, w: bytes)
    requires b <= |s|
  {
    |w| <= b && s[b - |w|..b] == w
  }

  lemma {:induction false} LastByte(s: bytes, w: bytes, c: nat)
    requires Pattern(w) && Occurs(s, w, c)
    ensures var b := c + |w|; Boundary(s, b - 1) && Boundary(s, b) && Offset(s, b) == Offset(s, b - 1) + 1
  {
    hide First, Boundary, Units;
    var b := c + |w|;
    MatchIsABoundary(s, w, c);
    assert s[c..c + (|w| - 1)] == w[..|w| - 1];
    AsciiBoundary(s, c, |w| - 1);
    assert s[b - 1] == s[c..b][|w| - 1];
    OffsetRun(s, b - 1, 1);
  }

  lemma {:induction false} EndIsMatch(s: bytes, w: bytes, end: nat, b: nat)
    requires Pattern(w) && FallsAt(s, end, b) && end <= |Units(s)| && EndsIn(s, b, w)
    ensures Occurs(Units(s), w, end - |w|)
  {
    hide First, Boundary, Units;
    MatchAt(s, w, b - |w|);
    LastByte(s, w, b - |w|);
    EndOffset(s, b, end);
  }

  // At the end of s is past every code unit.
  lemma {:induction false} EndOffset(s: bytes, b: nat, end: nat)
    requires FallsAt(s, end, b) && end <= |Units(s)|
    ensures Offset(s, b) >= end
  {
    if b == |s| { assert s[..b] == s; }
  }

  lemma {:induction false} MatchIsEnd(s: bytes, w: bytes, end: nat, b: nat)
    requires Pattern(w) && FallsAt(s, end, b) && end <= |Units(s)| && Occurs(Units(s), w, end - |w|)
    ensures EndsIn(s, b, w)
  {
    hide First, Boundary, Units;
    var c := MatchOf(s, w, end - |w|);
    EndOffset(s, b, end);
    InOrder(s, b, c + |w|);
    assert c + |w| == b;
  }

  lemma {:induction false} PastTheEnd(s: bytes, end: nat)
    requires end >= |Units(s)|
    ensures FallsAt(s, |Units(s)|, |s|)
  {
    hide First, Boundary, Units;
    EndIsBoundary(s);
    assert s[..|s|] == s;
    BeforeIsBefore(s, |Units(s)|, |s|);
  }

  /** endsWithASCII. */
  method EndsWithAscii(s: bytes, w: bytes, end: nat) returns (ends: bool)
    requires Pattern(w)
    ensures ends <==> Occurs(Units(s), w, (if end < |Units(s)| then end else |Units(s)|) - |w|)
  {
    hide First, Boundary, Units;
    UnitsNoLonger(s);
    var b := |s|;
    if end < |s| {
      var at;
      b, at := UnitOffset(s, end);
    }
    ends := |w| <= |s[..b]| && s[..b][|s[..b]| - |w|..] == w;
    if |w| <= b { assert s[..b][b - |w|..] == s[b - |w|..b]; }
    ghost var e := if end < |Units(s)| then end else |Units(s)|;
    if end >= |Units(s)| {
      PastTheEnd(s, end);
      if end < |s| { SameEnd(s, end, b); }
    }
    if ends { EndIsMatch(s, w, e, b); }
    if Occurs(Units(s), w, e - |w|) { MatchIsEnd(s, w, e, b); }
  }

  lemma {:induction false} SameEnd(s: bytes, end: nat, b: nat)
    requires FallsAt(s, end, b) && end >= |Units(s)|
    ensures FallsAt(s, |Units(s)|, b)
  {
    hide First, Boundary, Units;
    EndIsBoundary(s);
    assert s[..|s|] == s;
    if b < |s| { InOrder(s, b, |s|); }
    PastTheEnd(s, end);
  }
}
