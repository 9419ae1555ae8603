/**
  indexOf, includes, lastIndexOf, startsWith, endsWith and split
  (backend/runtime/str_search.go, str_search_ascii.go): for any string and any
  search string, whichever way the runtime takes, the answer is section 22.1.3
  of ECMA-262's on the code units.
*/
module StringMethods {
  import opened Floats
  import opened Options
  import opened Sequences
  import opened Wtf8
  import opened Wtf8Seams
  import opened StringBuilder
  import opened Strings
  import opened StringSearch
  import opened AsciiSearch
  import opened Matches

  function Min(a: int, b: int): int { if a < b then a else b }

  /** Clamping to the bytes and then to the code units is clamping to these. */
  lemma ClampedTwice(pos: Float, units: nat, bytes: nat)
    requires units <= bytes
    ensures Position(pos, units) == Min(Position(pos, bytes), units)
  {
  }

  function Start(pos: seq<Float>, n: nat): (i: nat)
    ensures i <= n
  {
    if pos == [] then 0 else Position(pos[0], n)
  }

  function End(pos: seq<Float>, n: nat): (i: nat)
    ensures i <= n
  {
    if pos == [] then n else Position(pos[0], n)
  }

  function LastStart(pos: seq<Float>, n: nat): (i: nat)
    ensures i <= n
  {
    if pos == [] || pos[0].NaN? then n else Position(pos[0], n)
  }

  lemma AsciiIsItsUnits(w: bytes)
    requires Ascii(w)
    ensures Units(w) == w
  {
    AsciiUnits(w, []);
    assert w + [] == w;
  }

  method StrIndexOf(s: bytes, search: bytes, pos: seq<Float>) returns (r: int)
    ensures IsFirst(Units(s), Units(search), if pos == [] then 0 else Position(pos[0], |Units(s)|), r)
  {
    UnitsNoLonger(s);
    var ascii := IsAscii(search);
    if search != [] && ascii {
      AsciiIsItsUnits(search);
      if pos != [] { ClampedTwice(pos[0], |Units(s)|, |s|); }
      r := IndexAscii(s, search, Start(pos, |s|));
    } else {
      var v := ToUnits(s);
      var w := ToUnits(search);
      r := IndexOf(v, w, Start(pos, |v|));
    }
  }

  method StrIncludes(s: bytes, search: bytes, pos: seq<Float>) returns (found: bool)
    ensures found <==> OccursFrom(Units(s), Units(search), if pos == [] then 0 else Position(pos[0], |Units(s)|))
  {
    UnitsNoLonger(s);
    var ascii := IsAscii(search);
    if search != [] && ascii {
      AsciiIsItsUnits(search);
      if pos != [] { ClampedTwice(pos[0], |Units(s)|, |s|); }
      found := IncludesAscii(s, search, Start(pos, |s|));
      SameFrom(Units(s), search, Start(pos, |Units(s)|), Start(pos, |s|));
    } else {
      var i := StrIndexOf(s, search, pos);
      FirstIfAny(Units(s), Units(search), Start(pos, |Units(s)|), i);
      found := i >= 0;
    }
  }

  // Past the end there is nothing to find.
  lemma SameFrom(v: seq<int>, w: seq<int>, a: nat, b: nat)
    requires w != [] && (a == b || (a == |v| && b >= |v|))
    ensures OccursFrom(v, w, a) <==> OccursFrom(v, w, b)
  {
  }

  method StrLastIndexOf(s: bytes, search: bytes, pos: seq<Float>) returns (r: int)
    ensures IsLast(Units(s), Units(search), if pos == [] || pos[0].NaN? then |Units(s)| else Position(pos[0], |Units(s)|), r)
  {
    UnitsNoLonger(s);
    var ascii := IsAscii(search);
    if search != [] && ascii {
      AsciiIsItsUnits(search);
      if pos != [] { ClampedTwice(pos[0], |Units(s)|, |s|); }
      r := LastIndexAscii(s, search, LastStart(pos, |s|));
    } else {
      var v := ToUnits(s);
      var w := ToUnits(search);
      r := LastIndexOf(v, w, LastStart(pos, |v|));
    }
  }

  method StrStartsWith(s: bytes, search: bytes, pos: seq<Float>) returns (starts: bool)
    ensures starts <==> Occurs(Units(s), Units(search), if pos == [] then 0 else Position(pos[0], |Units(s)|))
  {
    UnitsNoLonger(s);
    var ascii := IsAscii(search);
    if search != [] && ascii {
      AsciiIsItsUnits(search);
      if pos != [] { ClampedTwice(pos[0], |Units(s)|, |s|); }
      starts := StartsWithAscii(s, search, Start(pos, |s|));
    } else {
      var v := ToUnits(s);
      var w := ToUnits(search);
      var start := Start(pos, |v|);
      starts := false;
      if start + |w| <= |v| { starts := EqualAt(v, w, start); }
    }
  }

  method StrEndsWith(s: bytes, search: bytes, end: seq<Float>) returns (ends: bool)
    ensures var n := |Units(s)|;
      ends <==> Occurs(Units(s), Units(search), (if end == [] then n else Position(end[0], n)) - |Units(search)|)
  {
    UnitsNoLonger(s);
    var ascii := IsAscii(search);
    if search != [] && ascii {
      AsciiIsItsUnits(search);
      if end != [] { ClampedTwice(end[0], |Units(s)|, |s|); }
      ends := EndsWithAscii(s, search, End(end, |s|));
    } else {
      var v := ToUnits(s);
      var w := ToUnits(search);
      var start := End(end, |v|) - |w|;
      ends := false;
      if start >= 0 { ends := EqualAt(v, w, start); }
    }
  }

  /** canonical. */
  method IsCanonical(s: bytes) returns (canonical: bool)
    ensures canonical <==> Canonical(s)
  {
    hide First;
    var high, i := false, 0;
    assert s[0..] == s;
    while i < |s|
      invariant i <= |s| && (Canonical(s) <==> CanonicalAfter(s[i..], high))
    {
      if s[i] < 0x80 {
        var k := AsciiPrefix(s[i..]);
        assert s[i..][..k] == s[i..i + k] && k > 0;
        AsciiThenCanonical(s[i..], k, high);
        assert s[i..][k..] == s[i + k..];
        i := i + k;
        high := false;
        continue;
      }
      var c := First(s[i..]);
      if (c.r == RUNE_ERROR && c.size == 1) || (high && Low(c.r)) { return false; }
      high := High(c.r);
      assert s[i..][c.size..] == s[i + c.size..];
      i := i + c.size;
    }
    canonical := true;
  }

  lemma {:induction false} AsciiThenCanonical(s: bytes, k: nat, high: bool)
    requires 0 < k <= |s| && Ascii(s[..k])
    ensures CanonicalAfter(s, high) <==> CanonicalAfter(s[k..], false)
    decreases k
  {
    assert s[0] == s[..k][0];
    if k > 1 {
      assert s[1..][..k - 1] == s[..k][1..] && s[1..][k - 1..] == s[k..];
      AsciiThenCanonical(s[1..], k - 1, false);
    }
  }

  // split.

  // The matches none of which overlap, from from on. An empty w matches
  // before every code unit, and at the end.
  function Cuts(v: seq<int>, w: seq<int>, from: nat): seq<nat>
    decreases |v| - from
  {
    var i := Index(v, w, from);
    if i < 0 then [] else [i] + Cuts(v, w, i + Step(w))
  }

  predicate AreMatches(v: seq<int>, w: seq<int>, from: nat, at: seq<nat>) {
    && (forall k :: 0 <= k < |at| ==> from <= at[k] && Occurs(v, w, at[k]))
    && (forall j, k :: 0 <= j < k < |at| ==> at[j] + Step(w) <= at[k])
  }

  lemma OneMoreMatch(v: seq<int>, w: seq<int>, from: nat, i: nat, rest: seq<nat>)
    requires from <= i && Occurs(v, w, i) && AreMatches(v, w, i + Step(w), rest)
    ensures AreMatches(v, w, from, [i] + rest)
  {
  }

  lemma {:induction false} CutsAreMatches(v: seq<int>, w: seq<int>, from: nat)
    ensures AreMatches(v, w, from, Cuts(v, w, from))
    decreases |v| - from
  {
    var i := Index(v, w, from);
    if i >= 0 {
      IndexIsFirst(v, w, from);
      CutsAreMatches(v, w, i + Step(w));
      OneMoreMatch(v, w, from, i, Cuts(v, w, i + Step(w)));
    }
  }

  function Step(w: seq<int>): nat { if w == [] then 1 else |w| }

  // Cuts are all the matches.

  ghost predicate MatchesFrom(v: seq<int>, w: seq<int>, at: seq<nat>, from: nat) {
    && AreMatches(v, w, from, at)
    && forall i :: from <= i && HoldsAt(v, w, i) ==> Covered(at, |w|, i)
  }

  lemma OccursIsHolds(v: seq<int>, w: seq<int>, i: nat)
    ensures Occurs(v, w, i) <==> HoldsAt(v, w, i)
  {
  }

  lemma MoreCovered(i: nat, rest: seq<nat>, m: nat, x: int)
    ensures Covered([i] + rest, m, x) <==> x == i || i < x < i + m || Covered(rest, m, x)
  {
    var at := [i] + rest;
    assert at[0] == i;
    if Covered(rest, m, x) {
      var k :| 0 <= k < |rest| && (x == rest[k] || rest[k] < x < rest[k] + m);
      assert at[k + 1] == rest[k];
    }
    if Covered(at, m, x) {
      var k :| 0 <= k < |at| && (x == at[k] || at[k] < x < at[k] + m);
      if k > 0 { assert rest[k - 1] == at[k]; }
    }
  }

  lemma {:induction false} CutsMatchAll(v: seq<int>, w: seq<int>, from: nat)
    ensures MatchesFrom(v, w, Cuts(v, w, from), from)
    decreases |v| - from
  {
    var i := Index(v, w, from);
    CutsAreMatches(v, w, from);
    IndexIsFirst(v, w, from);
    if i >= 0 { CutsMatchAll(v, w, i + Step(w)); }
    forall x | from <= x && HoldsAt(v, w, x)
      ensures Covered(Cuts(v, w, from), |w|, x)
    {
      OccursIsHolds(v, w, x);
      MoreCovered(i, Cuts(v, w, i + Step(w)), |w|, x);
    }
  }

  lemma {:induction false} MatchesAreCuts(v: seq<int>, w: seq<int>, at: seq<nat>, from: nat)
    requires MatchesFrom(v, w, at, from)
    ensures at == Cuts(v, w, from)
    decreases |v| - from
  {
    hide Index, Cuts, Occurs, HoldsAt;
    var i := Index(v, w, from);
    CutsFrom(v, w, from, i);
    IndexIsFirst(v, w, from);
    assert at != [] ==> Occurs(v, w, at[0]);
    if i >= 0 {
      OccursIsHolds(v, w, i);
      assert Covered(at, |w|, i);
      var rest := at[1..];
      assert at == [i] + rest;
      forall x | i + Step(w) <= x && HoldsAt(v, w, x)
        ensures Covered(rest, |w|, x)
      {
        assert Covered(at, |w|, x);
        MoreCovered(i, rest, |w|, x);
      }
      MatchesAreCuts(v, w, rest, i + Step(w));
    }
  }

  /** The cuts are all the matches, and nothing else is. */
  lemma CutsAreAllMatches(v: seq<int>, w: seq<int>, at: seq<nat>)
    ensures AllMatches(v, w, at) <==> at == Cuts(v, w, 0)
    ensures AllMatches(v, w, at) ==> Fit(|v|, at, |w|, 0)
  {
    CutsMatchAll(v, w, 0);
    forall i: int | HoldsAt(v, w, i) ensures 0 <= i && Occurs(v, w, i) { OccursIsHolds(v, w, i); }
    if AllMatches(v, w, at) {
      assert AreMatches(v, w, 0, at);
      MatchesAreCuts(v, w, at, 0);
      AllMatchesFit(v, w, at, 0);
    }
    if at == Cuts(v, w, 0) {
      forall k | 0 <= k < |at| ensures HoldsAt(v, w, at[k]) { OccursIsHolds(v, w, at[k]); }
    }
  }

  lemma {:induction false} BoundaryFalls(s: bytes, b: nat)
    requires Boundary(s, b) && b <= |s|
    ensures FallsAt(s, Offset(s, b), b)
  {
    BeforeIsBefore(s, Offset(s, b), b);
  }

  // A place beside an ASCII byte, or an end: between characters, always.
  predicate Edge(s: bytes, b: nat) {
    b <= |s| && (b == 0 || b == |s| || s[b - 1] < 0x80 || s[b] < 0x80)
  }

  lemma EdgeIsWithin(s: bytes, x: nat)
    requires Edge(s, x)
    ensures x <= |s|
  {
  }

  lemma {:induction false} EdgeIsBoundary(s: bytes, b: nat)
    requires Edge(s, b)
    ensures Boundary(s, b)
  {
    if b == |s| {
      EndIsBoundary(s);
    } else if s[b] < 0x80 {
      assert s == s[..b] + s[b..];
      SeamIsBoundary(s[..b], s[b..]);
    } else if b > 0 {
      assert s == s[..b - 1] + s[b - 1..];
      SeamIsBoundary(s[..b - 1], s[b - 1..]);
      NextBoundary(s, b - 1);
    }
  }

  lemma {:induction false} MatchHasEdges(s: bytes, w: bytes, b: nat)
    requires Pattern(w) && Occurs(s, w, b)
    ensures Edge(s, b) && Edge(s, b + |w|)
  {
    assert s[b..b + |w|][0] == s[b] && s[b..b + |w|][|w| - 1] == s[b + |w| - 1];
  }

  lemma {:induction false} SameIndex(s: bytes, w: bytes, from: nat)
    requires Pattern(w) && Edge(s, from)
    ensures Index(Units(s), w, Offset(s, from)) == var i := Index(s, w, from); if i < 0 then -1 else Offset(s, i)
  {
    hide First, Boundary, Units, CanonicalAfter;
    var i := Index(s, w, from);
    EdgeIsBoundary(s, from);
    BoundaryFalls(s, from);
    IndexIsFirst(s, w, from);
    FirstMatch(s, w, Offset(s, from), from, i);
    FirstIsIndex(Units(s), w, Offset(s, from), if i < 0 then -1 else Offset(s, i));
  }

  lemma {:induction false} IndexEdges(s: bytes, w: bytes, from: nat, i: nat)
    requires Pattern(w) && i == Index(s, w, from)
    ensures Edge(s, i) && Edge(s, i + |w|) && Offset(s, i + |w|) == Offset(s, i) + |w|
  {
    hide First, Boundary, Units, CanonicalAfter;
    IndexIsFirst(s, w, from);
    MatchAt(s, w, i);
    MatchHasEdges(s, w, i);
  }

  lemma CutsFrom(v: seq<int>, w: seq<int>, from: nat, i: int)
    requires i == Index(v, w, from)
    ensures Cuts(v, w, from) == if i < 0 then [] else [i] + Cuts(v, w, i + Step(w))
  {
  }

  function Map(f: nat -> nat, at: seq<nat>): (to: seq<nat>)
    ensures |to| == |at| && forall k :: 0 <= k < |at| ==> to[k] == f(at[k])
  {
    if at == [] then [] else [f(at[0])] + Map(f, at[1..])
  }

  // From a good place b of s, the next match is where f says it is in u, and
  // its end is a good place.
  predicate InStep(s: seq<int>, u: seq<int>, w: seq<int>, f: nat -> nat, good: nat -> bool, b: nat) {
    good(b) ==>
      var i, j := Index(s, w, b), Index(u, w, f(b));
      if i < 0 then j < 0 else j == f(i) && good(i + |w|) && f(i + |w|) == j + |w|
  }

  lemma {:induction false} CutsInStep(s: seq<int>, u: seq<int>, w: seq<int>, f: nat -> nat, good: nat -> bool, from: nat)
    requires w != [] && good(from) && forall b: nat :: InStep(s, u, w, f, good, b)
    ensures Cuts(u, w, f(from)) == Map(f, Cuts(s, w, from))
    decreases |s| - from
  {
    hide Index, Cuts;
    var i := Index(s, w, from);
    assert InStep(s, u, w, f, good, from);
    CutsFrom(s, w, from, i);
    CutsFrom(u, w, f(from), Index(u, w, f(from)));
    if i >= 0 {
      CutsInStep(s, u, w, f, good, i + |w|);
      assert ([i] + Cuts(s, w, i + |w|))[1..] == Cuts(s, w, i + |w|);
    }
  }

  function OffsetIn(s: bytes): nat -> nat { (b: nat) => if b <= |s| then Offset(s, b) else 0 }

  function EdgeOf(s: bytes): nat -> bool { (b: nat) => Edge(s, b) }

  lemma {:induction false} StepsTogether(s: bytes, w: bytes, b: nat)
    requires Pattern(w)
    ensures InStep(s, Units(s), w, OffsetIn(s), EdgeOf(s), b)
  {
    hide First, Boundary, Units, CanonicalAfter;
    if Edge(s, b) {
      var i := Index(s, w, b);
      SameIndex(s, w, b);
      if i >= 0 { IndexEdges(s, w, b, i); }
    }
  }

  /** The matches in the bytes, as code units, are the matches in those. */
  lemma {:induction false} SameCuts(s: bytes, w: bytes)
    requires Pattern(w)
    ensures Cuts(Units(s), w, 0) == Map(OffsetIn(s), Cuts(s, w, 0))
  {
    hide First, Boundary, Units, CanonicalAfter;
    forall b: nat
      ensures InStep(s, Units(s), w, OffsetIn(s), EdgeOf(s), b)
    {
      StepsTogether(s, w, b);
    }
    Ends(s);
    CutsInStep(s, Units(s), w, OffsetIn(s), EdgeOf(s), 0);
  }

  /** A piece of s between characters is its code units. */
  lemma {:induction false} Piece(s: bytes, from: nat, to: nat)
    requires Boundary(s, from) && Boundary(s, to) && from <= to <= |s|
    ensures Offset(s, from) <= Offset(s, to) <= |Units(s)|
    ensures Units(s[from..to]) == Units(s)[Offset(s, from)..Offset(s, to)]
  {
    hide First, Boundary, CanonicalAfter;
    CutBoundary(s, from, to);
    UnitsAtBoundary(s[..to], from);
    assert s[..to][..from] == s[..from] && s[..to][from..] == s[from..to];
    UnitsAtBoundary(s, to);
  }

  lemma {:induction false} CanonicalPiece(s: bytes, from: nat, to: nat)
    requires Canonical(s) && Boundary(s, from) && Boundary(s, to) && from <= to <= |s|
    ensures Canonical(s[from..to])
  {
    hide First, Boundary, Units;
    CanonicalCut(s, to);
    CanonicalCut(s, from);
    var piece := s[from..to];
    assert s[..to] == s[..from] + piece;
    assert piece != [] ==> piece[0] == s[from..][0];
    CanonicalAtSeam(s[..from], piece, false);
  }

  // The canonical string of some code units.
  function Spell(v: units): bytes { WithUnits([], v) }

  lemma SpellMeans(v: units)
    ensures Canonical(Spell(v)) && Units(Spell(v)) == v
  {
    Bijection([], v);
  }

  lemma {:induction false} PieceIsSpelt(s: bytes, from: nat, to: nat)
    requires Canonical(s) && Edge(s, from) && Edge(s, to) && from <= to <= |s|
    ensures Offset(s, from) <= Offset(s, to) <= |Units(s)|
    ensures s[from..to] == Spell(Units(s)[Offset(s, from)..Offset(s, to)])
  {
    hide First, Boundary, Units, CanonicalAfter;
    EdgeIsBoundary(s, from);
    EdgeIsBoundary(s, to);
    Piece(s, from, to);
    CanonicalPiece(s, from, to);
    Bijection(s[from..to], []);
  }

  lemma {:induction false} LastIsSpelt(s: bytes, from: nat)
    requires Canonical(s) && Edge(s, from)
    ensures Offset(s, from) <= |Units(s)| && s[from..] == Spell(Units(s)[Offset(s, from)..])
  {
    hide First, Boundary, Units, CanonicalAfter;
    PieceIsSpelt(s, from, |s|);
    assert s[..|s|] == s && s[from..] == s[from..|s|];
    assert Units(s)[Offset(s, from)..] == Units(s)[Offset(s, from)..|Units(s)|];
  }

  function SpellAll(pieces: seq<units>): (parts: seq<bytes>)
    ensures |parts| == |pieces| && forall k :: 0 <= k < |pieces| ==> parts[k] == Spell(pieces[k])
  {
    seq(|pieces|, k requires 0 <= k < |pieces| => Spell(pieces[k]))
  }

  // The pieces of v from `from` on.
  function Pieces(v: units, w: units, from: nat): (pieces: seq<units>)
    requires w != [] && from <= |v|
    ensures |pieces| >= 1
    decreases |v| - from
  {
    var i := Index(v, w, from);
    if i < 0 then [v[from..]] else [v[from..i]] + Pieces(v, w, i + |w|)
  }

  /** The pieces are what lies between all the matches. */
  lemma {:induction false} PiecesAreBetween(v: units, w: units, at: seq<nat>)
    requires w != [] && AllMatches(v, w, at)
    ensures Fit(|v|, at, |w|, 0) && Pieces(v, w, 0) == Between(v, at, |w|, 0)
  {
    CutsAreAllMatches(v, w, at);
    PiecesFollowCuts(v, w, 0);
  }

  lemma {:induction false} PiecesFollowCuts(v: units, w: units, from: nat)
    requires w != [] && from <= |v|
    ensures Fit(|v|, Cuts(v, w, from), |w|, from) && Pieces(v, w, from) == Between(v, Cuts(v, w, from), |w|, from)
    decreases |v| - from
  {
    hide Index, Cuts;
    var i := Index(v, w, from);
    CutsFrom(v, w, from, i);
    if i >= 0 {
      PiecesFollowCuts(v, w, i + |w|);
      assert Cuts(v, w, from)[1..] == Cuts(v, w, i + |w|);
    }
  }

  // At most lim of the pieces.
  function Limited(pieces: seq<units>, lim: nat): seq<units> { if |pieces| <= lim then pieces else pieces[..lim] }

  // The same, as a loop finds them.
  function Found(v: units, w: units, from: nat, done: seq<units>, lim: nat): seq<units>
    requires w != [] && from <= |v|
    decreases |v| - from
  {
    var i := Index(v, w, from);
    if i < 0 then done + [v[from..]]
    else if |done| + 1 == lim then done + [v[from..i]]
    else Found(v, w, i + |w|, done + [v[from..i]], lim)
  }

  lemma LimitPast(a: seq<units>, b: seq<units>, lim: nat)
    requires |a| == lim
    ensures Limited(a + b, lim) == a
  {
  }

  lemma {:induction false} FoundIsPieces(v: units, w: units, from: nat, done: seq<units>, lim: nat)
    requires w != [] && from <= |v| && |done| < lim
    ensures Found(v, w, from, done, lim) == Limited(done + Pieces(v, w, from), lim)
    decreases |v| - from
  {
    var i := Index(v, w, from);
    if i >= 0 {
      var next := done + [v[from..i]];
      var rest := Pieces(v, w, i + |w|);
      Assoc(done, [v[from..i]], rest);
      if |next| < lim { FoundIsPieces(v, w, i + |w|, next, lim); } else { LimitPast(next, rest, lim); }
    }
  }

  lemma SpellAppend(pieces: seq<units>, piece: units)
    ensures SpellAll(pieces + [piece]) == SpellAll(pieces) + [Spell(piece)]
  {
  }

  lemma {:induction false} SplitLast(s: bytes, sep: bytes, from: nat, u: units, at: nat)
    requires Pattern(sep) && Canonical(s) && Edge(s, from) && u == Units(s) && at == Offset(s, from)
    requires Index(s, sep, from) < 0
    ensures at <= |u| && Index(u, sep, at) == -1 && s[from..] == Spell(u[at..])
  {
    hide First, Boundary, Units, CanonicalAfter;
    SameIndex(s, sep, from);
    LastIsSpelt(s, from);
  }

  lemma {:induction false} SplitNext(s: bytes, sep: bytes, from: nat, i: nat, u: units, at: nat) returns (j: nat)
    requires Pattern(sep) && Canonical(s) && Edge(s, from) && u == Units(s) && at == Offset(s, from)
    requires Index(s, sep, from) == i
    ensures Edge(s, i + |sep|) && Offset(s, i + |sep|) == j + |sep|
    ensures at <= j && Index(u, sep, at) == j && s[from..i] == Spell(u[at..j])
  {
    hide First, Boundary, Units, CanonicalAfter;
    j := Offset(s, i);
    SameIndex(s, sep, from);
    IndexEdges(s, sep, from, i);
    PieceIsSpelt(s, from, i);
  }

  /** splitASCII: the pieces between the separator's matches, at most lim. */
  method SplitAscii(s: bytes, sep: bytes, lim: nat) returns (parts: seq<bytes>)
    requires Pattern(sep) && Canonical(s) && lim > 0
    ensures parts == SpellAll(Found(Units(s), sep, 0, [], lim))
  {
    hide First, Boundary, Units, CanonicalAfter, Offset, Spell, Index;
    ghost var u := Units(s);
    ghost var done: seq<units> := [];
    ghost var at := 0;
    var from := 0;
    Ends(s);
    parts := [];
    while true
      invariant Edge(s, from) && at == Offset(s, from) && at <= |u|
      invariant parts == SpellAll(done) && |done| < lim
      invariant Found(u, sep, 0, [], lim) == Found(u, sep, at, done, lim)
      decreases |s| - from
    {
      var i := Index(s, sep, from);
      if i < 0 {
        SplitLast(s, sep, from, u, at);
        SpellAppend(done, u[at..]);
        return parts + [s[from..]];
      }
      ghost var j := SplitNext(s, sep, from, i, u, at);
      SpellAppend(done, u[at..j]);
      parts := parts + [s[from..i]];
      if |parts| == lim { return; }
      done := done + [u[at..j]];
      from := i + |sep|;
      at := j + |sep|;
    }
  }

  /** split on code units. */
  method SplitUnits(v: units, sep: units, lim: nat) returns (parts: seq<bytes>)
    requires sep != [] && lim > 0
    ensures parts == SpellAll(Found(v, sep, 0, [], lim))
  {
    ghost var done: seq<units> := [];
    parts := [];
    var i := 0;
    while true
      invariant i <= |v| && parts == SpellAll(done) && |done| < lim
      invariant Found(v, sep, 0, [], lim) == Found(v, sep, i, done, lim)
      decreases |v| - i
    {
      var j := IndexOf(v, sep, i);
      FirstIsIndex(v, sep, i, j);
      if j < 0 {
        SpellAppend(done, v[i..]);
        return parts + [Spell(v[i..])];
      }
      SpellAppend(done, v[i..j]);
      parts := parts + [Spell(v[i..j])];
      if |parts| == lim { return; }
      done := done + [v[i..j]];
      i := j + |sep|;
    }
  }

  function Each(v: units): (parts: seq<units>)
    ensures |parts| == |v| && forall k :: 0 <= k < |v| ==> parts[k] == [v[k]]
  {
    seq(|v|, k requires 0 <= k < |v| => [v[k]])
  }

  method OneUnit(s: bytes, v: units, k: nat) returns (part: bytes)
    requires v == Units(s) && k < |v|
    ensures part == Spell([v[k]])
  {
    part := Strings.Sub(s, k, k + 1);
    assert v[k..k + 1] == [v[k]];
  }

  method SplitEach(s: bytes, v: units, lim: nat) returns (parts: seq<bytes>)
    requires v == Units(s)
    ensures parts == SpellAll(Limited(Each(v), lim))
  {
    var n := if |v| <= lim then |v| else lim;
    ghost var done: seq<units> := [];
    parts := [];
    for k := 0 to n
      invariant done == Each(v)[..k] && parts == SpellAll(done)
    {
      var part := OneUnit(s, v, k);
      SpellAppend(done, [v[k]]);
      done := done + [[v[k]]];
      parts := parts + [part];
    }
  }

  // math.Mod of whole numbers: the remainder has the dividend's sign.
  function Mod(t: int, n: nat): int
    requires n > 0
  {
    if t >= 0 then t % n else -((-t) % n)
  }

  const TWO_32 := 0x1_0000_0000

  /** toUint32, the conversion to uint32 wrapping: ToUint32 (section 7.1.7 of ECMA-262). */
  function ToUint32(f: Float): (u: nat)
    ensures u < TWO_32
    ensures if f.Num? then exists k: int :: u == Truncated(f.v) + k * TWO_32 else u == 0
  {
    if !f.Num? then 0 else
    var m := Mod(Truncated(f.v), TWO_32);
    WrapsRound(Truncated(f.v));
    m % TWO_32
  }

  lemma WrapsRound(t: int)
    ensures exists k: int :: Mod(t, TWO_32) % TWO_32 == t + k * TWO_32
  {
    if t >= 0 {
      assert t % TWO_32 == t + -(t / TWO_32) * TWO_32;
    } else {
      var q, r := (-t) / TWO_32, (-t) % TWO_32;
      assert -t == q * TWO_32 + r;
      if r == 0 { assert Mod(t, TWO_32) % TWO_32 == t + q * TWO_32; }
      else { assert (-r) % TWO_32 == TWO_32 - r; assert Mod(t, TWO_32) % TWO_32 == t + (q + 1) * TWO_32; }
    }
  }

  // No limit is the largest there is.
  function SplitLimit(limit: seq<Float>): nat { if |limit| > 0 then ToUint32(limit[0]) else TWO_32 - 1 }

  /** StrSplit: the code units' pieces, each the canonical string of its units. */
  method StrSplit(s: bytes, separator: bytes, limit: seq<Float>) returns (parts: seq<bytes>)
    ensures var v, sep := Units(s), Units(separator);
      parts == SpellAll(Limited(if sep == [] then Each(v) else Pieces(v, sep, 0), if limit == [] then 0xFFFF_FFFF else ToUint32(limit[0])))
  {
    hide ToUint32;
    var lim := SplitLimit(limit);
    if lim == 0 { return []; }
    var ascii := IsAscii(separator);
    var canonical := IsCanonical(s);
    if separator != [] && ascii && canonical {
      AsciiIsItsUnits(separator);
      parts := SplitAscii(s, separator, lim);
      FoundIsPieces(Units(s), separator, 0, [], lim);
      assert [] + Pieces(Units(s), separator, 0) == Pieces(Units(s), separator, 0);
      return;
    }
    var v := ToUnits(s);
    var sep := ToUnits(separator);
    if |sep| == 0 {
      parts := SplitEach(s, v, lim);
      return;
    }
    if |v| == 0 {
      if s != [] { UnitsNotEmpty(s); }
      assert Pieces(v, sep, 0) == [[]];
      return [s];
    }
    parts := SplitUnits(v, sep, lim);
    FoundIsPieces(v, sep, 0, [], lim);
    assert [] + Pieces(v, sep, 0) == Pieces(v, sep, 0);
  }

  // Joining what was split.

  function Woven(pieces: seq<units>, w: units): units {
    if pieces == [] then [] else if |pieces| == 1 then pieces[0] else pieces[0] + w + Woven(pieces[1..], w)
  }

  lemma MatchRejoins(v: units, w: units, from: nat, i: nat)
    requires from <= i && Occurs(v, w, i)
    ensures v[from..i] + w + v[i + |w|..] == v[from..]
  {
  }

  lemma {:induction false} PiecesWeave(v: units, w: units, from: nat)
    requires w != [] && from <= |v|
    ensures Woven(Pieces(v, w, from), w) == v[from..]
    decreases |v| - from
  {
    var i := Index(v, w, from);
    if i >= 0 {
      PiecesWeave(v, w, i + |w|);
      var rest := Pieces(v, w, i + |w|);
      assert ([v[from..i]] + rest)[1..] == rest;
      IndexIsFirst(v, w, from);
      MatchRejoins(v, w, from, i);
    }
  }

  lemma {:induction false} UnitsOfTwo(a: bytes, sep: bytes, rest: seq<bytes>)
    ensures UnitsOfAll([a, sep] + rest) == Units(a) + Units(sep) + UnitsOfAll(rest)
  {
    hide First, Units;
    assert ([a, sep] + rest)[1..] == [sep] + rest && ([sep] + rest)[1..] == rest;
  }

  lemma {:induction false} SeparatedUnits(pieces: seq<units>, sep: bytes)
    requires Canonical(sep)
    ensures AllCanonical(Separated(SpellAll(pieces), sep))
    ensures UnitsOfAll(Separated(SpellAll(pieces), sep)) == Woven(pieces, Units(sep))
    decreases |pieces|
  {
    hide First, Units, CanonicalAfter, Spell;
    var parts := SpellAll(pieces);
    if |pieces| > 0 { SpellMeans(pieces[0]); }
    if |pieces| == 1 {
      assert UnitsOfAll(parts[1..]) == [];
    } else if |pieces| > 1 {
      SeparatedUnits(pieces[1..], sep);
      assert parts[1..] == SpellAll(pieces[1..]);
      UnitsOfTwo(parts[0], sep, Separated(parts[1..], sep));
    }
  }

  /** Joining a canonical string's split with its separator gives it back. */
  lemma SplitJoins(s: bytes, sep: bytes)
    requires Canonical(s) && Canonical(sep) && sep != [] && Units(sep) != []
    ensures Join(Separated(SpellAll(Pieces(Units(s), Units(sep), 0)), sep)) == s
  {
    var pieces := Pieces(Units(s), Units(sep), 0);
    PiecesWeave(Units(s), Units(sep), 0);
    SeparatedUnits(pieces, sep);
    JoinJoinsUnits(Separated(SpellAll(pieces), sep));
    SameUnitsSameBytes(Join(Separated(SpellAll(pieces), sep)), s);
  }
}
