/**
  Searching one string for another (backend/runtime/str_search.go,
  str_search_ascii.go): on code units, as ECMA-262 says it, and, for an ASCII
  pattern, on the bytes, proved to find the same matches.
*/
module StringSearch {
  import opened Options
  import opened Wtf8
  import opened Wtf8Seams
  import opened StringBuilder
  import opened Strings

  // A match, in bytes or in code units.
  predicate Occurs(v: seq<int>, w: seq<int>, i: int) { 0 <= i && i + |w| <= |v| && v[i..i + |w|] == w }

  ghost predicate IsFirst(v: seq<int>, w: seq<int>, from: int, i: int) {
    if i < 0 then i == -1 && forall k :: k >= from ==> !Occurs(v, w, k)
    else i >= from && Occurs(v, w, i) && forall k :: from <= k < i ==> !Occurs(v, w, k)
  }

  ghost predicate IsLast(v: seq<int>, w: seq<int>, start: int, i: int) {
    if i < 0 then i == -1 && forall k :: k <= start ==> !Occurs(v, w, k)
    else i <= start && Occurs(v, w, i) && forall k :: i < k <= start ==> !Occurs(v, w, k)
  }

  // On code units.

  /** equalAt. */
  method EqualAt(v: seq<int>, w: seq<int>, i: nat) returns (equal: bool)
    requires i + |w| <= |v|
    ensures equal <==> Occurs(v, w, i)
  {
    for k := 0 to |w|
      invariant forall j :: 0 <= j < k ==> v[i + j] == w[j]
    {
      if v[i + k] != w[k] {
        assert v[i..i + |w|][k] == v[i + k];
        return false;
      }
    }
    equal := true;
  }

  /** indexOf: StringIndexOf of ECMA-262. */
  method IndexOf(v: seq<int>, w: seq<int>, from: nat) returns (r: int)
    ensures IsFirst(v, w, from, r)
  {
    var n, m := |v|, |w|;
    if m == 0 {
      assert forall k :: Occurs(v, w, k) <==> 0 <= k <= n;
      if from <= n { return from; }
      return -1;
    }
    var i := from;
    while i + m <= n
      invariant from <= i && forall k :: from <= k < i ==> !Occurs(v, w, k)
    {
      var equal := EqualAt(v, w, i);
      if equal { return i; }
      i := i + 1;
    }
    r := -1;
  }

  /** lastIndexOf, on code units. */
  method LastIndexOf(v: seq<int>, w: seq<int>, start: nat) returns (r: int)
    ensures IsLast(v, w, start, r)
  {
    var i: int := if start <= |v| - |w| then start else |v| - |w|;
    while i >= 0
      invariant i < 0 || (i <= start && i + |w| <= |v|)
      invariant forall k :: i < k <= start ==> !Occurs(v, w, k)
    {
      var equal := EqualAt(v, w, i);
      if equal { return i; }
      i := i - 1;
    }
    r := -1;
  }

  // strings.Index and strings.LastIndex.
  function Index(s: seq<int>, w: seq<int>, from: nat): (r: int)
    ensures r == -1 || from <= r <= |s| - |w|
    decreases |s| - from
  {
    if from + |w| > |s| then -1 else if Occurs(s, w, from) then from else Index(s, w, from + 1)
  }

  function LastIndex(s: seq<int>, w: seq<int>, start: int): (r: int)
    ensures r == -1 || (0 <= r <= start && r <= |s| - |w|)
    decreases start
  {
    if start < 0 then -1 else if Occurs(s, w, start) then start else LastIndex(s, w, start - 1)
  }

  lemma {:induction false} IndexIsFirst(s: seq<int>, w: seq<int>, from: nat)
    ensures IsFirst(s, w, from, Index(s, w, from))
    decreases |s| - from
  {
    if from + |w| <= |s| && !Occurs(s, w, from) { IndexIsFirst(s, w, from + 1); }
  }

  lemma {:induction false} LastIndexIsLast(s: seq<int>, w: seq<int>, start: int)
    ensures IsLast(s, w, start, LastIndex(s, w, start))
    decreases start
  {
    if start >= 0 && !Occurs(s, w, start) { LastIndexIsLast(s, w, start - 1); }
  }

  lemma FirstIsIndex(s: seq<int>, w: seq<int>, from: nat, r: int)
    requires IsFirst(s, w, from, r)
    ensures r == Index(s, w, from)
  {
    IndexIsFirst(s, w, from);
  }

  // A match in the bytes is one in the code units, at the units before it.

  predicate Pattern(w: bytes) { w != [] && Ascii(w) }

  lemma {:induction false} MatchIsABoundary(s: bytes, w: bytes, b: nat)
    requires Pattern(w) && Occurs(s, w, b)
    ensures Boundary(s, b) && Boundary(s, b + |w|)
    ensures Starts(s[b..])
  {
    hide First;
    assert s[b..b + |w|][0] == s[b];
    assert s == s[..b] + s[b..];
    SeamIsBoundary(s[..b], s[b..]);
    AsciiBoundary(s, b, |w|);
  }

  /** Every match in the bytes is one in the code units. */
  lemma {:induction false} ByteMatch(s: bytes, w: bytes, b: nat)
    requires Pattern(w) && Occurs(s, w, b)
    ensures Units(s) == Units(s[..b]) + w + Units(s[b + |w|..])
    ensures Occurs(Units(s), w, |Units(s[..b])|)
  {
    hide First;
    MatchIsABoundary(s, w, b);
    UnitsAtBoundary(s, b);
    AsciiRun(s, b, |w|);
    assert Units(s) == Units(s[..b]) + (w + Units(s[b + |w|..]));
  }

  lemma {:induction false} AsciiPrefixMatch(s: bytes, w: bytes)
    requires Ascii(w) && |w| <= |Units(s)| && Units(s)[..|w|] == w
    ensures |w| <= |s| && s[..|w|] == w
    decreases |w|
  {
    UnitsNoLonger(s);
    if w != [] {
      assert Units(s)[0] == UnitsOf(First(s).r)[0];
      assert Units(s)[0] == w[0];
      AsciiFirst(s);
      assert Units(s)[1..] == Units(s[1..]);
      assert Units(s[1..])[..|w| - 1] == w[1..];
      AsciiPrefixMatch(s[1..], w[1..]);
    }
  }

  // A first code unit below 0x80 is a byte.
  lemma {:induction false} AsciiFirst(s: bytes)
    requires s != [] && UnitsOf(First(s).r)[0] < 0x80
    ensures First(s) == Char(s[0], 1) && s[0] < 0x80
  {
    if !Stray(s) { ReadIsEncoded(s); }
  }

  lemma {:induction false} PrefixFromFirst(s: bytes, b: nat)
    requires s != [] && First(s).size <= b <= |s|
    ensures Units(s[..b]) == UnitsOf(First(s).r) + Units(s[First(s).size..][..b - First(s).size])
  {
    hide First;
    FirstOfPrefix(s, b);
    assert s[..b][First(s).size..] == s[First(s).size..][..b - First(s).size];
  }

  lemma {:induction false} OccursLater(s: seq<int>, w: seq<int>, k: nat, b: nat)
    requires k <= |s| && Occurs(s[k..], w, b)
    ensures Occurs(s, w, k + b)
  {
    assert s[k..][b..b + |w|] == s[k + b..k + b + |w|];
  }

  lemma {:induction false} OccursEarlier(v: seq<int>, u: seq<int>, w: seq<int>, i: nat)
    requires Occurs(u + v, w, i) && i >= |u|
    ensures Occurs(v, w, i - |u|)
  {
    assert (u + v)[i..i + |w|] == v[i - |u|..i - |u| + |w|];
  }

  /** Every match in the code units is one in the bytes. */
  lemma {:induction false} UnitMatch(s: bytes, w: bytes, u: nat) returns (b: nat)
    requires Pattern(w) && Occurs(Units(s), w, u)
    ensures Occurs(s, w, b) && |Units(s[..b])| == u
    decreases |s|
  {
    if s == [] { assert false; }
    var c := First(s);
    var rest := s[c.size..];
    var n := |UnitsOf(c.r)|;
    assert Units(s)[u..u + |w|][0] == w[0];
    if u >= n {
      OccursEarlier(Units(rest), UnitsOf(c.r), w, u);
      var b' := UnitMatch(rest, w, u - n);
      b := c.size + b';
      OccursLater(s, w, c.size, b');
      PrefixFromFirst(s, b);
    } else {
      assert u == 0;
      assert Units(s)[0..|w|] == Units(s)[..|w|];
      AsciiPrefixMatch(s, w);
      assert s[0..|w|] == s[..|w|] && s[..0] == [];
      b := 0;
    }
  }

  lemma {:induction false} BoundariesInOrder(s: bytes, b: nat, c: nat)
    requires Boundary(s, b) && b < c <= |s| && Boundary(s, c)
    ensures |Units(s[..b])| < |Units(s[..c])|
  {
    hide First;
    CutBoundary(s, b, c);
    UnitsAtBoundary(s[..c], b);
    assert s[..c][..b] == s[..b];
    UnitsNotEmpty(s[..c][b..]);
  }

  lemma {:induction false} CutBoundary(s: bytes, b: nat, c: nat)
    requires Boundary(s, b) && b <= c <= |s|
    ensures Boundary(s[..c], b)
    decreases |s|
  {
    if b > 0 {
      var k := First(s).size;
      BoundaryIsInside(s[k..], b - k);
      FirstOfPrefix(s, c);
      assert s[..c][k..] == s[k..][..c - k];
      CutBoundary(s[k..], b - k, c - k);
    }
  }
}
