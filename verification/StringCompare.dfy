/**
  The order of `<` on strings (backend/runtime/str_compare.go): past the bytes
  two strings share, a unit at a time. For canonical strings that is the order
  of their code units.
*/
module StringCompare {
  import opened Options
  import opened Wtf8
  import opened Wtf8Seams
  import opened StringBuilder
  import opened Strings

  function Sign(a: int, b: int): int { if a < b then -1 else if a > b then 1 else 0 }

  // IsLessThan on strings, section 7.2.12 of ECMA-262: the first unit that
  // differs, and a prefix before what it is a prefix of.
  function Order(u: units, v: units): int {
    if u == [] || v == [] then Sign(|u|, |v|)
    else if u[0] != v[0] then Sign(u[0], v[0])
    else Order(u[1..], v[1..])
  }

  // u comes before v: where they part, v goes on, or has the greater unit.
  predicate Less(u: units, v: units) {
    exists k :: 0 <= k <= |u| && k < |v| && u[..k] == v[..k] && (k == |u| || u[k] < v[k])
  }

  lemma LessAfter(c: unit, u: units, v: units)
    ensures Less([c] + u, [c] + v) <==> Less(u, v)
  {
    var a, b := [c] + u, [c] + v;
    if Less(u, v) {
      var k :| 0 <= k <= |u| && k < |v| && u[..k] == v[..k] && (k == |u| || u[k] < v[k]);
      assert a[..k + 1] == [c] + u[..k] && b[..k + 1] == [c] + v[..k];
      assert a[k + 1..] == u[k..] && b[k + 1] == v[k];
    }
    if Less(a, b) {
      var k :| 0 <= k <= |a| && k < |b| && a[..k] == b[..k] && (k == |a| || a[k] < b[k]);
      assert k > 0 by { assert a[0] == b[0] == c; }
      assert u[..k - 1] == a[..k][1..] && v[..k - 1] == b[..k][1..];
    }
  }

  lemma SameStart(u: units, v: units, k: nat)
    requires 0 < k <= |u| && k <= |v| && u[..k] == v[..k]
    ensures u[0] == v[0]
  {
    assert u[..k][0] == v[..k][0];
  }

  lemma LessAtFirst(u: units, v: units)
    requires u == [] || v == [] || u[0] != v[0]
    ensures Less(u, v) <==> v != [] && (u == [] || u[0] < v[0])
  {
    if v != [] && (u == [] || u[0] < v[0]) { assert u[..0] == v[..0]; }
    if Less(u, v) {
      var k :| 0 <= k <= |u| && k < |v| && u[..k] == v[..k] && (k == |u| || u[k] < v[k]);
      if k > 0 { SameStart(u, v, k); }
    }
  }

  /** The sign of comparing is which comes before. */
  lemma {:induction false} OrderIsLess(u: units, v: units)
    ensures Order(u, v) == if Less(u, v) then -1 else if Less(v, u) then 1 else 0
    ensures Order(u, v) == 0 <==> u == v
    decreases |u|
  {
    hide Less;
    if u == [] || v == [] || u[0] != v[0] {
      LessAtFirst(u, v);
      LessAtFirst(v, u);
    } else {
      OrderIsLess(u[1..], v[1..]);
      LessAfter(u[0], u[1..], v[1..]);
      LessAfter(u[0], v[1..], u[1..]);
      assert u == [u[0]] + u[1..] && v == [u[0]] + v[1..];
    }
  }

  lemma {:induction false} OrderAfter(p: units, u: units, v: units)
    ensures Order(p + u, p + v) == Order(u, v)
    decreases |p|
  {
    if p == [] {
      assert p + u == u && p + v == v;
    } else {
      assert (p + u)[1..] == p[1..] + u && (p + v)[1..] == p[1..] + v;
      OrderAfter(p[1..], u, v);
    }
  }

  // A whole character is read from its own bytes alone.
  lemma {:induction false} FirstExtends(a: bytes, t: bytes)
    requires a != [] && !Stray(a)
    ensures First(a + t) == First(a)
  {
  }

  /** Where a canonical string's character ends, so does the same character of
      any string that shares those bytes. */
  lemma {:induction false} SharedBoundary(a: bytes, b: bytes, i: nat, high: bool)
    requires CanonicalAfter(a, high) && Boundary(a, i) && i <= |a| && i <= |b| && a[..i] == b[..i]
    ensures Boundary(b, i)
    decreases |a|
  {
    if i > 0 {
      var k := First(a).size;
      BoundaryIsInside(a[k..], i - k);
      FirstOfPrefix(a, i);
      FirstExtends(a[..i], b[i..]);
      assert a[..i] + b[i..] == b;
      assert a[k..][..i - k] == a[..i][k..] && b[k..][..i - k] == b[..i][k..];
      SharedBoundary(a[k..], b[k..], i - k, High(First(a).r));
    }
  }

  lemma {:induction false} LeadIsBoundary(s: bytes, i: nat)
    requires i < |s| && !Cont(s[i])
    ensures Boundary(s, i)
  {
    assert s == s[..i] + s[i..];
    SeamIsBoundary(s[..i], s[i..]);
  }

  // A character has at most three bytes after its first.
  lemma {:induction false} LeadIsNear(s: bytes, i: nat, high: bool) returns (k: nat)
    requires CanonicalAfter(s, high) && i < |s|
    ensures k <= i && i - k <= 3 && !Cont(s[k])
    decreases |s|
  {
    var n := First(s).size;
    if i < n {
      ReadIsEncoded(s);
      k := 0;
    } else {
      var j := LeadIsNear(s[n..], i - n, High(First(s).r));
      k := n + j;
    }
  }

  // From a place both strings have a character start at, only what follows counts.
  lemma {:induction false} OrderFrom(a: bytes, b: bytes, i: nat)
    requires Boundary(a, i) && Boundary(b, i) && i <= |a| && i <= |b| && a[..i] == b[..i]
    ensures Order(Units(a), Units(b)) == Order(Units(a[i..]), Units(b[i..]))
  {
    UnitsAtBoundary(a, i);
    UnitsAtBoundary(b, i);
    OrderAfter(Units(a[..i]), Units(a[i..]), Units(b[i..]));
  }

  lemma {:induction false} PrefixOrder(a: bytes, b: bytes)
    requires Canonical(a) && |a| <= |b| && a == b[..|a|]
    ensures Order(Units(a), Units(b)) == Sign(|a|, |b|)
    ensures Order(Units(b), Units(a)) == Sign(|b|, |a|)
  {
    hide First, Boundary, CanonicalAfter;
    EndIsBoundary(a);
    assert a[..|a|] == a;
    SharedBoundary(a, b, |a|, false);
    OrderFrom(a, b, |a|);
    OrderFrom(b, a, |a|);
    assert a[|a|..] == [] && Units([]) == [];
    if |a| == |b| { assert b[|a|..] == []; } else { UnitsNotEmpty(b[|a|..]); }
  }

  lemma {:induction false} AsciiOrder(a: bytes, b: bytes, i: nat)
    requires Canonical(a) && Canonical(b) && i < |a| && i < |b| && a[..i] == b[..i] && a[i] != b[i] && a[i] < 0x80
    ensures Order(Units(a), Units(b)) == Sign(a[i], b[i])
    ensures Order(Units(b), Units(a)) == Sign(b[i], a[i])
  {
    LeadIsBoundary(a, i);
    SharedBoundary(a, b, i, false);
    OrderFrom(a, b, i);
    OrderFrom(b, a, i);
    CanonicalTail(b, i, false);
    FirstUnit(b[i..]);
    FirstUnit(a[i..]);
  }

  lemma {:induction false} CanonicalTail(s: bytes, i: nat, high: bool)
    requires CanonicalAfter(s, high) && Boundary(s, i) && i <= |s|
    ensures Canonical(s[i..])
    decreases |s|
  {
    if i == 0 {
      assert s[0..] == s;
    } else {
      var k := First(s).size;
      assert s[k..][i - k..] == s[i..];
      BoundaryIsInside(s[k..], i - k);
      CanonicalTail(s[k..], i - k, High(First(s).r));
    }
  }

  lemma {:induction false} FirstUnit(s: bytes)
    requires s != [] && !Stray(s)
    ensures Units(s) != [] && (if s[0] < 0x80 then Units(s)[0] == s[0] else Units(s)[0] >= 0x80)
  {
    ReadIsEncoded(s);
  }

  /** A unitReader reads a string's code units in order from byte i. */
  class UnitReader {
    const s: bytes
    var i: nat
    var low: unit

    ghost predicate Valid()
      reads this
    {
      i <= |s|
    }

    ghost function Left(): units
      requires Valid()
      reads this
    {
      (if low != 0 then [low] else []) + Units(s[i..])
    }

    constructor (s: bytes, i: nat)
      requires i <= |s|
      ensures Valid() && Left() == Units(s[i..])
    {
      this.s, this.i, low := s, i, 0;
    }

    method Next() returns (u: Option<unit>)
      requires Valid()
      modifies this
      ensures Valid()
      ensures u.None? <==> old(Left()) == []
      ensures u.Some? ==> old(Left()) == [u.value] + Left()
      ensures u.None? ==> Left() == []
    {
      hide First;
      if low != 0 {
        u := Some(low);
        low := 0;
        return;
      }
      if i >= |s| { return None; }
      UnitsFromChar(s, i);
      var c := First(s[i..]);
      i := i + c.size;
      if c.r >= 0x1_0000 {
        low := LowOf(c.r);
        return Some(HighOf(c.r));
      }
      u := Some(c.r);
    }
  }

  method CompareUnits(a: bytes, b: bytes, i: nat) returns (r: int)
    requires i <= |a| && i <= |b|
    ensures r == Order(Units(a[i..]), Units(b[i..]))
  {
    hide First, Units;
    var x := new UnitReader(a, i);
    var y := new UnitReader(b, i);
    while true
      invariant x.Valid() && y.Valid() && x != y
      invariant Order(x.Left(), y.Left()) == Order(Units(a[i..]), Units(b[i..]))
      decreases |x.Left()|
    {
      ghost var left, right := x.Left(), y.Left();
      var u := x.Next();
      var v := y.Next();
      if u.None? || v.None? { return Sign(if u.Some? then 1 else 0, if v.Some? then 1 else 0); }
      assert left[1..] == x.Left() && right[1..] == y.Left();
      if u.value != v.value { return Sign(u.value, v.value); }
    }
  }

  /** StrCompare: the sign of the two strings' order in code units. */
  method StrCompare(a: bytes, b: bytes) returns (r: int)
    requires Canonical(a) && Canonical(b)
    ensures r == Order(Units(a), Units(b))
    ensures r == if Less(Units(a), Units(b)) then -1 else if Less(Units(b), Units(a)) then 1 else 0
  {
    hide First, Units, Boundary, CanonicalAfter, Order, Less;
    OrderIsLess(Units(a), Units(b));
    var n := if |a| < |b| then |a| else |b|;
    var i := 0;
    while i < n && a[i] == b[i]
      invariant i <= n && a[..i] == b[..i]
    {
      i := i + 1;
    }
    if i == n {
      assert a[..|a|] == a && b[..|b|] == b;
      if |a| <= |b| { PrefixOrder(a, b); } else { PrefixOrder(b, a); }
      return Sign(|a|, |b|);
    }
    if a[i] < 0x80 || b[i] < 0x80 {
      if a[i] < 0x80 { AsciiOrder(a, b, i); } else { AsciiOrder(b, a, i); }
      return Sign(a[i], b[i]);
    }
    ghost var lead := LeadIsNear(a, i, false);
    ghost var differ := i;
    var k := 0;
    while k < 3 && i > 0 && Cont(a[i])
      invariant k <= 3 && i <= differ && i == differ - k && lead <= i && a[..differ] == b[..differ]
    {
      i := i - 1;
      k := k + 1;
    }
    assert !Cont(a[i]);
    LeadIsBoundary(a, i);
    assert a[..i] == a[..differ][..i] && b[..i] == b[..differ][..i];
    SharedBoundary(a, b, i, false);
    OrderFrom(a, b, i);
    r := CompareUnits(a, b, i);
  }
}
