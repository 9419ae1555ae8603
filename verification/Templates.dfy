/**
  A replacement's template (backend/runtime/str_search.go): the replacement cut
  once at its patterns, and what it puts for a match proved to be what
  GetSubstitution puts.
*/
module Templates {
  import opened Options
  import opened Wtf8
  import opened Wtf8Seams
  import opened StringBuilder
  import opened Strings
  import opened StringSearch
  import opened StringMethods
  import opened Matches

  const DOLLAR: byte := 0x24
  const AMPERSAND: byte := 0x26
  const APOSTROPHE: byte := 0x27
  const BACKTICK: byte := 0x60

  datatype Part = Text(s: bytes) | Matched | Before | After

  // A replacement a byte at a time, as GetSubstitution reads it with no
  // captures (section 22.1.3.19.1 of ECMA-262).
  function Read(r: bytes, i: nat, done: seq<Part>): seq<Part>
    decreases |r| - i
  {
    if i >= |r| then done
    else if i + 1 < |r| && r[i] == DOLLAR && PartAt(r[i + 1]).Some? then Read(r, i + 2, done + [PartAt(r[i + 1]).value])
    else Read(r, i + 1, done + [Text([r[i]])])
  }

  function PartAt(c: byte): Option<Part> {
    if c == DOLLAR then Some(Text([DOLLAR]))
    else if c == AMPERSAND then Some(Matched)
    else if c == BACKTICK then Some(Before)
    else if c == APOSTROPHE then Some(After)
    else None
  }

  // The parts of a template with its text a byte at a time.
  function Bytes(s: bytes): seq<Part> { seq(|s|, k requires 0 <= k < |s| => Text([s[k]])) }

  function Spread(t: seq<Part>): seq<Part> {
    if t == [] then []
    else Spread(t[..|t| - 1]) + if t[|t| - 1].Text? then Bytes(t[|t| - 1].s) else [t[|t| - 1]]
  }

  predicate Texts(t: seq<Part>) { forall k :: 0 <= k < |t| && t[k].Text? ==> Canonical(t[k].s) }

  function WithText(t: seq<Part>, s: bytes): (r: seq<Part>)
    ensures Spread(r) == Spread(t) + Bytes(s)
  {
    if s == [] then assert Bytes(s) == []; t else assert (t + [Text(s)])[..|t|] == t; t + [Text(s)]
  }

  // What has been read: the parts made, and the text not yet one.
  function Seen(t: seq<Part>, r: bytes, start: nat, i: nat): seq<Part>
    requires start <= i <= |r|
  {
    Spread(t) + Bytes(r[start..i])
  }

  lemma {:induction false} SeenByte(t: seq<Part>, r: bytes, start: nat, i: nat)
    requires start <= i < |r|
    ensures Seen(t, r, start, i + 1) == Seen(t, r, start, i) + [Text([r[i]])]
  {
    assert Bytes(r[start..i + 1]) == Bytes(r[start..i]) + [Text([r[i]])];
  }

  lemma {:induction false} SeenText(t: seq<Part>, r: bytes, start: nat, i: nat, next: nat)
    requires start <= i <= |r| && next <= |r|
    ensures Seen(WithText(t, r[start..i]), r, next, next) == Seen(t, r, start, i)
  {
    assert Bytes(r[next..next]) == [];
  }

  lemma {:induction false} SeenPart(t: seq<Part>, r: bytes, p: Part, next: nat)
    requires next <= |r| && !p.Text?
    ensures Seen(t + [p], r, next, next) == Seen(t, r, next, next) + [p]
  {
    assert (t + [p])[..|t|] == t;
    assert Bytes(r[next..next]) == [];
  }

  lemma {:induction false} TextIsCanonical(r: bytes, t: seq<Part>, start: nat, end: nat)
    requires Edge(r, start) && Edge(r, end) && start <= end && (Canonical(r) ==> Texts(t))
    ensures Canonical(r) ==> Texts(WithText(t, r[start..end]))
  {
    hide First, Boundary, Units, CanonicalAfter, Spread, Bytes, Edge;
    if Canonical(r) {
      EdgeIsBoundary(r, start);
      EdgeIsBoundary(r, end);
      EdgeIsWithin(r, end);
      CanonicalPiece(r, start, end);
    }
  }

  lemma {:induction false} LastByte(t: seq<Part>, r: bytes, start: nat, i: nat)
    requires start <= i <= |r| && i + 1 >= |r|
    ensures Read(r, i, Seen(t, r, start, i)) == Spread(WithText(t, r[start..]))
  {
    assert r[start..] == r[start..|r|];
    if i < |r| { SeenByte(t, r, start, i); }
  }

  // The parts, past the pattern at i.
  function WithPattern(t: seq<Part>, r: bytes, start: nat, i: nat, p: Part): seq<Part>
    requires start <= i < |r|
  {
    if p.Text? then WithText(t, r[start..i + 1]) else WithText(t, r[start..i]) + [p]
  }

  lemma {:induction false} PatternRead(t: seq<Part>, r: bytes, start: nat, i: nat, p: Part)
    requires start <= i && i + 1 < |r| && r[i] == DOLLAR && PartAt(r[i + 1]) == Some(p)
    ensures Read(r, i, Seen(t, r, start, i)) == Read(r, i + 2, Seen(WithPattern(t, r, start, i, p), r, i + 2, i + 2))
  {
    if p.Text? {
      SeenByte(t, r, start, i);
      SeenText(t, r, start, i + 1, i + 2);
    } else {
      SeenText(t, r, start, i, i + 2);
      SeenPart(WithText(t, r[start..i]), r, p, i + 2);
    }
  }

  lemma {:induction false} PatternIsCanonical(t: seq<Part>, r: bytes, start: nat, i: nat, p: Part)
    requires start <= i && i + 1 < |r| && r[i] == DOLLAR && PartAt(r[i + 1]) == Some(p)
    requires Edge(r, start) && (Canonical(r) ==> Texts(t))
    ensures Canonical(r) ==> Texts(WithPattern(t, r, start, i, p))
    ensures Edge(r, i + 2)
  {
    hide First, Boundary, Units, CanonicalAfter, Spread, Bytes;
    TextIsCanonical(r, t, start, if p.Text? then i + 1 else i);
  }

  // The template, from the parts before start on.
  function Cut(t: seq<Part>, r: bytes, start: nat, i: nat): seq<Part>
    requires start <= i <= |r|
    decreases |r| - i
  {
    if i + 1 >= |r| then WithText(t, r[start..])
    else if r[i] == DOLLAR && PartAt(r[i + 1]).Some? then Cut(WithPattern(t, r, start, i, PartAt(r[i + 1]).value), r, i + 2, i + 2)
    else Cut(t, r, start, i + 1)
  }

  function Template(r: bytes): seq<Part> { Cut([], r, 0, 0) }

  lemma {:induction false} CutReads(t: seq<Part>, r: bytes, start: nat, i: nat)
    requires start <= i <= |r| && Edge(r, start) && (Canonical(r) ==> Texts(t))
    ensures Spread(Cut(t, r, start, i)) == Read(r, i, Seen(t, r, start, i))
    ensures Canonical(r) ==> Texts(Cut(t, r, start, i))
    decreases |r| - i
  {
    hide First, CanonicalAfter, Bytes, Spread;
    if i + 1 >= |r| {
      LastByte(t, r, start, i);
      assert r[start..] == r[start..|r|];
      TextIsCanonical(r, t, start, |r|);
    } else if r[i] == DOLLAR && PartAt(r[i + 1]).Some? {
      var p := PartAt(r[i + 1]).value;
      PatternRead(t, r, start, i, p);
      PatternIsCanonical(t, r, start, i, p);
      CutReads(WithPattern(t, r, start, i, p), r, i + 2, i + 2);
    } else {
      SeenByte(t, r, start, i);
      CutReads(t, r, start, i + 1);
    }
  }

  /** A template is its replacement as GetSubstitution reads it, the text kept
      in pieces that are canonical if the replacement is. */
  lemma TemplateReads(r: bytes)
    ensures Spread(Template(r)) == Read(r, 0, [])
    ensures Canonical(r) ==> Texts(Template(r))
  {
    CutReads([], r, 0, 0);
    assert Seen([], r, 0, 0) == [];
  }

  /** parseTemplate: the replacement cut at its patterns. */
  method ParseTemplate(r: bytes) returns (t: seq<Part>)
    ensures t == Template(r)
  {
    hide First, PartAt, WithPattern, Spread, Bytes;
    t := [];
    var start, i := 0, 0;
    while i + 1 < |r|
      invariant start <= i <= |r| && Template(r) == Cut(t, r, start, i)
    {
      var p := PartAt(r[i + 1]);
      if r[i] != DOLLAR || p.None? {
        i := i + 1;
        continue;
      }
      t := WithPattern(t, r, start, i, p.value);
      start := i + 2;
      i := i + 2;
    }
    t := WithText(t, r[start..]);
  }

  // What a template puts for a match of m units at pos.

  function PartUnits(p: Part, v: units, pos: nat, m: nat): units
    requires pos + m <= |v|
  {
    match p
    case Text(s) => Units(s)
    case Matched => v[pos..pos + m]
    case Before => v[..pos]
    case After => v[pos + m..]
  }

  function PartsUnits(t: seq<Part>, v: units, pos: nat, m: nat): units
    requires pos + m <= |v|
  {
    if t == [] then [] else PartUnits(t[0], v, pos, m) + PartsUnits(t[1..], v, pos, m)
  }

  lemma {:induction false} PartsAppend(a: seq<Part>, b: seq<Part>, v: units, pos: nat, m: nat)
    requires pos + m <= |v|
    ensures PartsUnits(a + b, v, pos, m) == PartsUnits(a, v, pos, m) + PartsUnits(b, v, pos, m)
    decreases |a|
  {
    hide PartUnits;
    if a == [] {
      assert a + b == b;
    } else {
      PartsAppend(a[1..], b, v, pos, m);
      assert (a + b)[1..] == a[1..] + b;
    }
  }

  lemma {:induction false} TextUnits(t: seq<Part>, s: bytes, v: units, pos: nat, m: nat)
    requires pos + m <= |v|
    ensures PartsUnits(WithText(t, s), v, pos, m) == PartsUnits(t, v, pos, m) + Units(s)
  {
    if s != [] {
      PartsAppend(t, [Text(s)], v, pos, m);
      assert PartsUnits([Text(s)], v, pos, m) == Units(s) + PartsUnits([], v, pos, m);
    }
  }

  // No pattern begins in u.
  predicate Plain(u: seq<int>) { forall k :: 0 <= k < |u| - 1 ==> !(u[k] == DOLLAR && Special(u[k + 1])) }

  lemma {:induction false} PlainIsItself(u: units, matched: units, before: units, after: units)
    requires Plain(u)
    ensures Substituted(u, matched, before, after) == u
  {
    if u != [] { PlainIsItself(u[1..], matched, before, after); }
  }

  lemma {:induction false} SubstitutedPast(a: units, c: unit, b: units, matched: units, before: units, after: units)
    requires Plain(a + [DOLLAR]) && Special(c)
    ensures Substituted(a + [DOLLAR, c] + b, matched, before, after)
      == a + Substituted([DOLLAR, c], matched, before, after) + Substituted(b, matched, before, after)
  {
    var all := a + [DOLLAR, c] + b;
    if a == [] {
      assert all[2..] == b && all[0] == DOLLAR && all[1] == c;
      assert [DOLLAR, c][2..] == [];
    } else {
      assert (a + [DOLLAR])[0] == a[0] && (a + [DOLLAR])[1] == all[1] && (a + [DOLLAR])[1..] == a[1..] + [DOLLAR];
      assert all[1..] == a[1..] + [DOLLAR, c] + b;
      SubstitutedPast(a[1..], c, b, matched, before, after);
    }
  }

  // A pattern in the code units is one in the bytes.
  lemma {:induction false} PatternInBytes(s: bytes, k: nat)
    requires k + 1 < |Units(s)| && Units(s)[k] == DOLLAR && Special(Units(s)[k + 1])
    ensures !Plain(s)
  {
    hide First, Units;
    var w: bytes := [DOLLAR, Units(s)[k + 1]];
    assert Units(s)[k..k + 2] == w;
    var b := UnitMatch(s, w, k);
    assert s[b..b + 2][0] == s[b] && s[b..b + 2][1] == s[b + 1];
  }

  lemma {:induction false} PlainUnits(s: bytes)
    requires Plain(s)
    ensures Plain(Units(s))
  {
    hide First, Units, Special;
    var u := Units(s);
    forall k | 0 <= k < |u| - 1
      ensures !(u[k] == DOLLAR && Special(u[k + 1]))
    {
      if u[k] == DOLLAR && Special(u[k + 1]) { PatternInBytes(s, k); }
    }
  }

  lemma {:induction false} UnitsAtPattern(s: bytes, i: nat)
    requires i + 1 < |s| && s[i] == DOLLAR && Special(s[i + 1])
    ensures Units(s) == Units(s[..i]) + [DOLLAR, s[i + 1]] + Units(s[i + 2..])
    ensures Units(s[..i + 1]) == Units(s[..i]) + [DOLLAR]
  {
    hide First, Units;
    var w: bytes := [DOLLAR, s[i + 1]];
    assert s[i..i + 2] == w;
    ByteMatch(s, w, i);
    var one: bytes := [DOLLAR];
    var head := s[..i + 1];
    assert head[i..i + 1] == one && head[..i] == s[..i] && head[i + 1..] == [];
    ByteMatch(head, one, i);
    NoUnits();
  }

  lemma NoUnits()
    ensures Units([]) == []
  {
  }

  lemma PartAtIsSpecial(c: byte)
    ensures PartAt(c).Some? <==> Special(c)
  {
  }

  lemma PartSubstitutes(c: byte, v: units, pos: nat, m: nat)
    requires Special(c) && pos + m <= |v|
    ensures PartAt(c).Some? && Substituted([DOLLAR, c], v[pos..pos + m], v[..pos], v[pos + m..])
      == if PartAt(c).value.Text? then [DOLLAR] else PartUnits(PartAt(c).value, v, pos, m)
  {
    assert [DOLLAR, c][2..] == [];
    assert Substituted([], v[pos..pos + m], v[..pos], v[pos + m..]) == [];
  }

  // The parts past a pattern put what is before it, and what the pattern means.
  lemma {:induction false} PatternUnits(t: seq<Part>, r: bytes, start: nat, i: nat, v: units, pos: nat, m: nat)
    requires start <= i && i + 1 < |r| && r[i] == DOLLAR && Special(r[i + 1]) && pos + m <= |v|
    ensures PartAt(r[i + 1]).Some?
    ensures PartsUnits(WithPattern(t, r, start, i, PartAt(r[i + 1]).value), v, pos, m)
      == PartsUnits(t, v, pos, m) + (Units(r[start..i]) + Substituted([DOLLAR, r[i + 1]], v[pos..pos + m], v[..pos], v[pos + m..]))
  {
    hide First, Units, PartAt, Special, Substituted, WithText;
    PartSubstitutes(r[i + 1], v, pos, m);
    var p := PartAt(r[i + 1]).value;
    if p.Text? {
      var s := r[start..];
      assert s[i - start] == r[i] && s[i - start + 1] == r[i + 1] && s[..i - start] == r[start..i] && s[..i - start + 1] == r[start..i + 1];
      UnitsAtPattern(s, i - start);
      TextUnits(t, r[start..i + 1], v, pos, m);
    } else {
      TextUnits(t, r[start..i], v, pos, m);
      PartsAppend(WithText(t, r[start..i]), [p], v, pos, m);
      assert PartsUnits([p], v, pos, m) == PartUnits(p, v, pos, m) + PartsUnits([], v, pos, m);
    }
  }

  lemma {:induction false} PatternSubstitutes(r: bytes, start: nat, i: nat, matched: units, before: units, after: units)
    requires start <= i && i + 1 < |r| && r[i] == DOLLAR && Special(r[i + 1]) && Plain(r[start..i + 1])
    ensures Substituted(Units(r[start..]), matched, before, after)
      == Units(r[start..i]) + Substituted([DOLLAR, r[i + 1]], matched, before, after) + Substituted(Units(r[i + 2..]), matched, before, after)
  {
    hide First, Units;
    var s := r[start..];
    assert s[i - start] == r[i] && s[i - start + 1] == r[i + 1] && s[..i - start] == r[start..i];
    assert s[..i - start + 1] == r[start..i + 1] && s[i - start + 2..] == r[i + 2..];
    UnitsAtPattern(s, i - start);
    PlainUnits(r[start..i + 1]);
    SubstitutedPast(Units(r[start..i]), r[i + 1], Units(r[i + 2..]), matched, before, after);
  }

  lemma {:induction false} CutSubstitutes(t: seq<Part>, r: bytes, start: nat, i: nat, v: units, pos: nat, m: nat)
    requires start <= i <= |r| && pos + m <= |v| && Plain(if i < |r| then r[start..i + 1] else r[start..])
    ensures PartsUnits(Cut(t, r, start, i), v, pos, m)
      == PartsUnits(t, v, pos, m) + Substituted(Units(r[start..]), v[pos..pos + m], v[..pos], v[pos + m..])
    decreases |r| - i
  {
    hide First, Units, WithPattern, PartAt, Special, Substituted, Plain, PartsUnits, WithText;
    if i + 1 >= |r| {
      if i < |r| { assert r[start..i + 1] == r[start..]; }
      PlainUnits(r[start..]);
      PlainIsItself(Units(r[start..]), v[pos..pos + m], v[..pos], v[pos + m..]);
      TextUnits(t, r[start..], v, pos, m);
    } else {
      PartAtIsSpecial(r[i + 1]);
      if r[i] == DOLLAR && Special(r[i + 1]) {
        PatternUnits(t, r, start, i, v, pos, m);
        PatternSubstitutes(r, start, i, v[pos..pos + m], v[..pos], v[pos + m..]);
        ShortIsPlain(r, i + 2);
        CutSubstitutes(WithPattern(t, r, start, i, PartAt(r[i + 1]).value), r, i + 2, i + 2, v, pos, m);
      } else {
        PlainFurther(r, start, i);
        CutSubstitutes(t, r, start, i + 1, v, pos, m);
      }
    }
  }

  lemma ShortIsPlain(r: bytes, i: nat)
    requires i <= |r|
    ensures Plain(if i < |r| then r[i..i + 1] else r[i..])
  {
  }

  lemma PlainFurther(r: bytes, start: nat, i: nat)
    requires start <= i && i + 1 < |r| && Plain(r[start..i + 1]) && !(r[i] == DOLLAR && Special(r[i + 1]))
    ensures Plain(r[start..i + 2])
  {
    var a, b := r[start..i + 1], r[start..i + 2];
    forall k | 0 <= k < |b| - 1
      ensures !(b[k] == DOLLAR && Special(b[k + 1]))
    {
      if k < |a| - 1 { assert b[k] == a[k] && b[k + 1] == a[k + 1]; }
    }
  }

  /** For any match a template puts what GetSubstitution does, of the
      replacement's code units. */
  lemma {:induction false} TemplateSubstitutes(r: bytes, v: units, pos: nat, m: nat)
    requires pos + m <= |v|
    ensures PartsUnits(Template(r), v, pos, m) == Substituted(Units(r), v[pos..pos + m], v[..pos], v[pos + m..])
  {
    hide First, Units, Cut, Substituted;
    assert r[0..] == r;
    ShortIsPlain(r, 0);
    CutSubstitutes([], r, 0, 0, v, pos, m);
  }
}
