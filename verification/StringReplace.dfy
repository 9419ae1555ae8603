/**
  replaceAll (backend/runtime/str_search.go, str_search_ascii.go): the two ways
  a match is replaced, on bytes and on code units, proved to write the same
  string, and the one ECMA-262 has.
*/
module StringReplace {
  import opened Options
  import opened Wtf8
  import opened Wtf8Seams
  import opened StringBuilder
  import opened Strings
  import opened StringSearch
  import opened AsciiSearch
  import opened StringMethods
  import opened Matches
  import opened Templates

  // Replacing matches, on code units.

  lemma {:induction false} CutsFit(v: seq<int>, w: seq<int>, from: nat, end: nat)
    requires end <= from && end <= |v|
    ensures Fit(|v|, Cuts(v, w, from), |w|, end)
    decreases |v| - from
  {
    hide Index, Cuts;
    var i := Index(v, w, from);
    CutsFrom(v, w, from, i);
    if i >= 0 {
      CutsFit(v, w, i + Step(w), i + |w|);
      assert ([i] + Cuts(v, w, i + Step(w)))[1..] == Cuts(v, w, i + Step(w));
    }
  }

  // template.write.
  function WritePart(b: bytes, p: Part, v: units, pos: nat, m: nat): bytes
    requires pos + m <= |v|
  {
    match p
    case Text(s) => WithStr(b, s)
    case Matched => WithUnits(b, v[pos..pos + m])
    case Before => WithUnits(b, v[..pos])
    case After => WithUnits(b, v[pos + m..])
  }

  function WriteParts(b: bytes, t: seq<Part>, v: units, pos: nat, m: nat): bytes
    requires pos + m <= |v|
    decreases |t|
  {
    if t == [] then b else WriteParts(WritePart(b, t[0], v, pos, m), t[1..], v, pos, m)
  }

  // replaceAt.
  function Replaced(b: bytes, v: units, at: seq<nat>, m: nat, t: seq<Part>, end: nat): bytes
    requires Fit(|v|, at, m, end)
    decreases |at|
  {
    if at == [] then WithUnits(b, v[end..])
    else Replaced(WriteParts(WithUnits(b, v[end..at[0]]), t, v, at[0], m), v, at[1..], m, t, at[0] + m)
  }

  method WriteTemplate(b: StrBuilder, t: seq<Part>, v: units, pos: nat, m: nat)
    requires pos + m <= |v|
    modifies b
    ensures b.b == WriteParts(old(b.b), t, v, pos, m)
  {
    hide First, EndsHigh, StartsLow, WithStr, WithUnits, Units;
    for k := 0 to |t|
      invariant WriteParts(b.b, t[k..], v, pos, m) == WriteParts(old(b.b), t, v, pos, m)
    {
      assert t[k..][0] == t[k] && t[k..][1..] == t[k + 1..];
      match t[k] {
        case Text(s) => b.Str(s);
        case Matched => b.Sub(v[pos..pos + m]);
        case Before => b.Sub(v[..pos]);
        case After => b.Sub(v[pos + m..]);
      }
    }
    assert t[|t|..] == [];
  }

  /** replaceAt: None is the RangeError of a result past V8's limit. */
  method ReplaceAt(v: units, m: nat, positions: seq<nat>, t: seq<Part>) returns (r: Option<bytes>)
    requires Fit(|v|, positions, m, 0)
    ensures r.None? <==> |ReplacedUnits(v, positions, m, t, 0)| > STRING_LIMIT
    ensures r.Some? ==> r.value == Replaced([], v, positions, m, t, 0)
  {
    hide First, EndsHigh, StartsLow, WithStr, WithUnits, Units, CountsOf;
    var n := UnitsLength(positions, CountsOf(t), m, |v|);
    ReplacedLength(v, positions, m, t, 0);
    if n > STRING_LIMIT { return None; }
    var b := new StrBuilder();
    var end: nat := 0;
    for k := 0 to |positions|
      invariant Fit(|v|, positions[k..], m, end)
      invariant Replaced(b.b, v, positions[k..], m, t, end) == Replaced([], v, positions, m, t, 0)
    {
      var pos := positions[k];
      assert positions[k..][0] == pos && positions[k..][1..] == positions[k + 1..];
      b.Sub(v[end..pos]);
      WriteTemplate(b, t, v, pos, m);
      end := pos + m;
    }
    assert positions[|positions|..] == [];
    b.Sub(v[end..]);
    r := Some(b.b);
  }

  // On bytes.

  function WritePartBytes(b: bytes, p: Part, s: bytes, pos: nat, m: nat): bytes
    requires pos + m <= |s|
  {
    match p
    case Text(text) => WithStr(b, text)
    case Matched => WithStr(b, s[pos..pos + m])
    case Before => WithStr(b, s[..pos])
    case After => WithStr(b, s[pos + m..])
  }

  function WritePartsBytes(b: bytes, t: seq<Part>, s: bytes, pos: nat, m: nat): bytes
    requires pos + m <= |s|
    decreases |t|
  {
    if t == [] then b else WritePartsBytes(WritePartBytes(b, t[0], s, pos, m), t[1..], s, pos, m)
  }

  function ReplacedBytes(b: bytes, s: bytes, at: seq<nat>, m: nat, t: seq<Part>, end: nat): bytes
    requires Fit(|s|, at, m, end)
    decreases |at|
  {
    if at == [] then WithStr(b, s[end..])
    else ReplacedBytes(WritePartsBytes(WithStr(b, s[end..at[0]]), t, s, at[0], m), s, at[1..], m, t, at[0] + m)
  }

  method WriteBytes(b: StrBuilder, t: seq<Part>, s: bytes, pos: nat, m: nat)
    requires pos + m <= |s|
    modifies b
    ensures b.b == WritePartsBytes(old(b.b), t, s, pos, m)
  {
    hide First, EndsHigh, StartsLow, WithStr, WithUnits, Units;
    for k := 0 to |t|
      invariant WritePartsBytes(b.b, t[k..], s, pos, m) == WritePartsBytes(old(b.b), t, s, pos, m)
    {
      assert t[k..][0] == t[k] && t[k..][1..] == t[k + 1..];
      match t[k] {
        case Text(text) => b.Str(text);
        case Matched => b.Str(s[pos..pos + m]);
        case Before => b.Str(s[..pos]);
        case After => b.Str(s[pos + m..]);
      }
    }
    assert t[|t|..] == [];
  }

  /** replaceASCII, which counts code units only where the bytes say there may
      be too many. */
  method ReplaceAscii(s: bytes, m: nat, positions: seq<nat>, t: seq<Part>) returns (r: Option<bytes>)
    requires Fit(|s|, positions, m, 0) && GoodMatches(positions, m, OffsetIn(s), EdgeOf(s))
    requires Fit(|Units(s)|, Map(OffsetIn(s), positions), m, 0)
    ensures r.None? <==> |ReplacedUnits(Units(s), Map(OffsetIn(s), positions), m, t, 0)| > STRING_LIMIT
    ensures r.Some? ==> r.value == ReplacedBytes([], s, positions, m, t, 0)
  {
    hide First, EndsHigh, StartsLow, WithStr, WithUnits, Units, CountsOf, Edge, Offset;
    var c := CountsOf(t);
    var size := BytesSize(positions, c, m, |s|);
    WholeIsEdges(s);
    NoMoreUnits(s, positions, m, t, 0);
    if size > STRING_LIMIT {
      var n := CountUnits(s, m, positions, t);
      if n > STRING_LIMIT { return None; }
    }
    var b := WriteAscii(s, m, positions, t);
    r := Some(b);
  }

  // The matches replaced, once the result is known to fit.
  method WriteAscii(s: bytes, m: nat, positions: seq<nat>, t: seq<Part>) returns (r: bytes)
    requires Fit(|s|, positions, m, 0)
    ensures r == ReplacedBytes([], s, positions, m, t, 0)
  {
    hide First, EndsHigh, StartsLow, WithStr, WithUnits, Units;
    var b := new StrBuilder();
    var end: nat := 0;
    for k := 0 to |positions|
      invariant Fit(|s|, positions[k..], m, end)
      invariant ReplacedBytes(b.b, s, positions[k..], m, t, end) == ReplacedBytes([], s, positions, m, t, 0)
    {
      var pos := positions[k];
      assert positions[k..][0] == pos && positions[k..][1..] == positions[k + 1..];
      b.Str(s[end..pos]);
      WriteBytes(b, t, s, pos, m);
      end := pos + m;
    }
    assert positions[|positions|..] == [];
    b.Str(s[end..]);
    r := b.b;
  }

  // How long the result is.

  // What a template counts: its text's code units and bytes, and its patterns.
  datatype Counts = Counts(units: nat, size: nat, matched: nat, before: nat, after: nat)

  function CountsOf(t: seq<Part>): Counts {
    if t == [] then Counts(0, 0, 0, 0, 0)
    else
      var c := CountsOf(t[1..]);
      match t[0]
      case Text(s) => c.(units := c.units + |Units(s)|, size := c.size + |s|)
      case Matched => c.(matched := c.matched + 1)
      case Before => c.(before := c.before + 1)
      case After => c.(after := c.after + 1)
  }

  function Times(a: nat, b: nat): nat { a * b }

  // template.length and template.size.
  function Length(text: nat, c: Counts, pos: nat, m: nat, n: nat): nat
    requires pos + m <= n
  {
    text + Times(c.matched, m) + Times(c.before, pos) + Times(c.after, n - pos - m)
  }

  predicate AllFit(at: seq<nat>, m: nat, n: nat) { forall k :: 0 <= k < |at| ==> at[k] + m <= n }

  function Lengths(text: nat, c: Counts, at: seq<nat>, m: nat, n: nat): nat
    requires AllFit(at, m, n)
  {
    if at == [] then 0 else Length(text, c, at[0], m, n) + Lengths(text, c, at[1..], m, n)
  }

  lemma {:induction false} FitIsAllFit(n: nat, at: seq<nat>, m: nat, end: nat)
    requires Fit(n, at, m, end)
    ensures AllFit(at, m, n) && end + Times(m, |at|) <= n
    decreases |at|
  {
    if at != [] {
      FitIsAllFit(n, at[1..], m, at[0] + m);
      OneMoreTime(m, |at|);
    }
  }

  lemma OneMoreTime(a: nat, b: nat)
    ensures Times(a, b + 1) == Times(a, b) + a && Times(b + 1, a) == Times(b, a) + a && Times(0, a) == 0 == Times(a, 0)
    ensures b > 0 ==> Times(a, b) == Times(a, b - 1) + a
  {
  }

  lemma PartLength(p: Part, v: units, pos: nat, m: nat)
    requires pos + m <= |v|
    ensures |PartUnits(p, v, pos, m)| == match p
      case Text(s) => |Units(s)| case Matched => m case Before => pos case After => |v| - pos - m
  {
    hide Units;
  }

  lemma {:induction false} LengthIs(t: seq<Part>, v: units, pos: nat, m: nat)
    requires pos + m <= |v|
    ensures Length(CountsOf(t).units, CountsOf(t), pos, m, |v|) == |PartsUnits(t, v, pos, m)|
    decreases |t|
  {
    hide Units, Times, PartUnits;
    var n := |v| - pos - m;
    if t == [] {
      OneMoreTime(m, 0);
      OneMoreTime(pos, 0);
      OneMoreTime(n, 0);
    } else {
      var c := CountsOf(t[1..]);
      LengthIs(t[1..], v, pos, m);
      PartLength(t[0], v, pos, m);
      OneMoreTime(m, c.matched);
      OneMoreTime(pos, c.before);
      OneMoreTime(n, c.after);
    }
  }

  lemma {:induction false} ReplacedLength(v: units, at: seq<nat>, m: nat, t: seq<Part>, end: nat)
    requires Fit(|v|, at, m, end)
    ensures AllFit(at, m, |v|) && end + Times(m, |at|) <= |v|
    ensures |ReplacedUnits(v, at, m, t, end)| == |v| - end - Times(m, |at|) + Lengths(CountsOf(t).units, CountsOf(t), at, m, |v|)
    decreases |at|
  {
    hide Times, CountsOf, PartsUnits, Length;
    FitIsAllFit(|v|, at, m, end);
    if at == [] {
      OneMoreTime(m, 0);
    } else {
      LengthIs(t, v, at[0], m);
      ReplacedLength(v, at[1..], m, t, at[0] + m);
      OneMoreTime(m, |at|);
    }
  }

  // replaceAt's count.
  method UnitsLength(positions: seq<nat>, c: Counts, m: nat, n: nat) returns (length: int)
    requires Fit(n, positions, m, 0)
    ensures AllFit(positions, m, n)
    ensures length == n - Times(m, |positions|) + Lengths(c.units, c, positions, m, n)
  {
    FitIsAllFit(n, positions, m, 0);
    length := n - Times(m, |positions|);
    assert positions[0..] == positions;
    for k := 0 to |positions|
      invariant length + Lengths(c.units, c, positions[k..], m, n)
        == n - Times(m, |positions|) + Lengths(c.units, c, positions, m, n)
    {
      assert positions[k..][0] == positions[k] && positions[k..][1..] == positions[k + 1..];
      length := length + Length(c.units, c, positions[k], m, n);
    }
  }

  // replaceASCII's count of bytes.
  method BytesSize(positions: seq<nat>, c: Counts, m: nat, n: nat) returns (size: int)
    requires Fit(n, positions, m, 0)
    ensures AllFit(positions, m, n)
    ensures size == n - Times(m, |positions|) + Lengths(c.size, c, positions, m, n)
  {
    FitIsAllFit(n, positions, m, 0);
    size := n - Times(m, |positions|);
    assert positions[0..] == positions;
    for k := 0 to |positions|
      invariant size + Lengths(c.size, c, positions[k..], m, n)
        == n - Times(m, |positions|) + Lengths(c.size, c, positions, m, n)
    {
      assert positions[k..][0] == positions[k] && positions[k..][1..] == positions[k + 1..];
      size := size + Length(c.size, c, positions[k], m, n);
    }
  }

  // Between edges there are no more code units than bytes.
  lemma {:induction false} FewerUnits(s: bytes, x: nat, y: nat)
    requires Edge(s, x) && Edge(s, y) && x <= y
    ensures Offset(s, x) <= Offset(s, y) <= |Units(s)| && Offset(s, y) - Offset(s, x) == |Units(s[x..y])| <= y - x
  {
    hide First, Boundary, Units;
    EdgeIsBoundary(s, x);
    EdgeIsBoundary(s, y);
    Piece(s, x, y);
    UnitsNoLonger(s[x..y]);
  }

  lemma TimesLe(a: nat, b: nat, c: nat)
    requires b <= c
    ensures Times(a, b) <= Times(a, c)
  {
  }

  lemma {:induction false} TextIsNoLonger(t: seq<Part>)
    ensures CountsOf(t).units <= CountsOf(t).size
    decreases |t|
  {
    hide Units;
    if t != [] {
      TextIsNoLonger(t[1..]);
      if t[0].Text? { UnitsNoLonger(t[0].s); }
    }
  }

  lemma {:induction false} LengthNoMore(s: bytes, c: Counts, pos: nat, m: nat)
    requires Edge(s, pos) && Edge(s, pos + m) && Offset(s, pos + m) == Offset(s, pos) + m && c.units <= c.size
    ensures Offset(s, pos) + m <= |Units(s)|
    ensures Length(c.units, c, Offset(s, pos), m, |Units(s)|) <= Length(c.size, c, pos, m, |s|)
  {
    hide Units, Times, Edge, Offset;
    WholeIsEdges(s);
    EdgeIsWithin(s, pos + m);
    FewerUnits(s, 0, pos);
    FewerUnits(s, pos + m, |s|);
    TimesLe(c.before, Offset(s, pos), pos);
    TimesLe(c.after, |Units(s)| - Offset(s, pos) - m, |s| - pos - m);
  }

  lemma {:induction false} WholeIsEdges(s: bytes)
    ensures Edge(s, 0) && Edge(s, |s|) && Offset(s, 0) == 0 && Offset(s, |s|) == |Units(s)|
  {
    Ends(s);
  }

  // Where the bytes are within the limit, the code units are.
  lemma {:induction false} NoMoreUnits(s: bytes, at: seq<nat>, m: nat, t: seq<Part>, end: nat)
    requires Fit(|s|, at, m, end) && GoodMatches(at, m, OffsetIn(s), EdgeOf(s)) && Edge(s, end)
    requires Offset(s, end) <= |Units(s)| && Fit(|Units(s)|, Map(OffsetIn(s), at), m, Offset(s, end))
    ensures AllFit(at, m, |s|)
    ensures |ReplacedUnits(Units(s), Map(OffsetIn(s), at), m, t, Offset(s, end))|
      <= |s| - end - Times(m, |at|) + Lengths(CountsOf(t).size, CountsOf(t), at, m, |s|)
    decreases |at|
  {
    hide Units, Times, Edge, Offset, CountsOf, PartsUnits, Length;
    FitIsAllFit(|s|, at, m, end);
    WholeIsEdges(s);
    FewerUnits(s, end, |s|);
    if at == [] {
      OneMoreTime(m, 0);
    } else {
      assert Map(OffsetIn(s), at)[1..] == Map(OffsetIn(s), at[1..]);
      FirstMatchNoMore(s, at, m, t, end);
      NoMoreUnits(s, at[1..], m, t, at[0] + m);
      OneMoreTime(m, |at|);
    }
  }

  // Up to the end of the first match.
  lemma {:induction false} FirstMatchNoMore(s: bytes, at: seq<nat>, m: nat, t: seq<Part>, end: nat)
    requires at != [] && end <= at[0] && at[0] + m <= |s| && GoodMatches(at, m, OffsetIn(s), EdgeOf(s)) && Edge(s, end)
    ensures var pos := at[0];
      && Edge(s, pos + m) && OffsetIn(s)(pos) == Offset(s, pos) && Offset(s, pos + m) == Offset(s, pos) + m <= |Units(s)|
      && Offset(s, end) <= Offset(s, pos) && Offset(s, pos) - Offset(s, end) <= pos - end
      && |PartsUnits(t, Units(s), Offset(s, pos), m)| <= Length(CountsOf(t).size, CountsOf(t), pos, m, |s|)
  {
    hide Units, Times, Edge, Offset, CountsOf, PartsUnits, Length;
    var pos := at[0];
    assert EdgeOf(s)(pos) && EdgeOf(s)(pos + m);
    assert OffsetIn(s)(pos) == Offset(s, pos) && OffsetIn(s)(pos + m) == Offset(s, pos + m);
    FewerUnits(s, end, pos);
    TextIsNoLonger(t);
    LengthNoMore(s, CountsOf(t), pos, m);
    LengthIs(t, Units(s), Offset(s, pos), m);
  }

  // replacedLength.
  method CountUnits(s: bytes, m: nat, positions: seq<nat>, t: seq<Part>) returns (length: int)
    requires Fit(|s|, positions, m, 0) && GoodMatches(positions, m, OffsetIn(s), EdgeOf(s))
    requires Fit(|Units(s)|, Map(OffsetIn(s), positions), m, 0)
    ensures length == |ReplacedUnits(Units(s), Map(OffsetIn(s), positions), m, t, 0)|
  {
    hide First, Units, CountsOf, Edge, Offset, PartsUnits, Times;
    var c := CountsOf(t);
    var n := Utf16Len(s);
    ghost var offsets := Map(OffsetIn(s), positions);
    ReplacedLength(Units(s), offsets, m, t, 0);
    WholeIsEdges(s);
    length := n - Times(m, |positions|);
    var at, prev := 0, 0;
    assert offsets[0..] == offsets;
    for k := 0 to |positions|
      invariant prev <= |s| && Edge(s, prev) && at == Offset(s, prev) && (k < |positions| ==> prev <= positions[k])
      invariant length + Lengths(c.units, c, offsets[k..], m, n)
        == n - Times(m, |positions|) + Lengths(c.units, c, offsets, m, n)
    {
      var pos := positions[k];
      assert EdgeOf(s)(pos) && Edge(s, pos);
      EdgeIsWithin(s, pos);
      assert OffsetIn(s)(pos) == Offset(s, pos);
      FewerUnits(s, prev, pos);
      var more := Utf16Len(s[prev..pos]);
      at := at + more;
      prev := pos;
      assert offsets[k] == at && offsets[k..][0] == at && offsets[k..][1..] == offsets[k + 1..];
      length := length + Length(c.units, c, at, m, n);
      if k + 1 < |positions| { InOrderAt(|s|, positions, m, 0, k); }
    }
  }

  lemma {:induction false} InOrderAt(n: nat, at: seq<nat>, m: nat, end: nat, k: nat)
    requires Fit(n, at, m, end) && k + 1 < |at|
    ensures at[k] <= at[k + 1]
    decreases |at|
  {
    if k > 0 { InOrderAt(n, at[1..], m, at[0] + m, k - 1); }
  }

  // The two ways write the same.

  // Writing s from x to y writes v from f(x) to f(y).
  predicate CopiesAt(s: bytes, v: units, f: nat -> nat, good: nat -> bool, b: bytes, x: nat, y: nat) {
    good(x) && good(y) && x <= y ==>
      y <= |s| && f(x) <= f(y) <= |v| && WithStr(b, s[x..y]) == WithUnits(b, v[f(x)..f(y)])
  }

  ghost predicate Copies(s: bytes, v: units, f: nat -> nat, good: nat -> bool) {
    && good(0) && f(0) == 0 && good(|s|) && f(|s|) == |v|
    && forall b: bytes, x: nat, y: nat :: CopiesAt(s, v, f, good, b, x, y)
  }

  lemma {:induction false} SameParts(s: bytes, v: units, f: nat -> nat, good: nat -> bool, b: bytes, t: seq<Part>, pos: nat, m: nat)
    requires Copies(s, v, f, good) && pos + m <= |s| && good(pos) && good(pos + m) && f(pos + m) == f(pos) + m
    ensures f(pos) + m <= |v|
    ensures WritePartsBytes(b, t, s, pos, m) == WriteParts(b, t, v, f(pos), m)
    decreases |t|
  {
    hide First, EndsHigh, StartsLow, WithStr, WithUnits, Units;
    assert CopiesAt(s, v, f, good, b, pos, pos + m);
    if t != [] {
      assert CopiesAt(s, v, f, good, b, 0, pos);
      assert CopiesAt(s, v, f, good, b, pos + m, |s|);
      assert s[..pos] == s[0..pos] && v[..f(pos)] == v[0..f(pos)];
      assert s[pos + m..] == s[pos + m..|s|] && v[f(pos) + m..] == v[f(pos) + m..|v|];
      assert WritePartBytes(b, t[0], s, pos, m) == WritePart(b, t[0], v, f(pos), m);
      SameParts(s, v, f, good, WritePart(b, t[0], v, f(pos), m), t[1..], pos, m);
    }
  }

  lemma {:induction false} SameMatch(s: bytes, v: units, f: nat -> nat, good: nat -> bool, b: bytes, t: seq<Part>,
      pos: nat, m: nat, end: nat)
    requires Copies(s, v, f, good) && end <= pos && pos + m <= |s|
    requires good(end) && good(pos) && good(pos + m) && f(pos + m) == f(pos) + m
    ensures f(end) <= f(pos) && f(pos) + m <= |v|
    ensures WritePartsBytes(WithStr(b, s[end..pos]), t, s, pos, m) == WriteParts(WithUnits(b, v[f(end)..f(pos)]), t, v, f(pos), m)
  {
    hide First, EndsHigh, StartsLow, WithStr, WithUnits, Units;
    assert CopiesAt(s, v, f, good, b, end, pos);
    SameParts(s, v, f, good, WithStr(b, s[end..pos]), t, pos, m);
  }

  predicate GoodMatches(at: seq<nat>, m: nat, f: nat -> nat, good: nat -> bool) {
    forall k :: 0 <= k < |at| ==> good(at[k]) && good(at[k] + m) && f(at[k] + m) == f(at[k]) + m
  }

  lemma {:induction false} SameEnd(s: bytes, v: units, f: nat -> nat, good: nat -> bool, b: bytes, end: nat)
    requires Copies(s, v, f, good) && good(end) && end <= |s| && f(end) <= |v|
    ensures WithStr(b, s[end..]) == WithUnits(b, v[f(end)..])
  {
    hide WithStr, WithUnits, Units;
    assert CopiesAt(s, v, f, good, b, end, |s|);
    assert s[end..] == s[end..|s|] && v[f(end)..] == v[f(end)..|v|];
  }

  lemma {:induction false} SameReplaced(s: bytes, v: units, f: nat -> nat, good: nat -> bool, b: bytes,
      at: seq<nat>, m: nat, t: seq<Part>, end: nat)
    requires Copies(s, v, f, good) && good(end) && GoodMatches(at, m, f, good)
    requires Fit(|s|, at, m, end) && f(end) <= |v| && Fit(|v|, Map(f, at), m, f(end))
    ensures ReplacedBytes(b, s, at, m, t, end) == Replaced(b, v, Map(f, at), m, t, f(end))
    decreases |at|
  {
    hide First, EndsHigh, StartsLow, WithStr, WithUnits, Units, Copies, CopiesAt, WriteParts, WritePartsBytes;
    if at == [] {
      SameEnd(s, v, f, good, b, end);
    } else {
      var pos := at[0];
      SameMatch(s, v, f, good, b, t, pos, m, end);
      assert Map(f, at)[1..] == Map(f, at[1..]);
      SameReplaced(s, v, f, good, WritePartsBytes(WithStr(b, s[end..pos]), t, s, pos, m), at[1..], m, t, pos + m);
    }
  }

  lemma {:induction false} WritesPiece(s: bytes, b: bytes, x: nat, y: nat)
    requires Canonical(s) && Edge(s, x) && Edge(s, y) && x <= y
    ensures Offset(s, x) <= Offset(s, y) <= |Units(s)|
    ensures WithStr(b, s[x..y]) == WithUnits(b, Units(s)[Offset(s, x)..Offset(s, y)])
  {
    hide First, Boundary, Units, CanonicalAfter;
    EdgeIsBoundary(s, x);
    EdgeIsBoundary(s, y);
    Piece(s, x, y);
    CanonicalPiece(s, x, y);
    StrIsItsUnits(b, s[x..y]);
  }

  lemma {:induction false} EdgesCopy(s: bytes)
    requires Canonical(s)
    ensures Copies(s, Units(s), OffsetIn(s), EdgeOf(s))
  {
    hide First, Boundary, Units, CanonicalAfter;
    Ends(s);
    forall b: bytes, x: nat, y: nat
      ensures CopiesAt(s, Units(s), OffsetIn(s), EdgeOf(s), b, x, y)
    {
      if Edge(s, x) && Edge(s, y) && x <= y { WritesPiece(s, b, x, y); }
    }
  }

  lemma {:induction false} MatchesAreGood(s: bytes, w: bytes, at: seq<nat>)
    requires Pattern(w) && AreMatches(s, w, 0, at)
    ensures GoodMatches(at, |w|, OffsetIn(s), EdgeOf(s))
  {
    hide First, Boundary, Units, CanonicalAfter;
    forall k | 0 <= k < |at|
      ensures Edge(s, at[k]) && Edge(s, at[k] + |w|) && OffsetIn(s)(at[k] + |w|) == OffsetIn(s)(at[k]) + |w|
    {
      MatchAt(s, w, at[k]);
      MatchHasEdges(s, w, at[k]);
    }
  }

  /** Replacing an ASCII pattern's matches in the bytes writes what replacing
      them in the code units does, whatever the template. */
  lemma {:induction false} BytesReplaceAsUnits(s: bytes, w: bytes, t: seq<Part>)
    requires Canonical(s) && Pattern(w)
    ensures Fit(|s|, Cuts(s, w, 0), |w|, 0) && Fit(|Units(s)|, Cuts(Units(s), w, 0), |w|, 0)
    ensures ReplacedBytes([], s, Cuts(s, w, 0), |w|, t, 0) == Replaced([], Units(s), Cuts(Units(s), w, 0), |w|, t, 0)
  {
    hide First, Boundary, Units, CanonicalAfter;
    CutsAreMatches(s, w, 0);
    CutsFit(s, w, 0, 0);
    CutsFit(Units(s), w, 0, 0);
    MatchesAreGood(s, w, Cuts(s, w, 0));
    SameCuts(s, w);
    EdgesCopy(s);
    SameReplaced(s, Units(s), OffsetIn(s), EdgeOf(s), [], Cuts(s, w, 0), |w|, t, 0);
  }

  // replaceAll on the code units of any string and pattern.
  function ReplaceAll(s: bytes, v: units, w: units, t: seq<Part>): bytes {
    CutsFit(v, w, 0, 0);
    if Cuts(v, w, 0) == [] then s else Replaced([], v, Cuts(v, w, 0), |w|, t, 0)
  }

  lemma CutsAppend(v: seq<int>, w: seq<int>, done: seq<nat>, from: nat, i: nat)
    requires i == Index(v, w, from)
    ensures done + Cuts(v, w, from) == (done + [i]) + Cuts(v, w, i + Step(w))
  {
    CutsFrom(v, w, from, i);
  }

  method Positions(v: seq<int>, w: seq<int>) returns (at: seq<nat>)
    ensures at == Cuts(v, w, 0)
  {
    at := [];
    var from: nat := 0;
    while true
      invariant Cuts(v, w, 0) == at + Cuts(v, w, from) && from <= |v| + 1
      decreases |v| + 1 - from
    {
      var i := IndexOf(v, w, from);
      FirstIsIndex(v, w, from, i);
      if i < 0 {
        CutsFrom(v, w, from, i);
        return;
      }
      CutsAppend(v, w, at, from, i);
      at := at + [i];
      from := i + Step(w);
    }
  }

  // What GetSubstitution makes of every match at these places.
  predicate ReplacedAt(s: bytes, pattern: bytes, replacement: bytes, at: seq<nat>, r: Option<bytes>) {
    var v, m := Units(s), |Units(pattern)|;
    && Fit(|v|, at, m, 0)
    && (r.None? <==> at != [] && |Filled(v, at, m, Units(replacement), 0)| > STRING_LIMIT)
    && (r.Some? && Canonical(s) && Canonical(replacement) ==>
          Canonical(r.value) && Units(r.value) == Filled(v, at, m, Units(replacement), 0))
  }

  /** StrReplaceAll: every match replaced, as the code units have them, or the
      RangeError for more code units than V8 allows. */
  method StrReplaceAll(s: bytes, pattern: bytes, replacement: bytes) returns (r: Option<bytes>)
    ensures r.None? <==> TooLong(Units(s), Units(pattern), Template(replacement))
    ensures r.Some? ==> r.value == ReplaceAll(s, Units(s), Units(pattern), Template(replacement))
    ensures forall at :: AllMatches(Units(s), Units(pattern), at) ==> ReplacedAt(s, pattern, replacement, at, r)
  {
    hide First, Boundary, Units, CanonicalAfter, Edge, Offset, ReplacedAt, AllMatches;
    var t := ParseTemplate(replacement);
    var ascii := IsAscii(pattern);
    var canonical := IsCanonical(s);
    if pattern != [] && ascii && canonical {
      AsciiIsItsUnits(pattern);
      SameCuts(s, pattern);
      BytesReplaceAsUnits(s, pattern, t);
      CutsAreMatches(s, pattern, 0);
      MatchesAreGood(s, pattern, Cuts(s, pattern, 0));
      var positions := Positions(s, pattern);
      if positions == [] {
        r := Some(s);
      } else {
        WholeIsEdges(s);
        r := ReplaceAscii(s, |pattern|, positions, t);
      }
    } else {
      var v := ToUnits(s);
      var w := ToUnits(pattern);
      var positions := Positions(v, w);
      if positions == [] {
        r := Some(s);
      } else {
        CutsFit(v, w, 0, 0);
        r := ReplaceAt(v, |w|, positions, t);
      }
    }
    forall at | AllMatches(Units(s), Units(pattern), at)
      ensures ReplacedAt(s, pattern, replacement, at, r)
    {
      ReplaceAllMeans(s, pattern, replacement, at, r);
    }
  }

  predicate TooLong(v: units, w: units, t: seq<Part>) {
    CutsFit(v, w, 0, 0);
    Cuts(v, w, 0) != [] && |ReplacedUnits(v, Cuts(v, w, 0), |w|, t, 0)| > STRING_LIMIT
  }

  // What the result means.

  function ReplacedUnits(v: units, at: seq<nat>, m: nat, t: seq<Part>, end: nat): units
    requires Fit(|v|, at, m, end)
    decreases |at|
  {
    if at == [] then v[end..]
    else v[end..at[0]] + PartsUnits(t, v, at[0], m) + ReplacedUnits(v, at[1..], m, t, at[0] + m)
  }

  lemma {:induction false} PartsAreTheirUnits(b: bytes, t: seq<Part>, v: units, pos: nat, m: nat)
    requires Texts(t) && pos + m <= |v|
    ensures WriteParts(b, t, v, pos, m) == WithUnits(b, PartsUnits(t, v, pos, m))
    decreases |t|
  {
    hide First, EndsHigh, StartsLow, WithStr, Units;
    if t != [] {
      if t[0].Text? { StrIsItsUnits(b, t[0].s); }
      PartsAreTheirUnits(WritePart(b, t[0], v, pos, m), t[1..], v, pos, m);
      WithUnitsAppend(b, PartUnits(t[0], v, pos, m), PartsUnits(t[1..], v, pos, m));
    }
  }

  lemma {:induction false} ReplacedIsItsUnits(b: bytes, v: units, at: seq<nat>, m: nat, t: seq<Part>, end: nat)
    requires Texts(t) && Fit(|v|, at, m, end)
    ensures Replaced(b, v, at, m, t, end) == WithUnits(b, ReplacedUnits(v, at, m, t, end))
    decreases |at|
  {
    hide First, EndsHigh, StartsLow, WithStr, WithUnits, Units;
    if at != [] {
      var first, mid := v[end..at[0]], PartsUnits(t, v, at[0], m);
      var rest := ReplacedUnits(v, at[1..], m, t, at[0] + m);
      var b' := WithUnits(b, first);
      PartsAreTheirUnits(b', t, v, at[0], m);
      ReplacedIsItsUnits(WithUnits(b', mid), v, at[1..], m, t, at[0] + m);
      WithUnitsAppend(b, first, mid);
      WithUnitsAppend(b, first + mid, rest);
    }
  }

  lemma {:induction false} ReplacedIsFilled(v: units, at: seq<nat>, m: nat, r: bytes, end: nat)
    requires Fit(|v|, at, m, end)
    ensures ReplacedUnits(v, at, m, Template(r), end) == Filled(v, at, m, Units(r), end)
    decreases |at|
  {
    hide Units, Template, Substituted;
    if at != [] {
      TemplateSubstitutes(r, v, at[0], m);
      ReplacedIsFilled(v, at[1..], m, r, at[0] + m);
    }
  }

  lemma {:induction false} CanonicalReplaced(s: bytes, v: units, w: units, replacement: bytes)
    requires Canonical(s) && Canonical(replacement) && v == Units(s)
    ensures Fit(|v|, Cuts(v, w, 0), |w|, 0)
    ensures ReplaceAll(s, v, w, Template(replacement)) == Spell(ReplacedUnits(v, Cuts(v, w, 0), |w|, Template(replacement), 0))
  {
    hide First, Boundary, Units, CanonicalAfter;
    var t := Template(replacement);
    TemplateReads(replacement);
    CutsFit(v, w, 0, 0);
    ReplacedIsItsUnits([], v, Cuts(v, w, 0), |w|, t, 0);
    if Cuts(v, w, 0) == [] {
      assert v[0..] == v;
      Bijection(s, []);
    }
  }

  /** What replaceAll makes is, in code units, what lies between the matches
      and, for each, what section 22.1.3.19.1 of ECMA-262 puts for it; it is
      refused exactly when that is longer than V8 allows. */
  lemma {:induction false} ReplaceAllMeans(s: bytes, pattern: bytes, replacement: bytes, at: seq<nat>, r: Option<bytes>)
    requires AllMatches(Units(s), Units(pattern), at)
    requires r.None? <==> TooLong(Units(s), Units(pattern), Template(replacement))
    requires r.Some? ==> r.value == ReplaceAll(s, Units(s), Units(pattern), Template(replacement))
    ensures ReplacedAt(s, pattern, replacement, at, r)
  {
    hide First, Boundary, Units, CanonicalAfter, Template, ReplaceAll, ReplacedUnits, Filled, Cuts, Spell;
    var v, w := Units(s), Units(pattern);
    CutsAreAllMatches(v, w, at);
    ReplacedIsFilled(v, at, |w|, replacement, 0);
    if Canonical(s) && Canonical(replacement) {
      CanonicalReplaced(s, v, w, replacement);
      SpellMeans(Filled(v, at, |w|, Units(replacement), 0));
    }
  }
}
