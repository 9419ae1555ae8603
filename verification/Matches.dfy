/**
  What split and replaceAll are to do, told from the code units: which matches
  are taken, what lies between them, and what a replacement puts for each
  (sections 22.1.3.19.1, 22.1.3.20 and 22.1.3.23 of ECMA-262).
*/
module Matches {
  import opened Wtf8

  predicate HoldsAt(v: seq<int>, w: seq<int>, i: int) { 0 <= i <= |v| - |w| && v[i..i + |w|] == w }

  // i is where a match in at begins, or inside one.
  predicate Covered(at: seq<nat>, m: nat, i: int) {
    exists k :: 0 <= k < |at| && (i == at[k] || at[k] < i < at[k] + m)
  }

  /** at is w's matches in v, from left to right, none overlapping another and
      none left out but for overlapping one taken. */
  predicate AllMatches(v: seq<int>, w: seq<int>, at: seq<nat>) {
    && (forall k :: 0 <= k < |at| ==> HoldsAt(v, w, at[k]))
    && (forall j, k :: 0 <= j < k < |at| ==> at[j] < at[k] && at[j] + |w| <= at[k])
    && (forall i :: 0 <= i <= |v| && HoldsAt(v, w, i) ==> Covered(at, |w|, i))
  }

  // Matches of m units at the places at, in order and apart, from end on.
  predicate Fit(n: nat, at: seq<nat>, m: nat, end: nat)
    decreases |at|
  {
    if at == [] then end <= n else end <= at[0] && at[0] + m <= n && Fit(n, at[1..], m, at[0] + m)
  }

  lemma {:induction false} AllMatchesFit(v: seq<int>, w: seq<int>, at: seq<nat>, end: nat)
    requires forall k :: 0 <= k < |at| ==> HoldsAt(v, w, at[k])
    requires forall j, k :: 0 <= j < k < |at| ==> at[j] + |w| <= at[k]
    requires end <= |v| && (at != [] ==> end <= at[0])
    ensures Fit(|v|, at, |w|, end)
    decreases |at|
  {
    if at != [] {
      assert HoldsAt(v, w, at[0]);
      AllMatchesFit(v, w, at[1..], at[0] + |w|);
    }
  }

  // What lies between them.
  function Between(v: units, at: seq<nat>, m: nat, end: nat): (pieces: seq<units>)
    requires Fit(|v|, at, m, end)
    ensures |pieces| == |at| + 1
    decreases |at|
  {
    if at == [] then [v[end..]] else [v[end..at[0]]] + Between(v, at[1..], m, at[0] + m)
  }

  // The second unit of a pattern.
  predicate Special(c: int) { c == '$' as int || c == '&' as int || c == '`' as int || c == '\'' as int }

  /** GetSubstitution, with no captures: $$ is a dollar, $& what matched, $` what
      is before it and $' what is after it; everything else is itself. */
  function Substituted(r: units, matched: units, before: units, after: units): units {
    if r == [] then []
    else if |r| >= 2 && r[0] == '$' as int && Special(r[1]) then
      (if r[1] == '$' as int then ['$' as int]
       else if r[1] == '&' as int then matched
       else if r[1] == '`' as int then before
       else after) + Substituted(r[2..], matched, before, after)
    else [r[0]] + Substituted(r[1..], matched, before, after)
  }

  /** v with every match of m units replaced as r says. */
  function Filled(v: units, at: seq<nat>, m: nat, r: units, end: nat): units
    requires Fit(|v|, at, m, end)
    decreases |at|
  {
    if at == [] then v[end..] else
    var i := at[0];
    v[end..i] + Substituted(r, v[i..i + m], v[..i], v[i + m..]) + Filled(v, at[1..], m, r, i + m)
  }
}
