/**
  What a function touches through all it refers to (lower/race.go): each
  callable's own uses, and those of what it references, folded in until
  nothing changes.
*/
module RaceRule {
  import opened Options

  // A use of a shared binding; about is what a report says of it.
  datatype Use = Use(binding: nat, write: bool, about: int)

  // refs[c] is what callable c references; own[c] what it touches itself.
  datatype Program = Program(own: seq<seq<Use>>, refs: seq<seq<nat>>)

  predicate Valid(p: Program) {
    |p.own| == |p.refs| && forall c, k :: 0 <= c < |p.refs| && 0 <= k < |p.refs[c]| ==> p.refs[c][k] < |p.own|
  }

  predicate Touches(uses: seq<Use>, b: nat) { exists k :: 0 <= k < |uses| && uses[k].binding == b }

  predicate Writes(uses: seq<Use>, b: nat) { exists k :: 0 <= k < |uses| && uses[k].binding == b && uses[k].write }

  // Calls of calls.

  predicate IsPath(p: Program, path: seq<nat>)
    requires Valid(p)
  {
    && path != [] && (forall k :: 0 <= k < |path| ==> path[k] < |p.own|)
    && (forall k :: 0 <= k < |path| - 1 ==> path[k + 1] in p.refs[path[k]])
  }

  ghost predicate Reaches(p: Program, c: nat, d: nat)
    requires Valid(p)
  {
    exists path :: IsPath(p, path) && path[0] == c && path[|path| - 1] == d
  }

  // What running c may touch, and write.
  ghost predicate MayTouch(p: Program, c: nat, b: nat)
    requires Valid(p)
  {
    exists d :: 0 <= d < |p.own| && Reaches(p, c, d) && Touches(p.own[d], b)
  }

  ghost predicate MayWrite(p: Program, c: nat, b: nat)
    requires Valid(p)
  {
    exists d :: 0 <= d < |p.own| && Reaches(p, c, d) && Writes(p.own[d], b)
  }

  lemma {:induction false} ReachesSelf(p: Program, c: nat)
    requires Valid(p) && c < |p.own|
    ensures Reaches(p, c, c)
  {
    assert IsPath(p, [c]);
  }

  lemma {:induction false} ReachesOver(p: Program, c: nat, r: nat, d: nat)
    requires Valid(p) && c < |p.own| && r in p.refs[c] && Reaches(p, r, d)
    ensures Reaches(p, c, d)
  {
    var path :| IsPath(p, path) && path[0] == r && path[|path| - 1] == d;
    assert IsPath(p, [c] + path);
  }

  // mergeUse, as a function: the first use of the binding accounts for u, or
  // u is added.
  function Merged(uses: seq<Use>, u: Use): (r: seq<Use>)
    decreases |uses|
  {
    if uses == [] then [u]
    else if uses[0].binding == u.binding then [uses[0].(write := uses[0].write || u.write)] + uses[1..]
    else [uses[0]] + Merged(uses[1..], u)
  }

  lemma {:induction false} MergedHolds(uses: seq<Use>, u: Use, b: nat)
    ensures Touches(Merged(uses, u), b) <==> Touches(uses, b) || b == u.binding
    ensures Writes(Merged(uses, u), b) <==> Writes(uses, b) || (b == u.binding && u.write)
    decreases |uses|
  {
    if uses == [] {
      assert Merged(uses, u)[0] == u;
    } else if uses[0].binding == u.binding {
      HoldsCons(uses[0].(write := uses[0].write || u.write), uses[1..], b);
      HoldsCons(uses[0], uses[1..], b);
      assert uses == [uses[0]] + uses[1..];
    } else {
      MergedHolds(uses[1..], u, b);
      HoldsCons(uses[0], Merged(uses[1..], u), b);
      HoldsCons(uses[0], uses[1..], b);
      assert uses == [uses[0]] + uses[1..];
    }
  }

  lemma {:induction false} HoldsCons(u: Use, uses: seq<Use>, b: nat)
    ensures Touches([u] + uses, b) <==> u.binding == b || Touches(uses, b)
    ensures Writes([u] + uses, b) <==> (u.binding == b && u.write) || Writes(uses, b)
  {
    var all := [u] + uses;
    assert all[0] == u && forall k :: 0 <= k < |uses| ==> all[k + 1] == uses[k];
    if Touches(uses, b) { var k :| 0 <= k < |uses| && uses[k].binding == b; assert all[k + 1].binding == b; }
    if Writes(uses, b) { var k :| 0 <= k < |uses| && uses[k].binding == b && uses[k].write; assert all[k + 1] == uses[k]; }
  }

  lemma {:induction false} MergedAt(uses: seq<Use>, u: Use, i: nat)
    requires i <= |uses| && forall k :: 0 <= k < i ==> uses[k].binding != u.binding
    ensures Merged(uses, u) == uses[..i] + Merged(uses[i..], u)
    decreases i
  {
    if i > 0 {
      MergedAt(uses[1..], u, i - 1);
      assert uses[1..][i - 1..] == uses[i..] && uses[..i] == [uses[0]] + uses[1..][..i - 1];
    } else {
      assert uses[0..] == uses;
    }
  }

  lemma {:induction false} MergedFound(uses: seq<Use>, u: Use, i: nat)
    requires i < |uses| && uses[i].binding == u.binding && forall k :: 0 <= k < i ==> uses[k].binding != u.binding
    ensures Merged(uses, u) == uses[i := uses[i].(write := uses[i].write || u.write)]
  {
    MergedAt(uses, u, i);
    assert uses[i..][0] == uses[i] && uses[i..][1..] == uses[i + 1..];
  }

  /** mergeUse: u recorded, keeping the stronger kind, and whether that changed
      anything. */
  method MergeUse(uses: seq<Use>, u: Use) returns (r: seq<Use>, changed: bool)
    ensures r == Merged(uses, u)
    ensures !changed ==> r == uses && Touches(uses, u.binding) && (u.write ==> Writes(uses, u.binding))
    ensures changed ==> Lower(r, uses)
  {
    hide Merged, Lower;
    for i := 0 to |uses|
      invariant forall k :: 0 <= k < i ==> uses[k].binding != u.binding
    {
      if uses[i].binding == u.binding {
        MergedFound(uses, u, i);
        if u.write && !uses[i].write {
          WriteLowers(uses, i);
          return uses[i := uses[i].(write := true)], true;
        }
        assert uses[i := uses[i].(write := uses[i].write || u.write)] == uses;
        return uses, false;
      }
    }
    MergedNew(uses, u);
    AddLowers(uses, u);
    return uses + [u], true;
  }

  lemma {:induction false} MergedNew(uses: seq<Use>, u: Use)
    requires forall k :: 0 <= k < |uses| ==> uses[k].binding != u.binding
    ensures Merged(uses, u) == uses + [u]
  {
    MergedAt(uses, u, |uses|);
    assert uses[|uses|..] == [];
  }

  // What there is still to find: bindings not touched, twice, and touches that
  // are not yet writes.

  function Bindings(uses: seq<Use>): set<nat> { set k | 0 <= k < |uses| :: uses[k].binding }

  function Reads(uses: seq<Use>): nat { if uses == [] then 0 else Reads(uses[..|uses| - 1]) + if uses[|uses| - 1].write then 0 else 1 }

  ghost predicate Lower(r: seq<Use>, uses: seq<Use>) {
    || (Bindings(r) == Bindings(uses) && Reads(r) < Reads(uses))
    || (exists b :: b !in Bindings(uses) && Bindings(r) == Bindings(uses) + {b} && Reads(r) <= Reads(uses) + 1)
  }

  lemma {:induction false} WriteLowers(uses: seq<Use>, i: nat)
    requires i < |uses| && !uses[i].write
    ensures Lower(uses[i := uses[i].(write := true)], uses)
  {
    var r := uses[i := uses[i].(write := true)];
    assert forall k :: 0 <= k < |uses| ==> r[k].binding == uses[k].binding;
    assert Bindings(r) == Bindings(uses) by {
      forall b
        ensures b in Bindings(r) <==> b in Bindings(uses)
      {
        if b in Bindings(r) { var k :| 0 <= k < |r| && r[k].binding == b; assert uses[k].binding == b; }
        if b in Bindings(uses) { var k :| 0 <= k < |r| && uses[k].binding == b; assert r[k].binding == b; }
      }
    }
    FewerReads(uses, i);
  }

  lemma {:induction false} FewerReads(uses: seq<Use>, i: nat)
    requires i < |uses| && !uses[i].write
    ensures Reads(uses[i := uses[i].(write := true)]) == Reads(uses) - 1
    decreases |uses|
  {
    var n := |uses| - 1;
    var r := uses[i := uses[i].(write := true)];
    if i < n {
      FewerReads(uses[..n], i);
      assert r[..n] == uses[..n][i := uses[i].(write := true)];
    } else {
      assert r[..n] == uses[..n];
    }
  }

  lemma {:induction false} AddLowers(uses: seq<Use>, u: Use)
    requires forall k :: 0 <= k < |uses| ==> uses[k].binding != u.binding
    ensures Lower(uses + [u], uses)
  {
    var r := uses + [u];
    assert r[..|uses|] == uses && r[|uses|] == u;
    assert u.binding !in Bindings(uses);
    assert Bindings(r) == Bindings(uses) + {u.binding} by {
      forall b
        ensures b in Bindings(r) <==> b in Bindings(uses) || b == u.binding
      {
        if b in Bindings(r) { var k :| 0 <= k < |r| && r[k].binding == b; assert k < |uses| ==> uses[k].binding == b; }
        if b in Bindings(uses) { var k :| 0 <= k < |uses| && uses[k].binding == b; assert r[k].binding == b; }
        if b == u.binding { assert r[|uses|].binding == b; }
      }
    }
  }

  function Universe(own: seq<seq<Use>>): set<nat> {
    if own == [] then {} else Bindings(own[0]) + Universe(own[1..])
  }

  lemma {:induction false} InUniverse(own: seq<seq<Use>>, c: nat)
    requires c < |own|
    ensures Bindings(own[c]) <= Universe(own)
    decreases |own|
  {
    if c > 0 { InUniverse(own[1..], c - 1); }
  }

  function Unfound(uses: seq<Use>, all: set<nat>): nat { 2 * |all - Bindings(uses)| + Reads(uses) }

  function AllUnfound(uses: seq<seq<Use>>, all: set<nat>): nat {
    if uses == [] then 0 else Unfound(uses[|uses| - 1], all) + AllUnfound(uses[..|uses| - 1], all)
  }

  lemma {:induction false} LowerFindsMore(r: seq<Use>, uses: seq<Use>, all: set<nat>)
    requires Lower(r, uses) && Bindings(r) <= all
    ensures Unfound(r, all) < Unfound(uses, all)
  {
    hide Bindings, Reads;
    if b :| b !in Bindings(uses) && Bindings(r) == Bindings(uses) + {b} && Reads(r) <= Reads(uses) + 1 {
      assert b in all;
      assert all - Bindings(uses) == (all - Bindings(r)) + {b};
    }
  }

  lemma {:induction false} OneFindsMore(uses: seq<seq<Use>>, c: nat, r: seq<Use>, all: set<nat>)
    requires c < |uses| && Unfound(r, all) < Unfound(uses[c], all)
    ensures AllUnfound(uses[c := r], all) < AllUnfound(uses, all)
    decreases |uses|
  {
    hide Unfound;
    var n := |uses| - 1;
    if c < n {
      OneFindsMore(uses[..n], c, r, all);
      assert uses[c := r][..n] == uses[..n][c := r];
    } else {
      assert uses[c := r][..n] == uses[..n];
    }
  }

  // What the fixpoint keeps: it holds what each callable touches itself, and
  // only what it may.

  ghost predicate Sound(p: Program, uses: seq<seq<Use>>)
    requires Valid(p)
  {
    && |uses| == |p.own|
    && (forall c, b :: 0 <= c < |uses| && Touches(uses[c], b) ==> MayTouch(p, c, b))
    && (forall c, b :: 0 <= c < |uses| && Writes(uses[c], b) ==> MayWrite(p, c, b))
  }

  ghost predicate Keeps(p: Program, uses: seq<seq<Use>>) {
    && |uses| == |p.own|
    && (forall c, b :: 0 <= c < |uses| && Touches(p.own[c], b) ==> Touches(uses[c], b))
    && (forall c, b :: 0 <= c < |uses| && Writes(p.own[c], b) ==> Writes(uses[c], b))
  }

  // Every use of r's is accounted for in c's.
  predicate Covers(uses: seq<Use>, of: seq<Use>) {
    forall k :: 0 <= k < |of| ==> Touches(uses, of[k].binding) && (of[k].write ==> Writes(uses, of[k].binding))
  }

  ghost predicate Settled(p: Program, uses: seq<seq<Use>>)
    requires Valid(p) && |uses| == |p.own|
  {
    forall c, k :: 0 <= c < |p.refs| && 0 <= k < |p.refs[c]| ==> Covers(uses[c], uses[p.refs[c][k]])
  }

  lemma {:induction false} MayThrough(p: Program, c: nat, r: nat, b: nat)
    requires Valid(p) && c < |p.own| && r in p.refs[c]
    ensures MayTouch(p, r, b) ==> MayTouch(p, c, b)
    ensures MayWrite(p, r, b) ==> MayWrite(p, c, b)
  {
    hide Reaches, Touches, Writes;
    if MayTouch(p, r, b) {
      var d :| 0 <= d < |p.own| && Reaches(p, r, d) && Touches(p.own[d], b);
      ReachesOver(p, c, r, d);
    }
    if MayWrite(p, r, b) {
      var d :| 0 <= d < |p.own| && Reaches(p, r, d) && Writes(p.own[d], b);
      ReachesOver(p, c, r, d);
    }
  }

  lemma {:induction false} MergeKeeps(p: Program, uses: seq<seq<Use>>, c: nat, r: nat, u: Use)
    requires Valid(p) && Sound(p, uses) && Keeps(p, uses) && c < |p.own| && r in p.refs[c]
    requires MayTouch(p, r, u.binding) && (u.write ==> MayWrite(p, r, u.binding))
    ensures var after := uses[c := Merged(uses[c], u)]; Sound(p, after) && Keeps(p, after)
  {
    hide MayTouch, MayWrite, Merged, Touches, Writes;
    var after := uses[c := Merged(uses[c], u)];
    forall b
      ensures Touches(after[c], b) <==> Touches(uses[c], b) || b == u.binding
      ensures Writes(after[c], b) <==> Writes(uses[c], b) || (b == u.binding && u.write)
    {
      MergedHolds(uses[c], u, b);
    }
    MayThrough(p, c, r, u.binding);
  }

  lemma {:induction false} UseIsSound(p: Program, uses: seq<seq<Use>>, r: nat, k: nat)
    requires Valid(p) && Sound(p, uses) && r < |uses| && k < |uses[r]|
    ensures MayTouch(p, r, uses[r][k].binding) && (uses[r][k].write ==> MayWrite(p, r, uses[r][k].binding))
  {
    hide MayTouch, MayWrite;
    assert Touches(uses[r], uses[r][k].binding) && (uses[r][k].write ==> Writes(uses[r], uses[r][k].binding));
  }

  lemma {:induction false} WithinUniverse(p: Program, uses: seq<seq<Use>>, c: nat)
    requires Valid(p) && Sound(p, uses) && c < |uses|
    ensures Bindings(uses[c]) <= Universe(p.own)
  {
    forall b | b in Bindings(uses[c])
      ensures b in Universe(p.own)
    {
      var k :| 0 <= k < |uses[c]| && uses[c][k].binding == b;
      assert Touches(uses[c], b);
      var d :| 0 <= d < |p.own| && Reaches(p, c, d) && Touches(p.own[d], b);
      InUniverse(p.own, d);
    }
  }

  lemma {:induction false} SettledReaches(p: Program, uses: seq<seq<Use>>, path: seq<nat>, b: nat)
    requires Valid(p) && Keeps(p, uses) && Settled(p, uses) && IsPath(p, path)
    ensures Touches(p.own[path[|path| - 1]], b) ==> Touches(uses[path[0]], b)
    ensures Writes(p.own[path[|path| - 1]], b) ==> Writes(uses[path[0]], b)
    decreases |path|
  {
    if |path| > 1 {
      assert IsPath(p, path[1..]);
      SettledReaches(p, uses, path[1..], b);
      var c, r := path[0], path[1];
      var k :| 0 <= k < |p.refs[c]| && p.refs[c][k] == r;
      assert Covers(uses[c], uses[r]);
      if Touches(uses[r], b) { var j :| 0 <= j < |uses[r]| && uses[r][j].binding == b; }
      if Writes(uses[r], b) { var j :| 0 <= j < |uses[r]| && uses[r][j].binding == b && uses[r][j].write; }
    }
  }

  // The least fixpoint.
  ghost predicate Exact(p: Program, uses: seq<seq<Use>>)
    requires Valid(p)
  {
    && |uses| == |p.own|
    && (forall c, b: nat :: 0 <= c < |uses| ==> (Touches(uses[c], b) <==> MayTouch(p, c, b)))
    && (forall c, b: nat :: 0 <= c < |uses| ==> (Writes(uses[c], b) <==> MayWrite(p, c, b)))
  }

  lemma {:induction false} MayIsFound(p: Program, uses: seq<seq<Use>>, c: nat, b: nat)
    requires Valid(p) && Keeps(p, uses) && Settled(p, uses) && c < |uses|
    ensures MayTouch(p, c, b) ==> Touches(uses[c], b)
    ensures MayWrite(p, c, b) ==> Writes(uses[c], b)
  {
    hide Touches, Writes, Covers, Settled, Keeps;
    if MayTouch(p, c, b) {
      var d :| 0 <= d < |p.own| && Reaches(p, c, d) && Touches(p.own[d], b);
      var path :| IsPath(p, path) && path[0] == c && path[|path| - 1] == d;
      SettledReaches(p, uses, path, b);
    }
    if MayWrite(p, c, b) {
      var d :| 0 <= d < |p.own| && Reaches(p, c, d) && Writes(p.own[d], b);
      var path :| IsPath(p, path) && path[0] == c && path[|path| - 1] == d;
      SettledReaches(p, uses, path, b);
    }
  }

  /** Once nothing changes, a callable has a use of a binding exactly when some
      callable it reaches touches it, and a write exactly when one writes it. */
  lemma {:induction false} SettledIsExact(p: Program, uses: seq<seq<Use>>)
    requires Valid(p) && Sound(p, uses) && Keeps(p, uses) && Settled(p, uses)
    ensures Exact(p, uses)
  {
    hide Touches, Writes, Settled, MayTouch, MayWrite;
    forall c, b: nat | 0 <= c < |uses|
      ensures Touches(uses[c], b) <==> MayTouch(p, c, b)
      ensures Writes(uses[c], b) <==> MayWrite(p, c, b)
    {
      MayIsFound(p, uses, c, b);
    }
  }

  class RaceChecker {
    const p: Program
    var uses: seq<seq<Use>>

    constructor (p: Program)
      requires Valid(p)
      ensures this.p == p && uses == p.own
    {
      this.p, uses := p, p.own;
    }

    ghost predicate Going()
      reads this
    {
      Valid(p) && Sound(p, uses) && Keeps(p, uses)
    }

    // One use of r's, merged into c's.
    method Merge(c: nat, r: nat, u: Use) returns (changed: bool)
      requires Going() && |uses| == |p.own| == |p.refs| && c < |p.own| && r in p.refs[c]
      requires MayTouch(p, r, u.binding) && (u.write ==> MayWrite(p, r, u.binding))
      modifies this
      ensures Going() && |uses| == |p.own| && forall d :: 0 <= d < |uses| && d != c ==> uses[d] == old(uses[d])
      ensures !changed ==> uses == old(uses) && Touches(uses[c], u.binding) && (u.write ==> Writes(uses[c], u.binding))
      ensures changed ==> AllUnfound(uses, Universe(p.own)) < AllUnfound(old(uses), Universe(p.own))
    {
      hide Keeps, Universe, AllUnfound, Lower, Merged, Touches, Writes, Unfound, MayTouch, MayWrite;
      MergeKeeps(p, uses, c, r, u);
      var merged: seq<Use>;
      merged, changed := MergeUse(uses[c], u);
      ghost var before := uses;
      uses := uses[c := merged];
      if changed {
        WithinUniverse(p, uses, c);
        LowerFindsMore(merged, before[c], Universe(p.own));
        OneFindsMore(before, c, merged, Universe(p.own));
      } else {
        assert uses == before;
      }
    }

    // One callable's reference, folded in.
    method Fold(c: nat, r: nat) returns (changed: bool)
      requires Going() && |uses| == |p.own| == |p.refs| && c < |p.own| && r in p.refs[c] && r < |p.own|
      modifies this
      ensures Going() && |uses| == |p.own|
      ensures !changed ==> uses == old(uses) && Covers(uses[c], uses[r])
      ensures AllUnfound(uses, Universe(p.own)) <= AllUnfound(old(uses), Universe(p.own))
      ensures changed ==> AllUnfound(uses, Universe(p.own)) < AllUnfound(old(uses), Universe(p.own))
    {
      hide Sound, Keeps, Universe, AllUnfound, Touches, Writes, MayTouch, MayWrite;
      changed := false;
      var of := uses[r];
      forall k | 0 <= k < |of|
        ensures MayTouch(p, r, of[k].binding) && (of[k].write ==> MayWrite(p, r, of[k].binding))
      {
        UseIsSound(p, uses, r, k);
      }
      for k := 0 to |of|
        invariant Going() && |uses| == |p.own| && (!changed ==> uses == old(uses))
        invariant !changed ==> forall j :: 0 <= j < k ==> Touches(uses[c], of[j].binding) && (of[j].write ==> Writes(uses[c], of[j].binding))
        invariant AllUnfound(uses, Universe(p.own)) <= AllUnfound(old(uses), Universe(p.own))
        invariant changed ==> AllUnfound(uses, Universe(p.own)) < AllUnfound(old(uses), Universe(p.own))
      {
        var merged := Merge(c, r, of[k]);
        if merged { changed := true; }
      }
    }

    // All a callable references, folded in.
    method FoldAll(c: nat) returns (changed: bool)
      requires Going() && |uses| == |p.own| == |p.refs| && c < |p.own|
      modifies this
      ensures Going() && |uses| == |p.own|
      ensures !changed ==> uses == old(uses) && forall k :: 0 <= k < |p.refs[c]| ==> p.refs[c][k] < |uses| && Covers(uses[c], uses[p.refs[c][k]])
      ensures AllUnfound(uses, Universe(p.own)) <= AllUnfound(old(uses), Universe(p.own))
      ensures changed ==> AllUnfound(uses, Universe(p.own)) < AllUnfound(old(uses), Universe(p.own))
    {
      hide Sound, Keeps, Universe, AllUnfound, Covers;
      changed := false;
      for k := 0 to |p.refs[c]|
        invariant Going() && |uses| == |p.own| && (!changed ==> uses == old(uses))
        invariant !changed ==> forall j :: 0 <= j < k ==> p.refs[c][j] < |uses| && Covers(uses[c], uses[p.refs[c][j]])
        invariant AllUnfound(uses, Universe(p.own)) <= AllUnfound(old(uses), Universe(p.own))
        invariant changed ==> AllUnfound(uses, Universe(p.own)) < AllUnfound(old(uses), Universe(p.own))
      {
        var folded := Fold(c, p.refs[c][k]);
        if folded { changed := true; }
      }
    }

    /** propagate: it ends, whatever the recursion, with the least fixpoint. */
    method Propagate()
      requires Valid(p) && uses == p.own
      modifies this
      ensures Exact(p, uses)
    {
      hide Sound, Keeps, Universe, AllUnfound, Covers, Exact;
      OwnIsSound(p);
      var changed := true;
      while changed
        invariant Going() && |uses| == |p.own| == |p.refs|
        invariant !changed ==> Settled(p, uses)
        decreases AllUnfound(uses, Universe(p.own)), changed
      {
        ghost var before := uses;
        changed := false;
        for c := 0 to |p.own|
          invariant Going() && |uses| == |p.own| == |p.refs| && (!changed ==> uses == before)
          invariant !changed ==> forall d, k :: 0 <= d < c && 0 <= k < |p.refs[d]| ==> Covers(uses[d], uses[p.refs[d][k]])
          invariant AllUnfound(uses, Universe(p.own)) <= AllUnfound(before, Universe(p.own))
          invariant changed ==> AllUnfound(uses, Universe(p.own)) < AllUnfound(before, Universe(p.own))
        {
          var folded := FoldAll(c);
          if folded { changed := true; }
        }
      }
      SettledIsExact(p, uses);
    }
  }

  lemma {:induction false} OwnIsSound(p: Program)
    requires Valid(p)
    ensures Sound(p, p.own) && Keeps(p, p.own)
  {
    hide Touches, Writes, Reaches;
    forall c | 0 <= c < |p.own|
      ensures Reaches(p, c, c)
    {
      ReachesSelf(p, c);
    }
  }

  // What the rule reports.

  /** strongest: the first write, else the first read, of none if there is none. */
  method Strongest(uses: seq<Use>) returns (u: Option<Use>)
    ensures u.None? <==> uses == []
    ensures u.Some? ==> u.value in uses && (u.value.write <==> exists k :: 0 <= k < |uses| && uses[k].write)
    ensures u.Some? ==> exists k :: 0 <= k < |uses| && uses[k] == u.value && (forall j :: 0 <= j < k ==> uses[j].write != u.value.write)
  {
    for k := 0 to |uses|
      invariant forall j :: 0 <= j < k ==> !uses[j].write
    {
      if uses[k].write { return Some(uses[k]); }
    }
    if |uses| > 0 { return Some(uses[0]); }
    u := None;
  }

  /** A function the rule accepts calls nothing that touches a shared binding. */
  lemma AcceptedTouchesNothing(p: Program, uses: seq<seq<Use>>, c: nat)
    requires Valid(p) && Exact(p, uses) && c < |uses|
    ensures uses[c] == [] <==> forall d :: 0 <= d < |p.own| && Reaches(p, c, d) ==> p.own[d] == []
  {
    hide Reaches;
    forall d | 0 <= d < |p.own| && Reaches(p, c, d) && p.own[d] != []
      ensures uses[c] != []
    {
      var b := p.own[d][0].binding;
      assert Touches(p.own[d], b);
      assert Touches(uses[c], b);
    }
    if uses[c] != [] {
      var b := uses[c][0].binding;
      assert Touches(uses[c], b);
    }
  }
}
