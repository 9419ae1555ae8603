/**
  Whatever step Go takes, what is left means the same: in an expression whose
  bare reads are all of stable bindings, as long as its looks are good, and in
  one that calls nothing below its root, whatever it reads.
*/
module OrderCorrect {
  import opened Options
  import opened OrderLanguage
  import opened OrderTarget
  import opened OrderWatch

  // Bare reads are of stable bindings; or, with quiet, nothing acts.
  predicate Fixed(p: Program, quiet: bool, g: GoExpr)
    decreases g, 0
  {
    match g
    case GVar(x) => quiet || p.stable(x)
    case GOp(_, _, args) => FixedAll(p, quiet, args)
    case GCall(_, args) => !quiet && FixedAll(p, quiet, args)
    case GGet(args) => FixedAll(p, quiet, args)
    case GField(obj, _) => quiet && Fixed(p, quiet, obj)
    case ReadFrom(obj, _) => Fixed(p, quiet, obj)
    case GLook(obj, _) => Fixed(p, quiet, obj)
    case GLogic(_, left, right) => Fixed(p, quiet, left) && Fixed(p, quiet, right)
    case GCond(test, yes, no) =>
      if quiet then Fixed(p, true, test) && Fixed(p, true, yes) && Fixed(p, true, no)
      else Ready(p, test) && Ready(p, yes) && Ready(p, no)
    case _ => true
  }

  predicate FixedAll(p: Program, quiet: bool, gs: GoExprs)
    decreases gs, 0
  {
    gs.GCons? ==> Fixed(p, quiet, gs.head) && FixedAll(p, quiet, gs.tail)
  }

  // A whole expression as full emits it.
  predicate Ready(p: Program, g: GoExpr)
    decreases g, 1
  {
    Fixed(p, false, g) || Fixed(p, true, g) || (g.GCall? && FixedAll(p, true, g.args))
  }

  // What a step keeps of what bare reads can see.
  ghost predicate Agree(p: Program, quiet: bool, s: State, t: State) {
    && (forall x: nat :: p.stable(x) ==> s.bindings(x) == t.bindings(x))
    && (quiet ==> s.bindings == t.bindings && s.fields == t.fields && s.tables == t.tables && s.elements == t.elements)
  }

  lemma HonestDo(p: Program, f: nat, vs: seq<int>, s: State)
    requires Honest(p)
    ensures HonestCall(p, s, Do(p, f, vs, s).s)
  {
    assert HonestCall(p, s, p.call(f, vs, s).1);
  }

  lemma {:induction false} RunAgrees(p: Program, quiet: bool, g: GoExpr, s: State)
    requires Honest(p) && (quiet ==> Fixed(p, true, g))
    ensures Agree(p, quiet, s, Run(p, g, s).s)
    decreases g
  {
    match g
    case GOp(_, _, args) => RunAllAgrees(p, quiet, args, s);
    case GCall(f, args) =>
      RunAllAgrees(p, quiet, args, s);
      var r := RunAll(p, args, s);
      HonestDo(p, f, r.vs, r.s);
    case GGet(args) => RunAllAgrees(p, quiet, args, s);
    case GField(obj, _) => RunAgrees(p, quiet, obj, s);
    case ReadFrom(obj, _) => RunAgrees(p, quiet, obj, s);
    case GLook(obj, _) => RunAgrees(p, quiet, obj, s);
    case GLogic(isOr, left, right) =>
      RunAgrees(p, quiet, left, s);
      RunAgrees(p, quiet, right, Run(p, left, s).s);
    case GCond(test, yes, no) =>
      RunAgrees(p, quiet, test, s);
      var t := Run(p, test, s);
      RunAgrees(p, quiet, if t.v != 0 then yes else no, t.s);
    case _ =>
  }

  lemma {:induction false} RunAllAgrees(p: Program, quiet: bool, gs: GoExprs, s: State)
    requires Honest(p) && (quiet ==> FixedAll(p, true, gs))
    ensures Agree(p, quiet, s, RunAll(p, gs, s).s)
    decreases gs
  {
    if gs.GCons? {
      RunAgrees(p, quiet, gs.head, s);
      RunAllAgrees(p, quiet, gs.tail, Run(p, gs.head, s).s);
    }
  }

  // With no call in it, an expression changes nothing, looks for nothing, and
  // gives the same wherever what it reads agrees.
  lemma {:induction false} MayWait(p: Program, quiet: bool, g: GoExpr, s: State, t: State)
    requires !HasCall(p, g) && Fixed(p, quiet, g) && Agree(p, quiet, s, t)
    ensures Run(p, g, s).v == Run(p, g, t).v && Run(p, g, s).s == s && !Called(p, g, s) && Changes(p, g, s) == []
    ensures Steady(p, g, s) && forall early :: Same(p, g, s, early)
    decreases g
  {
    match g
    case GOp(_, _, args) => AllMayWait(p, quiet, args, s, t);
    case GField(obj, _) =>
      MayWait(p, quiet, obj, s, t);
      MayWait(p, quiet, obj, t, s);
    case GLogic(isOr, left, right) =>
      MayWait(p, quiet, left, s, t);
      MayWait(p, quiet, left, t, s);
      MayWait(p, quiet, right, s, t);
    case _ =>
  }

  lemma {:induction false} AllMayWait(p: Program, quiet: bool, gs: GoExprs, s: State, t: State)
    requires !HasCallAny(p, gs) && FixedAll(p, quiet, gs) && Agree(p, quiet, s, t)
    ensures RunAll(p, gs, s).vs == RunAll(p, gs, t).vs && RunAll(p, gs, s).s == s && !CalledAny(p, gs, s) && ChangesAll(p, gs, s) == []
    ensures SteadyAll(p, gs, s) && forall early :: SameAll(p, gs, s, early)
    decreases gs
  {
    if gs.GCons? {
      MayWait(p, quiet, gs.head, s, t);
      MayWait(p, quiet, gs.head, t, s);
      AllMayWait(p, quiet, gs.tail, s, t);
    }
  }

  // Where nothing acts, the tables stand still, and every look is good.
  lemma {:induction false} QuietIsGood(p: Program, g: GoExpr, s: State, early: Tables)
    requires Honest(p) && Fixed(p, true, g)
    ensures Steady(p, g, s) && (early == s.tables ==> Same(p, g, s, early))
    ensures forall k :: 0 <= k < |Changes(p, g, s)| ==> Changes(p, g, s)[k] == s.tables
    decreases g
  {
    RunAgrees(p, true, g, s);
    match g
    case GOp(_, _, args) => QuietAreGood(p, args, s, early);
    case GGet(args) => QuietAreGood(p, args, s, early);
    case GField(obj, _) => QuietIsGood(p, obj, s, early);
    case ReadFrom(obj, _) => QuietIsGood(p, obj, s, early);
    case GLook(obj, _) => QuietIsGood(p, obj, s, early); RunAgrees(p, true, obj, s);
    case GLogic(_, left, right) =>
      RunAgrees(p, true, left, s);
      var r := Run(p, left, s);
      QuietIsGood(p, left, s, early);
      QuietIsGood(p, right, r.s, early);
      QuietIsGood(p, right, r.s, r.s.tables);
    case GCond(test, yes, no) =>
      RunAgrees(p, true, test, s);
      var r := Run(p, test, s);
      QuietIsGood(p, test, s, s.tables);
      QuietIsGood(p, if r.v != 0 then yes else no, r.s, r.s.tables);
    case _ =>
  }

  lemma {:induction false} QuietAreGood(p: Program, gs: GoExprs, s: State, early: Tables)
    requires Honest(p) && FixedAll(p, true, gs)
    ensures SteadyAll(p, gs, s) && (early == s.tables ==> SameAll(p, gs, s, early))
    ensures forall k :: 0 <= k < |ChangesAll(p, gs, s)| ==> ChangesAll(p, gs, s)[k] == s.tables
    decreases gs
  {
    if gs.GCons? {
      RunAgrees(p, true, gs.head, s);
      var r := Run(p, gs.head, s);
      QuietIsGood(p, gs.head, s, early);
      QuietAreGood(p, gs.tail, r.s, early);
      QuietAreGood(p, gs.tail, r.s, s.tables);
    }
  }

  // A step keeps the bare reads that are left as they were.
  lemma {:induction false} StepKeeps(p: Program, quiet: bool, g: GoExpr, s: State, at: At)
    requires Fixed(p, quiet, g) && Step(p, g, s, at).Some?
    ensures Fixed(p, quiet, Step(p, g, s, at).value.g)
    decreases AtSize(at), 0, 0
  {
    match g
    case GOp(_, _, args) => if !at.Here? { StepAllKeeps(p, quiet, args, s, at.i, at.at); }
    case GCall(_, args) => if !at.Here? { StepAllKeeps(p, quiet, args, s, at.i, at.at); }
    case GGet(args) => if !at.Here? { StepAllKeeps(p, quiet, args, s, at.i, at.at); }
    case GField(obj, _) => if !at.Here? { StepKeeps(p, quiet, obj, s, at.at); }
    case ReadFrom(obj, _) => if !at.Here? { StepKeeps(p, quiet, obj, s, at.at); }
    case GLook(obj, _) => if !at.Here? { StepKeeps(p, quiet, obj, s, at.at); }
    case GLogic(_, left, _) => if !at.Here? { StepKeeps(p, quiet, left, s, at.at); }
    case _ =>
  }

  lemma {:induction false} StepAllKeeps(p: Program, quiet: bool, gs: GoExprs, s: State, i: nat, at: At)
    requires FixedAll(p, quiet, gs) && StepAll(p, gs, s, i, at).Some?
    ensures FixedAll(p, quiet, StepAll(p, gs, s, i, at).value.gs)
    decreases AtSize(at), 1, i
  {
    if i == 0 { StepKeeps(p, quiet, gs.head, s, at); } else { StepAllKeeps(p, quiet, gs.tail, s, i - 1, at); }
  }

  // What a call keeps, and that nothing else changes the state.
  lemma {:induction false} StepAgrees(p: Program, quiet: bool, g: GoExpr, s: State, at: At)
    requires Honest(p) && Step(p, g, s, at).Some? && (quiet ==> Fixed(p, true, g))
    ensures var r := Step(p, g, s, at).value; Agree(p, quiet, s, r.s) && (!r.called ==> r.s == s)
    decreases AtSize(at), 0, 0
  {
    match g
    case GOp(_, _, args) => if !at.Here? { StepAllAgrees(p, quiet, args, s, at.i, at.at); }
    case GCall(f, args) =>
      if at.Here? { HonestDo(p, f, ValuesOf(args), s); } else { StepAllAgrees(p, quiet, args, s, at.i, at.at); }
    case GGet(args) => if !at.Here? { StepAllAgrees(p, quiet, args, s, at.i, at.at); }
    case GField(obj, _) => if !at.Here? { StepAgrees(p, quiet, obj, s, at.at); }
    case ReadFrom(obj, _) => if !at.Here? { StepAgrees(p, quiet, obj, s, at.at); }
    case GLook(obj, _) => if !at.Here? { StepAgrees(p, quiet, obj, s, at.at); }
    case GLogic(_, left, _) => if !at.Here? { StepAgrees(p, quiet, left, s, at.at); }
    case GCond(test, yes, no) =>
      StepsAgree(p, quiet, test, s, at.test);
      var t := After(p, test, s, at.test);
      if t.1.thrown.None? { StepsAgree(p, quiet, if t.0.v != 0 then yes else no, t.1, at.branch); }
    case _ =>
  }

  lemma {:induction false} StepAllAgrees(p: Program, quiet: bool, gs: GoExprs, s: State, i: nat, at: At)
    requires Honest(p) && StepAll(p, gs, s, i, at).Some? && (quiet ==> FixedAll(p, true, gs))
    ensures var r := StepAll(p, gs, s, i, at).value; Agree(p, quiet, s, r.s) && (!r.called ==> r.s == s)
    decreases AtSize(at), 1, i
  {
    if i == 0 { StepAgrees(p, quiet, gs.head, s, at); } else { StepAllAgrees(p, quiet, gs.tail, s, i - 1, at); }
  }

  lemma {:induction false} StepsAgree(p: Program, quiet: bool, g: GoExpr, s: State, steps: Steps)
    requires Honest(p) && Possible(p, g, s, steps) && (quiet ==> Fixed(p, true, g))
    ensures Agree(p, quiet, s, After(p, g, s, steps).1)
    decreases StepsSize(steps), 0, 0
  {
    if steps.Then? {
      StepAgrees(p, quiet, g, s, steps.at);
      if quiet { StepKeeps(p, true, g, s, steps.at); }
      var r := Step(p, g, s, steps.at).value;
      StepsAgree(p, quiet, r.g, r.s, steps.rest);
    }
  }

  // g may become g', a read of it made, when its turn is still to come at t.
  ghost predicate Reads(p: Program, g: GoExpr, g': GoExpr, t: State) {
    && Run(p, g', t) == Run(p, g, t) && Called(p, g', t) == Called(p, g, t) && Changes(p, g', t) == Changes(p, g, t)
  }

  ghost predicate ReadsAll(p: Program, gs: GoExprs, gs': GoExprs, t: State) {
    && RunAll(p, gs', t) == RunAll(p, gs, t) && CalledAny(p, gs', t) == CalledAny(p, gs, t)
    && ChangesAll(p, gs', t) == ChangesAll(p, gs, t)
  }

  // && or || with its left operand's value is that value, or its right.
  lemma {:induction false} Decided(p: Program, g: GoExpr, t: State)
    requires g.GLogic? && g.left.GLit?
    ensures var g' := if Decides(g.isOr, g.left.v) then g.left else g.right;
      && Run(p, g', t) == Run(p, g, t) && Changes(p, g', t) == Changes(p, g, t) && (p.ordered || Called(p, g', t) == Called(p, g, t))
      && (Steady(p, g, t) <==> Steady(p, g', t) && (!g'.GLit? ==> Same(p, g', t, t.tables)))
      && forall early :: !p.ordered && Same(p, g, t, early) ==> Same(p, g', t, early)
  {
    assert Run(p, g.left, t) == Result(g.left.v, t);
    assert Steady(p, g.left, t) && Changes(p, g.left, t) == [];
    if !Decides(g.isOr, g.left.v) {
      assert Good(p, g.right, t) <==> Steady(p, g.right, t) && Same(p, g.right, t, t.tables);
      assert g.right.GLit? ==> Same(p, g.right, t, t.tables);
    }
  }

  // A bare read made at s, or an operator's work, is as good as one in its turn.
  lemma {:induction false} ReadAnyTime(p: Program, quiet: bool, g: GoExpr, s: State, at: At, t: State)
    requires Honest(p) && Fixed(p, quiet, g) && Step(p, g, s, at).Some? && !Step(p, g, s, at).value.called
    requires Agree(p, quiet, s, t) && Same(p, g, t, s.tables)
    ensures var g' := Step(p, g, s, at).value.g;
      && Reads(p, g, g', t) && (Steady(p, g, t) ==> Steady(p, g', t))
      && forall early :: Same(p, g, t, early) ==> Same(p, g', t, early)
    decreases AtSize(at), 0, 0
  {
    match g
    case GOp(_, _, args) =>
      if at.Here? { ValuesRun(p, args, t); AllMayWait(p, quiet, args, t, t); } else { ReadsAnyTime(p, quiet, args, s, at.i, at.at, t); }
    case GCall(_, args) => ReadsAnyTime(p, quiet, args, s, at.i, at.at, t);
    case GGet(args) => ReadsAnyTime(p, quiet, args, s, at.i, at.at, t);
    case GField(obj, _) => if !at.Here? { ReadAnyTime(p, quiet, obj, s, at.at, t); }
    case ReadFrom(obj, _) => ReadAnyTime(p, quiet, obj, s, at.at, t);
    case GLook(obj, _) => if !at.Here? { ReadAnyTime(p, quiet, obj, s, at.at, t); }
    case GLogic(_, left, right) =>
      if at.Here? { Decided(p, g, t); } else { ReadAnyTime(p, quiet, left, s, at.at, t); }
    case _ =>
  }

  lemma {:induction false} ReadsAnyTime(p: Program, quiet: bool, gs: GoExprs, s: State, i: nat, at: At, t: State)
    requires Honest(p) && FixedAll(p, quiet, gs) && StepAll(p, gs, s, i, at).Some? && !StepAll(p, gs, s, i, at).value.called
    requires Agree(p, quiet, s, t) && SameAll(p, gs, t, s.tables)
    ensures var gs' := StepAll(p, gs, s, i, at).value.gs;
      && ReadsAll(p, gs, gs', t) && (SteadyAll(p, gs, t) ==> SteadyAll(p, gs', t))
      && forall early :: SameAll(p, gs, t, early) ==> SameAll(p, gs', t, early)
    decreases AtSize(at), 1, i
  {
    if i == 0 {
      ReadAnyTime(p, quiet, gs.head, s, at, t);
    } else {
      RunAgrees(p, quiet, gs.head, t);
      ReadsAnyTime(p, quiet, gs.tail, s, i - 1, at, Run(p, gs.head, t).s);
    }
  }

  // One of xs, or the tables of s.
  ghost predicate Among(early: Tables, s: State, xs: seq<Tables>) { early == s.tables || exists k :: 0 <= k < |xs| && xs[k] == early }

  // What does nothing Go orders changes nothing.
  lemma {:induction false} Uncalled(p: Program, g: GoExpr, s: State)
    requires !Called(p, g, s)
    ensures Run(p, g, s).s == s && Changes(p, g, s) == []
    decreases g
  {
    match g
    case GOp(_, _, args) => UncalledAll(p, args, s);
    case GField(obj, _) => Uncalled(p, obj, s);
    case GLogic(isOr, left, right) =>
      Uncalled(p, left, s);
      if !Decides(isOr, Run(p, left, s).v) { Uncalled(p, right, s); }
    case _ =>
  }

  lemma {:induction false} UncalledAll(p: Program, gs: GoExprs, s: State)
    requires !CalledAny(p, gs, s)
    ensures RunAll(p, gs, s).s == s && ChangesAll(p, gs, s) == []
    decreases gs
  {
    if gs.GCons? {
      Uncalled(p, gs.head, s);
      UncalledAll(p, gs.tail, s);
    }
  }

  // g, stepping from s by a call to g' at s', was to do just that next.
  ghost predicate Calls(p: Program, g: GoExpr, s: State, g': GoExpr, s': State) {
    && Run(p, g', s') == Run(p, g, s) && Called(p, g, s) && Among(s'.tables, s, Changes(p, g, s))
    && forall k :: 0 <= k < |Changes(p, g', s')| ==> Among(Changes(p, g', s')[k], s, Changes(p, g, s))
  }

  ghost predicate CallsAll(p: Program, gs: GoExprs, s: State, gs': GoExprs, s': State) {
    && RunAll(p, gs', s') == RunAll(p, gs, s) && CalledAny(p, gs, s) && Among(s'.tables, s, ChangesAll(p, gs, s))
    && forall k :: 0 <= k < |ChangesAll(p, gs', s')| ==> Among(ChangesAll(p, gs', s')[k], s, ChangesAll(p, gs, s))
  }

  lemma AmongMore(early: Tables, s: State, xs: seq<Tables>, ys: seq<Tables>)
    requires Among(early, s, xs)
    ensures Among(early, s, xs + ys)
  {
    if early != s.tables {
      var k :| 0 <= k < |xs| && xs[k] == early;
      assert (xs + ys)[k] == early;
    }
  }

  lemma AmongLast(early: Tables, s: State, xs: seq<Tables>)
    ensures Among(early, s, xs + [early])
  {
    assert (xs + [early])[|xs|] == early;
  }

  // More of the same after both.
  lemma AmongBoth(early: Tables, s: State, xs: seq<Tables>, xs': seq<Tables>, ys: seq<Tables>)
    requires forall k :: 0 <= k < |xs'| ==> Among(xs'[k], s, xs)
    ensures forall k :: 0 <= k < |xs' + ys| ==> Among((xs' + ys)[k], s, xs + ys)
  {
    forall k | 0 <= k < |xs' + ys|
      ensures Among((xs' + ys)[k], s, xs + ys)
    {
      if k < |xs'| { AmongMore(xs'[k], s, xs, ys); } else { assert (xs + ys)[|xs| + k - |xs'|] == (xs' + ys)[k]; }
    }
  }

  // A call is the first one left, and what is before it can wait.
  lemma {:induction false} CallComesFirst(p: Program, quiet: bool, g: GoExpr, s: State, at: At)
    requires Honest(p) && Fixed(p, quiet, g) && Step(p, g, s, at).Some? && Step(p, g, s, at).value.called && Good(p, g, s)
    ensures var r := Step(p, g, s, at).value; Calls(p, g, s, r.g, r.s) && Good(p, r.g, r.s)
    decreases AtSize(at), 0, 1
  {
    match g
    case GOp(_, _, args) =>
      if at.Here? { ValuesRun(p, args, s); } else { CallsComeFirst(p, quiet, args, s, at.i, at.at); }
    case GCall(_, args) =>
      var r := Step(p, g, s, at).value;
      if at.Here? {
        ValuesRun(p, args, s);
        AmongLast(r.s.tables, s, ChangesAll(p, args, s));
      } else {
        CallsComeFirst(p, quiet, args, s, at.i, at.at);
        CallAfter(p, g.f, args, s, r.g.args, r.s);
      }
    case GGet(args) =>
      if at.Here? { ValuesRun(p, args, s); } else { CallsComeFirst(p, quiet, args, s, at.i, at.at); }
    case ReadFrom(obj, _) => if !at.Here? { CallComesFirst(p, quiet, obj, s, at.at); }
    case GField(obj, _) => CallComesFirst(p, quiet, obj, s, at.at);
    case GLook(obj, _) => LookCalls(p, quiet, g, s, at);
    case GLogic(_, _, _) => LogicCalls(p, quiet, g, s, at);
    case GCond(_, _, _) =>
      LiteralMeans(p, g, s, at);
      assert Changes(p, g, s)[0] == Run(p, g, s).s.tables;
    case _ =>
  }

  lemma {:induction false} CallAfter(p: Program, f: nat, args: GoExprs, s: State, args': GoExprs, s': State)
    requires CallsAll(p, args, s, args', s')
    ensures Calls(p, GCall(f, args), s, GCall(f, args'), s')
  {
    var end := Run(p, GCall(f, args), s).s.tables;
    AmongMore(s'.tables, s, ChangesAll(p, args, s), [end]);
    AmongBoth(s'.tables, s, ChangesAll(p, args, s), ChangesAll(p, args', s'), [end]);
  }

  lemma {:induction false} LookCalls(p: Program, quiet: bool, g: GoExpr, s: State, at: At)
    requires g.GLook?
    requires Honest(p) && Fixed(p, quiet, g) && Step(p, g, s, at).Some? && Step(p, g, s, at).value.called && Good(p, g, s)
    ensures var r := Step(p, g, s, at).value; Calls(p, g, s, r.g, r.s) && Good(p, r.g, r.s)
    decreases AtSize(at), 0, 0
  {
    CallComesFirst(p, quiet, g.obj, s, at.at);
    var r := Step(p, g.obj, s, at.at).value;
    if !Called(p, r.g, r.s) { Uncalled(p, r.g, r.s); }
  }

  lemma {:induction false} LogicCalls(p: Program, quiet: bool, g: GoExpr, s: State, at: At)
    requires g.GLogic?
    requires Honest(p) && Fixed(p, quiet, g) && Step(p, g, s, at).Some? && Step(p, g, s, at).value.called && Good(p, g, s)
    ensures var r := Step(p, g, s, at).value; Calls(p, g, s, r.g, r.s) && Good(p, r.g, r.s)
    decreases AtSize(at), 0, 0
  {
    if at.Here? {
      Decided(p, g, s);
    } else {
      CallComesFirst(p, quiet, g.left, s, at.at);
      var r := Step(p, g.left, s, at.at).value;
      var end := Run(p, g.left, s);
      var rest := if Decides(g.isOr, end.v) then [] else Changes(p, g.right, end.s);
      AmongMore(r.s.tables, s, Changes(p, g.left, s), rest);
      AmongBoth(r.s.tables, s, Changes(p, g.left, s), Changes(p, r.g, r.s), rest);
      if !Called(p, r.g, r.s) { Uncalled(p, r.g, r.s); }
      assert Decides(g.isOr, end.v) || Good(p, g.right, end.s);
    }
  }

  lemma {:induction false} CallsComeFirst(p: Program, quiet: bool, gs: GoExprs, s: State, i: nat, at: At)
    requires Honest(p) && FixedAll(p, quiet, gs) && StepAll(p, gs, s, i, at).Some? && StepAll(p, gs, s, i, at).value.called
    requires GoodAll(p, gs, s)
    ensures var r := StepAll(p, gs, s, i, at).value; CallsAll(p, gs, s, r.gs, r.s) && GoodAll(p, r.gs, r.s)
    decreases AtSize(at), 1, i
  {
    if i == 0 {
      CallComesFirst(p, quiet, gs.head, s, at);
      var r := Step(p, gs.head, s, at).value;
      var th := Run(p, gs.head, s).s;
      var rest := ChangesAll(p, gs.tail, th);
      AmongMore(r.s.tables, s, Changes(p, gs.head, s), rest);
      AmongBoth(r.s.tables, s, Changes(p, gs.head, s), Changes(p, r.g, r.s), rest);
    } else {
      MayWait(p, quiet, gs.head, s, s);
      CallsComeFirst(p, quiet, gs.tail, s, i - 1, at);
      var r := StepAll(p, gs.tail, s, i - 1, at).value;
      StepAllAgrees(p, quiet, gs.tail, s, i - 1, at);
      MayWait(p, quiet, gs.head, s, r.s);
      MayWait(p, quiet, gs.head, r.s, s);
      assert ChangesAll(p, gs, s) == ChangesAll(p, gs.tail, s);
      assert ChangesAll(p, GCons(gs.head, r.gs), r.s) == ChangesAll(p, r.gs, r.s);
    }
  }

  // A literal's call means its test and then its branch.
  lemma {:induction false} LiteralMeans(p: Program, g: GoExpr, s: State, at: At)
    requires Honest(p) && g.GCond? && Ready(p, g.test) && Ready(p, g.yes) && Ready(p, g.no) && Good(p, g, s) && Step(p, g, s, at).Some?
    ensures var r := Step(p, g, s, at).value; r.g.GLit? && Result(r.g.v, r.s) == Run(p, g, s)
    decreases AtSize(at), 0, 0
  {
    var t := After(p, g.test, s, at.test);
    StepsMean(p, g.test, s, at.test);
    if t.1.thrown.Some? {
      ThrownRun(p, t.0, t.1);
    } else {
      var branch := if t.0.v != 0 then g.yes else g.no;
      StepsMean(p, branch, t.1, at.branch);
      var end := After(p, branch, t.1, at.branch);
      if end.1.thrown.Some? { ThrownRun(p, end.0, end.1); }
    }
  }

  /** Whatever step Go takes, what is left means the same, and is as good. */
  lemma {:induction false} StepMeans(p: Program, g: GoExpr, s: State, at: At)
    requires Honest(p) && Ready(p, g) && Good(p, g, s) && Step(p, g, s, at).Some?
    ensures var r := Step(p, g, s, at).value; Ready(p, r.g) && Good(p, r.g, r.s) && Run(p, r.g, r.s) == Run(p, g, s)
    decreases AtSize(at), 2, 0
  {
    var r := Step(p, g, s, at).value;
    var quiet := !Fixed(p, false, g);
    if Fixed(p, quiet, g) {
      StepKeeps(p, quiet, g, s, at);
      StepAgrees(p, quiet, g, s, at);
      if r.called { CallComesFirst(p, quiet, g, s, at); } else { ReadAnyTime(p, quiet, g, s, at, s); }
    } else if at.Here? {
      ValuesRun(p, g.args, s);
    } else {
      StepAllKeeps(p, true, g.args, s, at.i, at.at);
      StepAllAgrees(p, true, g.args, s, at.i, at.at);
      if r.called { CallsComeFirst(p, true, g.args, s, at.i, at.at); } else { ReadsAnyTime(p, true, g.args, s, at.i, at.at, s); }
    }
  }

  lemma {:induction false} StepsMean(p: Program, g: GoExpr, s: State, steps: Steps)
    requires Honest(p) && Ready(p, g) && Good(p, g, s) && Possible(p, g, s, steps)
    ensures var end := After(p, g, s, steps); Ready(p, end.0) && Good(p, end.0, end.1) && Run(p, end.0, end.1) == Run(p, g, s)
    decreases StepsSize(steps), 0, 0
  {
    if steps.Then? {
      StepMeans(p, g, s, steps.at);
      var r := Step(p, g, s, steps.at).value;
      StepsMean(p, r.g, r.s, steps.rest);
    }
  }
}
