/**
  And where a look isn't good, Go may go wrong: there is an evaluation of the
  expression that answers a look otherwise. Until a look that may be taken
  early would say something else now, everything is taken in its turn; then
  that look's ts_layout is read at once.
*/
module OrderExact {
  import opened Options
  import opened OrderLanguage
  import opened OrderTarget
  import opened OrderWatch
  import opened OrderCorrect

  // The answers given part ways: whatever comes after, they stay apart.
  predicate Differ(a: seq<int>, b: seq<int>) { exists k :: 0 <= k < |a| && k < |b| && a[k] != b[k] }

  lemma StillDiffer(a: seq<int>, b: seq<int>, a': seq<int>, b': seq<int>)
    requires Differ(a, b) && a <= a' && b <= b'
    ensures Differ(a', b')
  {
    var k :| 0 <= k < |a| && k < |b| && a[k] != b[k];
    assert a'[k] == a[k] && b'[k] == b[k];
  }

  lemma {:induction false} AnswersStay(p: Program, g: GoExpr, s: State)
    requires Honest(p)
    ensures s.answers <= Run(p, g, s).s.answers
    decreases g
  {
    match g
    case GOp(_, _, args) => AllAnswersStay(p, args, s);
    case GCall(f, args) =>
      AllAnswersStay(p, args, s);
      var r := RunAll(p, args, s);
      HonestDo(p, f, r.vs, r.s);
    case GGet(args) => AllAnswersStay(p, args, s);
    case GField(obj, _) => AnswersStay(p, obj, s);
    case ReadFrom(obj, _) => AnswersStay(p, obj, s);
    case GLook(obj, _) => AnswersStay(p, obj, s);
    case GLogic(isOr, left, right) =>
      AnswersStay(p, left, s);
      AnswersStay(p, right, Run(p, left, s).s);
    case GCond(test, yes, no) =>
      AnswersStay(p, test, s);
      var r := Run(p, test, s);
      AnswersStay(p, if r.v != 0 then yes else no, r.s);
    case _ =>
  }

  lemma {:induction false} AllAnswersStay(p: Program, gs: GoExprs, s: State)
    requires Honest(p)
    ensures s.answers <= RunAll(p, gs, s).s.answers
    decreases gs
  {
    if gs.GCons? {
      AnswersStay(p, gs.head, s);
      AllAnswersStay(p, gs.tail, Run(p, gs.head, s).s);
    }
  }

  // Left to right.

  // g may become g' at s', and nothing but what s' has is left out of what it changes.
  ghost predicate InTurn(p: Program, g: GoExpr, s: State, g': GoExpr, s': State) {
    && Run(p, g', s') == Run(p, g, s)
    && forall k :: 0 <= k < |Changes(p, g, s)| ==> Among(Changes(p, g, s)[k], s', Changes(p, g', s'))
  }

  ghost predicate AllInTurn(p: Program, gs: GoExprs, s: State, gs': GoExprs, s': State) {
    && RunAll(p, gs', s') == RunAll(p, gs, s)
    && forall k :: 0 <= k < |ChangesAll(p, gs, s)| ==> Among(ChangesAll(p, gs, s)[k], s', ChangesAll(p, gs', s'))
  }

  lemma {:induction false} NextInTurn(p: Program, g: GoExpr, s: State) returns (at: At)
    requires s.thrown.None?
    requires !g.GLit?
    ensures Step(p, g, s, at).Some?
    ensures InTurn(p, g, s, Step(p, g, s, at).value.g, Step(p, g, s, at).value.s)
    decreases Size(g), 0, g
  {
    at := Here;
    match g
    case GOp(_, _, args) =>
      if Values(args) { ValuesInTurn(p, args, s); } else { var i, inner := FirstInTurn(p, args, s); at := In(i, inner); }
    case GCall(f, args) =>
      if Values(args) {
        ValuesInTurn(p, args, s);
      } else {
        var i, inner := FirstInTurn(p, args, s);
        at := In(i, inner);
        var r := StepAll(p, args, s, i, inner).value;
        AmongBoth(s.tables, r.s, ChangesAll(p, r.gs, r.s), ChangesAll(p, args, s), [Run(p, g, s).s.tables]);
      }
    case GGet(args) =>
      if Values(args) { ValuesInTurn(p, args, s); } else { var i, inner := FirstInTurn(p, args, s); at := In(i, inner); }
    case GField(obj, _) => if !obj.GLit? { var inner := NextInTurn(p, obj, s); at := In(0, inner); }
    case ReadFrom(obj, _) => if !obj.GLit? { var inner := NextInTurn(p, obj, s); at := In(0, inner); }
    case GLook(obj, _) => if !obj.GLit? { var inner := NextInTurn(p, obj, s); at := In(0, inner); }
    case GLogic(isOr, left, right) =>
      if left.GLit? {
        Decided(p, g, s);
      } else {
        var inner := NextInTurn(p, left, s);
        at := In(0, inner);
        var r := Step(p, left, s, inner).value;
        var end := Run(p, left, s);
        AmongBoth(s.tables, r.s, Changes(p, r.g, r.s), Changes(p, left, s), if Decides(isOr, end.v) then [] else Changes(p, right, end.s));
      }
    case GCond(test, yes, no) =>
      var first := Finishes(p, test, s);
      var t := After(p, test, s, first);
      var second := Done;
      if t.1.thrown.None? { second := Finishes(p, if t.0.v != 0 then yes else no, t.1); }
      at := Branch(first, second);
    case _ =>
  }

  lemma {:induction false} ValuesInTurn(p: Program, gs: GoExprs, s: State)
    requires Values(gs)
    ensures RunAll(p, gs, s) == Results(ValuesOf(gs), s) && ChangesAll(p, gs, s) == []
    decreases gs
  {
    if gs.GCons? { ValuesInTurn(p, gs.tail, s); }
  }

  lemma {:induction false} FirstInTurn(p: Program, gs: GoExprs, s: State) returns (i: nat, at: At)
    requires s.thrown.None?
    requires !Values(gs)
    ensures StepAll(p, gs, s, i, at).Some?
    ensures AllInTurn(p, gs, s, StepAll(p, gs, s, i, at).value.gs, StepAll(p, gs, s, i, at).value.s)
    decreases SizeAll(gs), 1, gs
  {
    if !gs.head.GLit? {
      i := 0;
      at := NextInTurn(p, gs.head, s);
      var r := Step(p, gs.head, s, at).value;
      AmongBoth(s.tables, r.s, Changes(p, r.g, r.s), Changes(p, gs.head, s), ChangesAll(p, gs.tail, Run(p, gs.head, s).s));
    } else {
      var j;
      j, at := FirstInTurn(p, gs.tail, s);
      i := j + 1;
      var r := StepAll(p, gs.tail, s, j, at).value;
      assert ChangesAll(p, gs, s) == ChangesAll(p, gs.tail, s);
      assert ChangesAll(p, GCons(gs.head, r.gs), r.s) == ChangesAll(p, r.gs, r.s);
    }
  }

  /** Left to right is an evaluation Go allows: from any state, of any expression. */
  lemma {:induction false} Finishes(p: Program, g: GoExpr, s: State) returns (steps: Steps)
    ensures Ends(p, g, s, steps) && After(p, g, s, steps).1 == Run(p, g, s).s
    ensures Run(p, g, s).s.thrown.None? ==> After(p, g, s, steps).0 == GLit(Run(p, g, s).v)
    decreases Size(g), 2, g
  {
    steps := Done;
    if s.thrown.Some? {
      ThrownRun(p, g, s);
    } else if !g.GLit? {
      var at := NextInTurn(p, g, s);
      StepShrinks(p, g, s, at);
      var r := Step(p, g, s, at).value;
      var rest := Finishes(p, r.g, r.s);
      steps := Then(at, rest);
    }
  }

  // A look taken early. t is where g's turn comes, and s where it is now.

  // Nothing of g waits for a call: a read or an operator of it can be next.
  lemma {:induction false} FreeStep(p: Program, g: GoExpr, s: State, t: State) returns (at: At)
    requires s.thrown.None?
    requires Honest(p) && Fixed(p, false, g) && !Called(p, g, t) && Agree(p, false, s, t) && !g.GLit?
    ensures Step(p, g, s, at).Some? && !Step(p, g, s, at).value.called
    decreases g
  {
    at := Here;
    match g
    case GOp(_, _, args) => if !Values(args) { var i, inner := FreeStepIn(p, args, s, t); at := In(i, inner); }
    case GLogic(_, left, _) => if !left.GLit? { var inner := FreeStep(p, left, s, t); at := In(0, inner); }
    case _ =>
  }

  lemma {:induction false} FreeStepIn(p: Program, gs: GoExprs, s: State, t: State) returns (i: nat, at: At)
    requires s.thrown.None?
    requires Honest(p) && FixedAll(p, false, gs) && !CalledAny(p, gs, t) && Agree(p, false, s, t) && !Values(gs)
    ensures StepAll(p, gs, s, i, at).Some? && !StepAll(p, gs, s, i, at).value.called
    decreases gs
  {
    if !gs.head.GLit? {
      i := 0;
      at := FreeStep(p, gs.head, s, t);
    } else {
      var j;
      j, at := FreeStepIn(p, gs.tail, s, t);
      i := j + 1;
    }
  }

  // Of no consequence, where nothing waits for a call.
  lemma {:induction false} UncalledSame(p: Program, g: GoExpr, t: State, early: Tables)
    requires !Called(p, g, t)
    ensures Same(p, g, t, early)
    decreases g
  {
    match g
    case GOp(_, _, args) => UncalledSameAll(p, args, t, early);
    case GField(obj, _) => UncalledSame(p, obj, t, early);
    case GLogic(isOr, left, right) =>
      UncalledSame(p, left, t, early);
      if !Decides(isOr, Run(p, left, t).v) { UncalledSame(p, right, Run(p, left, t).s, early); }
    case _ =>
  }

  lemma {:induction false} UncalledSameAll(p: Program, gs: GoExprs, t: State, early: Tables)
    requires !CalledAny(p, gs, t)
    ensures SameAll(p, gs, t, early)
    decreases gs
  {
    if gs.GCons? {
      UncalledSame(p, gs.head, t, early);
      UncalledSameAll(p, gs.tail, Run(p, gs.head, t).s, early);
    }
  }

  // A step on the way to a wrong answer at t: it is given, or is still to be.
  ghost predicate Early(p: Program, g: GoExpr, g': GoExpr, s: State, t: State) {
    || Differ(Run(p, g', t).s.answers, Run(p, g, t).s.answers)
    || (Run(p, g', t) == Run(p, g, t) && !Same(p, g', t, s.tables))
  }

  ghost predicate EarlyIn(p: Program, gs: GoExprs, gs': GoExprs, s: State, t: State) {
    || Differ(RunAll(p, gs', t).s.answers, RunAll(p, gs, t).s.answers)
    || (RunAll(p, gs', t) == RunAll(p, gs, t) && !SameAll(p, gs', t, s.tables))
  }

  lemma {:induction false} EarlyStep(p: Program, g: GoExpr, s: State, t: State) returns (at: At)
    requires s.thrown.None?
    requires Honest(p) && Fixed(p, false, g) && Agree(p, false, s, t) && !Same(p, g, t, s.tables)
    ensures Step(p, g, s, at).Some? && !Step(p, g, s, at).value.called && Early(p, g, Step(p, g, s, at).value.g, s, t)
    decreases g
  {
    match g
    case GOp(_, _, args) => var i, inner := EarlyStepIn(p, args, s, t); at := In(i, inner);
    case GCall(f, args) =>
      var i, inner := EarlyStepIn(p, args, s, t);
      at := In(i, inner);
      var gs' := StepAll(p, args, s, i, inner).value.gs;
      var r, r' := RunAll(p, args, t), RunAll(p, gs', t);
      if Differ(r'.s.answers, r.s.answers) {
        HonestDo(p, f, r.vs, r.s);
        HonestDo(p, f, r'.vs, r'.s);
        StillDiffer(r'.s.answers, r.s.answers, Run(p, GCall(f, gs'), t).s.answers, Run(p, g, t).s.answers);
      }
    case GGet(args) => var i, inner := EarlyStepIn(p, args, s, t); at := In(i, inner);
    case ReadFrom(obj, _) => var inner := EarlyStep(p, obj, s, t); at := In(0, inner);
    case GLook(obj, field) => at := EarlyLook(p, g, s, t);
    case GLogic(isOr, left, right) => at := EarlyLogic(p, g, s, t);
  }

  lemma {:induction false} EarlyLook(p: Program, g: GoExpr, s: State, t: State) returns (at: At)
    requires s.thrown.None?
    requires g.GLook?
    requires Honest(p) && Fixed(p, false, g) && Agree(p, false, s, t) && !Same(p, g, t, s.tables)
    ensures Step(p, g, s, at).Some? && !Step(p, g, s, at).value.called && Early(p, g, Step(p, g, s, at).value.g, s, t)
    decreases g, 0
  {
    var obj := g.obj;
    if !Same(p, obj, t, s.tables) {
      var inner := EarlyStep(p, obj, s, t);
      at := In(0, inner);
      var obj' := Step(p, obj, s, inner).value.g;
      var a, a' := Run(p, obj, t).s.answers, Run(p, obj', t).s.answers;
      if Differ(a', a) { StillDiffer(a', a, Run(p, GLook(obj', g.field), t).s.answers, Run(p, g, t).s.answers); }
    } else if obj.GLit? {
      at := Here;
      var a, a' := Run(p, g, t).s.answers, Run(p, GHas(s.tables(obj.v), g.field), t).s.answers;
      assert a[|t.answers|] != a'[|t.answers|];
    } else {
      var inner := FreeStep(p, obj, s, t);
      at := In(0, inner);
      UncalledSame(p, obj, t, s.tables);
      ReadAnyTime(p, false, obj, s, inner, t);
    }
  }

  lemma {:induction false} EarlyLogic(p: Program, g: GoExpr, s: State, t: State) returns (at: At)
    requires s.thrown.None?
    requires g.GLogic?
    requires Honest(p) && Fixed(p, false, g) && Agree(p, false, s, t) && !Same(p, g, t, s.tables)
    ensures Step(p, g, s, at).Some? && !Step(p, g, s, at).value.called && Early(p, g, Step(p, g, s, at).value.g, s, t)
    decreases g, 0
  {
    var left := g.left;
    if !Same(p, left, t, s.tables) {
      var inner := EarlyStep(p, left, s, t);
      at := In(0, inner);
      var left' := Step(p, left, s, inner).value.g;
      var r, r' := Run(p, left, t), Run(p, left', t);
      if Differ(r'.s.answers, r.s.answers) {
        AnswersStay(p, g.right, r.s);
        AnswersStay(p, g.right, r'.s);
        StillDiffer(r'.s.answers, r.s.answers, Run(p, GLogic(g.isOr, left', g.right), t).s.answers, Run(p, g, t).s.answers);
      }
    } else if left.GLit? {
      at := Here;
      assert Run(p, left, t) == Result(left.v, t);
    } else {
      var inner := FreeStep(p, left, s, t);
      at := In(0, inner);
      ReadAnyTime(p, false, left, s, inner, t);
    }
  }

  lemma {:induction false} EarlyStepIn(p: Program, gs: GoExprs, s: State, t: State) returns (i: nat, at: At)
    requires s.thrown.None?
    requires Honest(p) && FixedAll(p, false, gs) && Agree(p, false, s, t) && !SameAll(p, gs, t, s.tables)
    ensures StepAll(p, gs, s, i, at).Some? && !StepAll(p, gs, s, i, at).value.called
    ensures EarlyIn(p, gs, StepAll(p, gs, s, i, at).value.gs, s, t)
    decreases gs
  {
    var r := Run(p, gs.head, t);
    if !Same(p, gs.head, t, s.tables) {
      i := 0;
      at := EarlyStep(p, gs.head, s, t);
      var r' := Run(p, Step(p, gs.head, s, at).value.g, t);
      if Differ(r'.s.answers, r.s.answers) {
        AllAnswersStay(p, gs.tail, r.s);
        AllAnswersStay(p, gs.tail, r'.s);
        StillDiffer(r'.s.answers, r.s.answers, RunAll(p, gs.tail, r'.s).s.answers, RunAll(p, gs.tail, r.s).s.answers);
      }
    } else {
      RunAgrees(p, false, gs.head, t);
      var j;
      j, at := EarlyStepIn(p, gs.tail, s, r.s);
      i := j + 1;
    }
  }

  // After a throw no look is taken.
  lemma {:induction false} ThrownIsGood(p: Program, g: GoExpr, s: State)
    requires s.thrown.Some?
    ensures Steady(p, g, s) && forall early :: Same(p, g, s, early)
    decreases g
  {
    match g
    case GOp(_, _, args) => ThrownAreGood(p, args, s);
    case GCall(_, args) => ThrownAreGood(p, args, s);
    case GGet(args) => ThrownAreGood(p, args, s);
    case GField(obj, _) => ThrownIsGood(p, obj, s);
    case ReadFrom(obj, _) => ThrownIsGood(p, obj, s);
    case GLook(obj, _) =>
      ThrownIsGood(p, obj, s);
      ThrownRun(p, obj, s);
    case GLogic(_, left, right) =>
      ThrownIsGood(p, left, s);
      ThrownRun(p, left, s);
      ThrownIsGood(p, right, s);
    case GCond(test, _, _) =>
      ThrownIsGood(p, test, s);
      ThrownRun(p, test, s);
    case _ =>
  }

  lemma {:induction false} ThrownAreGood(p: Program, gs: GoExprs, s: State)
    requires s.thrown.Some?
    ensures SteadyAll(p, gs, s) && forall early :: SameAll(p, gs, s, early)
    decreases gs
  {
    if gs.GCons? {
      ThrownIsGood(p, gs.head, s);
      ThrownRun(p, gs.head, s);
      ThrownAreGood(p, gs.tail, s);
    }
  }

  // A step to where a look will be taken early, or one in which it was.

  ghost predicate Strays(p: Program, g: GoExpr, s: State, g': GoExpr, s': State) {
    || Differ(Run(p, g', s').s.answers, Run(p, g, s).s.answers)
    || (Run(p, g', s') == Run(p, g, s) && !Good(p, g', s'))
  }

  ghost predicate StrayAll(p: Program, gs: GoExprs, s: State, gs': GoExprs, s': State) {
    || Differ(RunAll(p, gs', s').s.answers, RunAll(p, gs, s).s.answers)
    || (RunAll(p, gs', s') == RunAll(p, gs, s) && !GoodAll(p, gs', s'))
  }

  lemma {:induction false} StrayStep(p: Program, g: GoExpr, s: State) returns (at: At)
    requires s.thrown.None?
    requires Honest(p) && Fixed(p, false, g) && !Steady(p, g, s)
    ensures Step(p, g, s, at).Some? && Strays(p, g, s, Step(p, g, s, at).value.g, Step(p, g, s, at).value.s)
    decreases Size(g), 1, g
  {
    match g
    case GOp(_, _, args) => var i, inner := StrayStepIn(p, args, s); at := In(i, inner);
    case GCall(f, args) =>
      var i, inner := StrayStepIn(p, args, s);
      at := In(i, inner);
      var a := StepAll(p, args, s, i, inner).value;
      var r, r' := RunAll(p, args, s), RunAll(p, a.gs, a.s);
      if Differ(r'.s.answers, r.s.answers) {
        HonestDo(p, f, r.vs, r.s);
        HonestDo(p, f, r'.vs, r'.s);
        StillDiffer(r'.s.answers, r.s.answers, Run(p, GCall(f, a.gs), a.s).s.answers, Run(p, g, s).s.answers);
      }
    case GGet(args) => var i, inner := StrayStepIn(p, args, s); at := In(i, inner);
    case ReadFrom(obj, _) => var inner := StrayStep(p, obj, s); at := In(0, inner);
    case GLook(obj, field) =>
      var inner := StrayStep(p, obj, s);
      at := In(0, inner);
      var a := Step(p, obj, s, inner).value;
      var r, r' := Run(p, obj, s).s.answers, Run(p, a.g, a.s).s.answers;
      if Differ(r', r) { StillDiffer(r', r, Run(p, GLook(a.g, field), a.s).s.answers, Run(p, g, s).s.answers); }
    case GLogic(_, _, _) => at := StrayLogic(p, g, s);
    case GCond(_, _, _) => at := StrayLiteral(p, g, s);
  }

  lemma {:induction false} StrayLogic(p: Program, g: GoExpr, s: State) returns (at: At)
    requires s.thrown.None?
    requires g.GLogic? && Honest(p) && Fixed(p, false, g) && !Steady(p, g, s)
    ensures Step(p, g, s, at).Some? && Strays(p, g, s, Step(p, g, s, at).value.g, Step(p, g, s, at).value.s)
    decreases Size(g), 0, g
  {
    var left := g.left;
    if left.GLit? {
      at := Here;
      Decided(p, g, s);
    } else if !Steady(p, left, s) {
      var inner := StrayStep(p, left, s);
      at := In(0, inner);
      var a := Step(p, left, s, inner).value;
      var r, r' := Run(p, left, s), Run(p, a.g, a.s);
      if Differ(r'.s.answers, r.s.answers) {
        AnswersStay(p, g.right, r.s);
        AnswersStay(p, g.right, r'.s);
        StillDiffer(r'.s.answers, r.s.answers, Run(p, GLogic(g.isOr, a.g, g.right), a.s).s.answers, Run(p, g, s).s.answers);
      }
    } else {
      var inner := NextInTurn(p, left, s);
      at := In(0, inner);
    }
  }

  lemma {:induction false} StrayLiteral(p: Program, g: GoExpr, s: State) returns (at: At)
    requires s.thrown.None?
    requires g.GCond? && Honest(p) && Fixed(p, false, g) && !Steady(p, g, s)
    ensures Step(p, g, s, at).Some? && Strays(p, g, s, Step(p, g, s, at).value.g, Step(p, g, s, at).value.s)
    decreases Size(g), 0, g
  {
    var r := Run(p, g.test, s);
    if !Good(p, g.test, s) {
      var first := Diverges(p, g.test, s);
      var t := After(p, g.test, s, first);
      var second, end := Done, t.1;
      if t.1.thrown.None? {
        var branch := if t.0.v != 0 then g.yes else g.no;
        second := Finishes(p, branch, t.1);
        end := Run(p, branch, t.1).s;
        AnswersStay(p, branch, t.1);
      }
      at := Branch(first, second);
      AnswersStay(p, if r.v != 0 then g.yes else g.no, r.s);
      StillDiffer(t.1.answers, r.s.answers, end.answers, Run(p, g, s).s.answers);
    } else {
      var first := Finishes(p, g.test, s);
      var second := Diverges(p, if r.v != 0 then g.yes else g.no, r.s);
      at := Branch(first, second);
    }
  }

  lemma {:induction false} StrayStepIn(p: Program, gs: GoExprs, s: State) returns (i: nat, at: At)
    requires s.thrown.None?
    requires Honest(p) && FixedAll(p, false, gs) && !SteadyAll(p, gs, s)
    ensures StepAll(p, gs, s, i, at).Some? && StrayAll(p, gs, s, StepAll(p, gs, s, i, at).value.gs, StepAll(p, gs, s, i, at).value.s)
    decreases SizeAll(gs), 2, gs
  {
    var r := Run(p, gs.head, s);
    if gs.head.GLit? {
      var j;
      j, at := StrayStepIn(p, gs.tail, s);
      i := j + 1;
    } else if !Steady(p, gs.head, s) {
      i := 0;
      at := StrayStep(p, gs.head, s);
      var a := Step(p, gs.head, s, at).value;
      var r' := Run(p, a.g, a.s);
      if Differ(r'.s.answers, r.s.answers) {
        AllAnswersStay(p, gs.tail, r.s);
        AllAnswersStay(p, gs.tail, r'.s);
        StillDiffer(r'.s.answers, r.s.answers, RunAll(p, gs.tail, r'.s).s.answers, RunAll(p, gs.tail, r.s).s.answers);
      }
    } else {
      i := 0;
      at := NextInTurn(p, gs.head, s);
    }
  }

  /** An expression whose looks aren't good has an evaluation that answers one
      of them otherwise. */
  lemma {:induction false} Diverges(p: Program, g: GoExpr, s: State) returns (steps: Steps)
    requires Honest(p) && Ready(p, g) && !Good(p, g, s)
    ensures Ends(p, g, s, steps) && Differ(After(p, g, s, steps).1.answers, Run(p, g, s).s.answers)
    decreases Size(g), 2, g
  {
    if s.thrown.Some? { ThrownIsGood(p, g, s); }
    if Fixed(p, true, g) { QuietIsGood(p, g, s, s.tables); }
    else if !Fixed(p, false, g) { QuietAreGood(p, g.args, s, s.tables); }
    var at: At;
    if !Same(p, g, s, s.tables) { at := EarlyStep(p, g, s, s); } else { at := StrayStep(p, g, s); }
    var r := Step(p, g, s, at).value;
    StepShrinks(p, g, s, at);
    StepAgrees(p, false, g, s, at);
    StepKeeps(p, false, g, s, at);
    var rest: Steps;
    if Differ(Run(p, r.g, r.s).s.answers, Run(p, g, s).s.answers) {
      rest := Finishes(p, r.g, r.s);
    } else {
      rest := Diverges(p, r.g, r.s);
    }
    steps := Then(at, rest);
  }
}
