/**
  Go's expressions, as the emitter writes them, and how Go may evaluate them:
  calls from left to right, each after its operands, and reads of plain
  variables and fields at any time, until a call panics.
*/
module OrderTarget {
  import opened Options
  import opened OrderLanguage

  // ts_read is given a binding's fields, or another value's. A GCond is a
  // function literal called where it stands (backend/emit_cond.go). GLook is
  // obj.ts_layout.Has(field), and GHas the call of it once ts_layout is read.
  datatype GoExpr =
    | GLit(v: int)
    | GVar(x: nat)
    | GOp(op: nat, called: bool, args: GoExprs)
    | GCall(f: nat, args: GoExprs)
    | GGet(args: GoExprs)                    // array.Get(index)
    | GField(obj: GoExpr, field: nat)
    | ReadVar(x: nat, path: seq<nat>)        // ts_read(x.path)
    | ReadFrom(obj: GoExpr, path: seq<nat>)  // ts_read(obj.path)
    | GLook(obj: GoExpr, field: nat)
    | GHas(table: int, field: nat)
    | GLogic(isOr: bool, left: GoExpr, right: GoExpr)
    | GCond(test: GoExpr, yes: GoExpr, no: GoExpr)

  datatype GoExprs = GNil | GCons(head: GoExpr, tail: GoExprs)

  function Follow(s: State, o: int, path: seq<nat>): int
    decreases |path|
  {
    if path == [] then o else Follow(s, s.fields(o, path[0]), path[1..])
  }

  function ElementOf(p: Program, vs: seq<int>, s: State): Result {
    if |vs| == 2 then Element(p, vs[0], vs[1], s) else Result(0, s)
  }

  // An evaluation of Go's, a step at a time. A read, or an operator with its
  // operands' values, may come at any time; a call, with its arguments' values,
  // only after every call before it. A step at a literal is the whole of its
  // call, with the steps its body took. There is no step after a throw.
  //
  // Of ts_read alone one thing is assumed that Go's specification does not say:
  // that ts_read(x.path) reads x.path as it is called. It is written for that
  // (backend/order.go:18-27). In o.ts_layout.Has(i) nothing is written to put
  // the read of ts_layout at the call, so it is as free as any bare read.

  datatype At = Here | In(i: nat, at: At) | Branch(test: Steps, branch: Steps)

  datatype Steps = Done | Then(at: At, rest: Steps)

  function AtSize(at: At): nat {
    match at
    case Here => 1
    case In(_, inner) => 1 + AtSize(inner)
    case Branch(test, branch) => 1 + StepsSize(test) + StepsSize(branch)
  }

  function StepsSize(steps: Steps): nat { if steps.Done? then 0 else 1 + AtSize(steps.at) + StepsSize(steps.rest) }

  datatype Stepped = Stepped(g: GoExpr, s: State, called: bool)

  datatype SteppedAll = SteppedAll(gs: GoExprs, s: State, called: bool)

  predicate Values(gs: GoExprs) { gs.GCons? ==> gs.head.GLit? && Values(gs.tail) }

  function ValuesOf(gs: GoExprs): seq<int>
    requires Values(gs)
  {
    if gs.GNil? then [] else [gs.head.v] + ValuesOf(gs.tail)
  }

  // What Go orders among the calls is left in g.
  predicate HasCall(p: Program, g: GoExpr) {
    match g
    case GOp(_, called, args) => called || HasCallAny(p, args)
    case GField(obj, _) => HasCall(p, obj)
    case GLogic(_, left, right) => p.ordered || HasCall(p, left) || HasCall(p, right)
    case GLit(_) => false
    case GVar(_) => false
    case _ => true
  }

  predicate HasCallAny(p: Program, gs: GoExprs) { gs.GCons? && (HasCall(p, gs.head) || HasCallAny(p, gs.tail)) }

  function Step(p: Program, g: GoExpr, s: State, at: At): Option<Stepped>
    decreases AtSize(at), 0, 0
  {
    if s.thrown.Some? then None else
    match g
    case GLit(_) => None
    case GVar(x) => if at.Here? then Some(Stepped(GLit(s.bindings(x)), s, false)) else None
    case GOp(op, called, args) =>
      if at.Here? then (if Values(args) then var c := Operate(p, op, called, ValuesOf(args), s); Some(Stepped(GLit(c.v), c.s, called)) else None)
      else if !at.In? then None
      else (match StepAll(p, args, s, at.i, at.at)
        case None => None
        case Some(r) => Some(Stepped(GOp(op, called, r.gs), r.s, r.called)))
    case GCall(f, args) =>
      if at.Here? then (if Values(args) then var c := Do(p, f, ValuesOf(args), s); Some(Stepped(GLit(c.v), c.s, true)) else None)
      else if !at.In? then None
      else (match StepAll(p, args, s, at.i, at.at)
        case None => None
        case Some(r) => Some(Stepped(GCall(f, r.gs), r.s, r.called)))
    case GGet(args) =>
      if at.Here? then (if Values(args) then var c := ElementOf(p, ValuesOf(args), s); Some(Stepped(GLit(c.v), c.s, true)) else None)
      else if !at.In? then None
      else (match StepAll(p, args, s, at.i, at.at)
        case None => None
        case Some(r) => Some(Stepped(GGet(r.gs), r.s, r.called)))
    case GField(obj, field) =>
      if at.Here? then (if obj.GLit? then Some(Stepped(GLit(s.fields(obj.v, field)), s, false)) else None)
      else if !at.In? then None
      else (match Step(p, obj, s, at.at)
        case None => None
        case Some(r) => Some(Stepped(GField(r.g, field), r.s, r.called)))
    case ReadVar(x, path) => // x.path and the call in one step: see above
      if at.Here? then Some(Stepped(GLit(Follow(s, s.bindings(x), path)), s, true)) else None
    case ReadFrom(obj, path) =>
      if at.Here? then (if obj.GLit? then Some(Stepped(GLit(Follow(s, obj.v, path)), s, true)) else None)
      else if !at.In? then None
      else (match Step(p, obj, s, at.at)
        case None => None
        case Some(r) => Some(Stepped(ReadFrom(r.g, path), r.s, r.called)))
    case GLook(obj, field) =>
      // a bare read of ts_layout, and only then a call
      if at.Here? then (if obj.GLit? then Some(Stepped(GHas(s.tables(obj.v), field), s, false)) else None)
      else if !at.In? then None
      else (match Step(p, obj, s, at.at)
        case None => None
        case Some(r) => Some(Stepped(GLook(r.g, field), r.s, r.called)))
    case GHas(table, field) =>
      if at.Here? then var c := Look(p, table, field, s); Some(Stepped(GLit(c.v), c.s, true)) else None
    case GLogic(isOr, left, right) =>
      // nothing of the right operand until the left has decided for it
      if at.Here? then (if left.GLit? then Some(Stepped(if Decides(isOr, left.v) then left else right, s, p.ordered)) else None)
      else if !at.In? then None
      else (match Step(p, left, s, at.at)
        case None => None
        case Some(r) => Some(Stepped(GLogic(isOr, r.g, right), r.s, r.called)))
    case GCond(test, yes, no) =>
      if !at.Branch? || !Ends(p, test, s, at.test) then None
      else
        var t := After(p, test, s, at.test);
        if t.1.thrown.Some? then Some(Stepped(GLit(0), t.1, true))
        else
          var branch := if t.0.v != 0 then yes else no;
          if !Ends(p, branch, t.1, at.branch) then None
          else var r := After(p, branch, t.1, at.branch); Some(Stepped(if r.1.thrown.Some? then GLit(0) else r.0, r.1, true))
  }

  function StepAll(p: Program, gs: GoExprs, s: State, i: nat, at: At): Option<SteppedAll>
    decreases AtSize(at), 1, i
  {
    if gs.GNil? then None
    else if i == 0 then
      (match Step(p, gs.head, s, at)
       case None => None
       case Some(r) => Some(SteppedAll(GCons(r.g, gs.tail), r.s, r.called)))
    else
      match StepAll(p, gs.tail, s, i - 1, at)
      case None => None
      case Some(r) => if r.called && HasCall(p, gs.head) then None else Some(SteppedAll(GCons(gs.head, r.gs), r.s, r.called))
  }

  // Whole evaluations, which end in a value or at a throw.

  predicate Possible(p: Program, g: GoExpr, s: State, steps: Steps)
    decreases StepsSize(steps), 0, 0
  {
    steps.Done? ||
    (Step(p, g, s, steps.at).Some? && var r := Step(p, g, s, steps.at).value; Possible(p, r.g, r.s, steps.rest))
  }

  function After(p: Program, g: GoExpr, s: State, steps: Steps): (GoExpr, State)
    requires Possible(p, g, s, steps)
    decreases StepsSize(steps), 1, 0
  {
    if steps.Done? then (g, s) else var r := Step(p, g, s, steps.at).value; After(p, r.g, r.s, steps.rest)
  }

  predicate Ends(p: Program, g: GoExpr, s: State, steps: Steps)
    decreases StepsSize(steps), 2, 0
  {
    Possible(p, g, s, steps) && var end := After(p, g, s, steps); end.0.GLit? || end.1.thrown.Some?
  }

  // The same expression, taken left to right, each read where it stands, and
  // on past a throw with nothing done.

  function Run(p: Program, g: GoExpr, s: State): Result {
    match g
    case GLit(v) => Result(v, s)
    case GVar(x) => Result(s.bindings(x), s)
    case GOp(op, called, args) => var r := RunAll(p, args, s); Operate(p, op, called, r.vs, r.s)
    case GCall(f, args) => var r := RunAll(p, args, s); Do(p, f, r.vs, r.s)
    case GGet(args) => var r := RunAll(p, args, s); ElementOf(p, r.vs, r.s)
    case GField(obj, field) => var r := Run(p, obj, s); Result(r.s.fields(r.v, field), r.s)
    case ReadVar(x, path) => Result(Follow(s, s.bindings(x), path), s)
    case ReadFrom(obj, path) => var r := Run(p, obj, s); Result(Follow(r.s, r.v, path), r.s)
    case GLook(obj, field) => var r := Run(p, obj, s); Look(p, r.s.tables(r.v), field, r.s)
    case GHas(table, field) => Look(p, table, field, s)
    case GLogic(isOr, left, right) => var r := Run(p, left, s); if Decides(isOr, r.v) then r else Run(p, right, r.s)
    case GCond(test, yes, no) =>
      var r := Run(p, test, s);
      Left(if r.s.thrown.Some? then r else if r.v != 0 then Run(p, yes, r.s) else Run(p, no, r.s))
  }

  function RunAll(p: Program, gs: GoExprs, s: State): Results {
    if gs.GNil? then Results([], s)
    else
      var r := Run(p, gs.head, s);
      var rest := RunAll(p, gs.tail, r.s);
      Results([r.v] + rest.vs, rest.s)
  }

  lemma {:induction false} ValuesRun(p: Program, gs: GoExprs, s: State)
    requires Values(gs)
    ensures RunAll(p, gs, s) == Results(ValuesOf(gs), s) && !HasCallAny(p, gs)
    decreases gs
  {
    if gs.GCons? { ValuesRun(p, gs.tail, s); }
  }

  // Every evaluation ends, and left to right is one.

  function Size(g: GoExpr): nat {
    match g
    case GLit(_) => 0
    case GVar(_) => 1
    case GOp(_, _, args) => 1 + SizeAll(args)
    case GCall(_, args) => 1 + SizeAll(args)
    case GGet(args) => 1 + SizeAll(args)
    case GField(obj, _) => 1 + Size(obj)
    case ReadVar(_, _) => 1
    case ReadFrom(obj, _) => 1 + Size(obj)
    case GLook(obj, _) => 2 + Size(obj)
    case GHas(_, _) => 1
    case GLogic(_, left, right) => 1 + Size(left) + Size(right)
    case GCond(test, yes, no) => 1 + Size(test) + Size(yes) + Size(no)
  }

  function SizeAll(gs: GoExprs): nat { if gs.GNil? then 0 else Size(gs.head) + SizeAll(gs.tail) }

  lemma {:induction false} StepShrinks(p: Program, g: GoExpr, s: State, at: At)
    requires Step(p, g, s, at).Some?
    ensures Size(Step(p, g, s, at).value.g) < Size(g)
    decreases AtSize(at), 0, 0
  {
    match g
    case GOp(_, _, args) => if !at.Here? { StepsShrink(p, args, s, at.i, at.at); }
    case GCall(_, args) => if !at.Here? { StepsShrink(p, args, s, at.i, at.at); }
    case GGet(args) => if !at.Here? { StepsShrink(p, args, s, at.i, at.at); }
    case GField(obj, _) => if !at.Here? { StepShrinks(p, obj, s, at.at); }
    case ReadFrom(obj, _) => if !at.Here? { StepShrinks(p, obj, s, at.at); }
    case GLook(obj, _) => if !at.Here? { StepShrinks(p, obj, s, at.at); }
    case GLogic(_, left, _) => if !at.Here? { StepShrinks(p, left, s, at.at); }
    case _ =>
  }

  lemma {:induction false} StepsShrink(p: Program, gs: GoExprs, s: State, i: nat, at: At)
    requires StepAll(p, gs, s, i, at).Some?
    ensures SizeAll(StepAll(p, gs, s, i, at).value.gs) < SizeAll(gs)
    decreases AtSize(at), 1, i
  {
    if i == 0 { StepShrinks(p, gs.head, s, at); } else { StepsShrink(p, gs.tail, s, i - 1, at); }
  }

  lemma {:induction false} AllEmpty(gs: GoExprs)
    ensures SizeAll(gs) == 0 <==> Values(gs)
    decreases gs
  {
    if gs.GCons? { AllEmpty(gs.tail); }
  }

  lemma {:induction false} ThrownRun(p: Program, g: GoExpr, s: State)
    requires s.thrown.Some?
    ensures Run(p, g, s).s == s
    decreases g
  {
    match g
    case GOp(_, _, args) => ThrownRunAll(p, args, s);
    case GCall(_, args) => ThrownRunAll(p, args, s);
    case GGet(args) => ThrownRunAll(p, args, s);
    case GField(obj, _) => ThrownRun(p, obj, s);
    case ReadFrom(obj, _) => ThrownRun(p, obj, s);
    case GLook(obj, _) => ThrownRun(p, obj, s);
    case GLogic(_, left, right) =>
      ThrownRun(p, left, s);
      ThrownRun(p, right, s);
    case GCond(test, _, _) => ThrownRun(p, test, s);
    case _ =>
  }

  lemma {:induction false} ThrownRunAll(p: Program, gs: GoExprs, s: State)
    requires s.thrown.Some?
    ensures RunAll(p, gs, s).s == s
    decreases gs
  {
    if gs.GCons? {
      ThrownRun(p, gs.head, s);
      ThrownRunAll(p, gs.tail, s);
    }
  }
}
