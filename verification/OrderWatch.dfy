/**
  When a look for a property can go wrong. `"f" in o` becomes
  o.ts_layout.Has(i) (backend/emit_optional.go:81-87): Has is a call, and so
  is ordered, but ts_layout is read bare, at any time after o. Where o is
  plain as well, that may be before a call that gives o another table.
*/
module OrderWatch {
  import opened OrderLanguage
  import opened OrderTarget

  type Tables = int -> int

  // Taken left to right, g does something Go orders among the calls.
  predicate Called(p: Program, g: GoExpr, s: State) {
    match g
    case GOp(_, called, args) => called || CalledAny(p, args, s)
    case GField(obj, _) => Called(p, obj, s)
    case GLogic(isOr, left, right) =>
      var r := Run(p, left, s);
      p.ordered || Called(p, left, s) || (!Decides(isOr, r.v) && Called(p, right, r.s))
    case GLit(_) => false
    case GVar(_) => false
    case _ => true
  }

  predicate CalledAny(p: Program, gs: GoExprs, s: State) {
    gs.GCons? && (Called(p, gs.head, s) || CalledAny(p, gs.tail, Run(p, gs.head, s).s))
  }

  // The tables as each call of g's leaves them.
  function Changes(p: Program, g: GoExpr, s: State): seq<Tables> {
    match g
    case GOp(_, _, args) => ChangesAll(p, args, s)
    case GCall(_, args) => ChangesAll(p, args, s) + [Run(p, g, s).s.tables]
    case GGet(args) => ChangesAll(p, args, s)
    case GField(obj, _) => Changes(p, obj, s)
    case ReadFrom(obj, _) => Changes(p, obj, s)
    case GLook(obj, _) => Changes(p, obj, s)
    case GLogic(isOr, left, right) =>
      var r := Run(p, left, s);
      Changes(p, left, s) + if Decides(isOr, r.v) then [] else Changes(p, right, r.s)
    case GCond(_, _, _) => [Run(p, g, s).s.tables]
    case _ => []
  }

  function ChangesAll(p: Program, gs: GoExprs, s: State): seq<Tables> {
    if gs.GNil? then [] else Changes(p, gs.head, s) + ChangesAll(p, gs.tail, Run(p, gs.head, s).s)
  }

  // Each look of g that may already read ts_layout where the tables are early
  // says what it says in its turn.
  predicate Same(p: Program, g: GoExpr, s: State, early: Tables) {
    match g
    case GOp(_, _, args) => SameAll(p, args, s, early)
    case GCall(_, args) => SameAll(p, args, s, early)
    case GGet(args) => SameAll(p, args, s, early)
    case GField(obj, _) => Same(p, obj, s, early)
    case ReadFrom(obj, _) => Same(p, obj, s, early)
    case GLook(obj, field) =>
      var r := Run(p, obj, s);
      && Same(p, obj, s, early)
      && (r.s.thrown.Some? || Called(p, obj, s) || p.has(early(r.v), field) == p.has(r.s.tables(r.v), field))
    case GLogic(isOr, left, right) =>
      var r := Run(p, left, s);
      Same(p, left, s, early) && (Decides(isOr, r.v) || p.ordered || Called(p, left, s) || Same(p, right, r.s, early))
    case _ => true
  }

  predicate SameAll(p: Program, gs: GoExprs, s: State, early: Tables) {
    gs.GCons? ==> Same(p, gs.head, s, early) && SameAll(p, gs.tail, Run(p, gs.head, s).s, early)
  }

  // Nor does any call of g's own come between.
  predicate Steady(p: Program, g: GoExpr, s: State)
    decreases g, 0
  {
    match g
    case GOp(_, _, args) => SteadyAll(p, args, s)
    case GCall(_, args) => SteadyAll(p, args, s)
    case GGet(args) => SteadyAll(p, args, s)
    case GField(obj, _) => Steady(p, obj, s)
    case ReadFrom(obj, _) => Steady(p, obj, s)
    case GLook(obj, _) => Steady(p, obj, s)
    case GLogic(isOr, left, right) =>
      var r := Run(p, left, s);
      Steady(p, left, s) && (Decides(isOr, r.v) || Good(p, right, r.s))
    case GCond(test, yes, no) =>
      var r := Run(p, test, s);
      Good(p, test, s) && (r.s.thrown.Some? || if r.v != 0 then Good(p, yes, r.s) else Good(p, no, r.s))
    case _ => true
  }

  predicate SteadyAll(p: Program, gs: GoExprs, s: State)
    decreases gs, 0
  {
    gs.GCons? ==>
      var r := Run(p, gs.head, s);
      && Steady(p, gs.head, s) && SteadyAll(p, gs.tail, r.s)
      && forall k :: 0 <= k < |Changes(p, gs.head, s)| ==> SameAll(p, gs.tail, r.s, Changes(p, gs.head, s)[k])
  }

  predicate Good(p: Program, g: GoExpr, s: State)
    decreases g, 1
  {
    Steady(p, g, s) && Same(p, g, s, s.tables)
  }

  predicate GoodAll(p: Program, gs: GoExprs, s: State) { SteadyAll(p, gs, s) && SameAll(p, gs, s, s.tables) }
}
