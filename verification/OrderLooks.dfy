/**
  Which of an expression's looks for a property are answered in Go as in
  JavaScript, said of the expression itself.
*/
module OrderLooks {
  import opened OrderLanguage
  import opened OrderTarget
  import opened OrderEmit
  import opened OrderWatch
  import opened OrderCorrect

  // Evaluating e does something Go orders: anything but plain reads of stable
  // bindings and operators.
  predicate Ordered(p: Program, e: Expr, s: State) {
    match e
    case Lit(_) => false
    case Ident(_, stable) => !stable
    case Op(_, called, args) => called || AnyOrdered(p, args, s)
    case Logic(isOr, left, right) =>
      var r := Flow(p, left, s);
      p.ordered || Ordered(p, left, s) || (!Decides(isOr, r.v) && Ordered(p, right, r.s))
    case _ => true
  }

  predicate AnyOrdered(p: Program, es: Exprs, s: State) {
    es.Cons? && (Ordered(p, es.head, s) || AnyOrdered(p, es.tail, Flow(p, es.head, s).s))
  }

  // The tables as each call of e's leaves them.
  function Tabled(p: Program, e: Expr, s: State): seq<Tables> {
    match e
    case Op(_, _, args) => AllTabled(p, args, s)
    case Call(_, args) => AllTabled(p, args, s) + [Flow(p, e, s).s.tables]
    case FieldGet(obj, _) => Tabled(p, obj, s)
    case HasField(obj, _) => Tabled(p, obj, s)
    case Index(arr, index) => Tabled(p, arr, s) + Tabled(p, index, Flow(p, arr, s).s)
    case Logic(isOr, left, right) =>
      var r := Flow(p, left, s);
      Tabled(p, left, s) + if Decides(isOr, r.v) then [] else Tabled(p, right, r.s)
    case Cond(_, _, _) => [Flow(p, e, s).s.tables]
    case _ => []
  }

  function AllTabled(p: Program, es: Exprs, s: State): seq<Tables> {
    if es.Nil? then [] else Tabled(p, es.head, s) + AllTabled(p, es.tail, Flow(p, es.head, s).s)
  }

  // Each look at an object that is plainly read, and so may be read where the
  // tables were early, answers as it would have then. An operand of && or ||
  // is not read before the operand before it.
  predicate Answers(p: Program, e: Expr, s: State, early: Tables) {
    match e
    case Op(_, _, args) => AllAnswer(p, args, s, early)
    case Call(_, args) => AllAnswer(p, args, s, early)
    case FieldGet(obj, _) => Answers(p, obj, s, early)
    case HasField(obj, field) =>
      var r := Flow(p, obj, s);
      && Answers(p, obj, s, early)
      && (r.s.thrown.Some? || Ordered(p, obj, s) || p.has(early(r.v), field) == p.has(r.s.tables(r.v), field))
    case Index(arr, index) => Answers(p, arr, s, early) && Answers(p, index, Flow(p, arr, s).s, early)
    case Logic(isOr, left, right) =>
      var r := Flow(p, left, s);
      && Answers(p, left, s, early)
      && (Decides(isOr, r.v) || p.ordered || Ordered(p, left, s) || Answers(p, right, r.s, early))
    case _ => true
  }

  predicate AllAnswer(p: Program, es: Exprs, s: State, early: Tables) {
    es.Cons? ==> Answers(p, es.head, s, early) && AllAnswer(p, es.tail, Flow(p, es.head, s).s, early)
  }

  // And as it would have after each call of the same expression before it.
  predicate Holds(p: Program, e: Expr, s: State)
    decreases e, 0
  {
    match e
    case Op(_, _, args) => AllHold(p, args, s)
    case Call(_, args) => AllHold(p, args, s)
    case FieldGet(obj, _) => Holds(p, obj, s)
    case HasField(obj, _) => Holds(p, obj, s)
    case Index(arr, index) =>
      var r := Flow(p, arr, s);
      && Holds(p, arr, s) && Holds(p, index, r.s)
      && forall k :: 0 <= k < |Tabled(p, arr, s)| ==> Answers(p, index, r.s, Tabled(p, arr, s)[k])
    case Logic(isOr, left, right) =>
      var r := Flow(p, left, s);
      Holds(p, left, s) && (Decides(isOr, r.v) || (Holds(p, right, r.s) && Answers(p, right, r.s, r.s.tables)))
    case Cond(test, yes, no) =>
      var r := Flow(p, test, s);
      LooksHold(p, test, s) && (r.s.thrown.Some? || if r.v != 0 then LooksHold(p, yes, r.s) else LooksHold(p, no, r.s))
    case _ => true
  }

  predicate AllHold(p: Program, es: Exprs, s: State)
    decreases es, 0
  {
    es.Cons? ==>
      var r := Flow(p, es.head, s);
      && Holds(p, es.head, s) && AllHold(p, es.tail, r.s)
      && forall k :: 0 <= k < |Tabled(p, es.head, s)| ==> AllAnswer(p, es.tail, r.s, Tabled(p, es.head, s)[k])
  }

  /** Of a whole expression from s: no call of it changes the answer of a look
      that comes after, at an object that is plainly read. */
  predicate LooksHold(p: Program, e: Expr, s: State)
    decreases e, 1
  {
    InnerCall(e) ==> Holds(p, e, s) && Answers(p, e, s, s.tables)
  }

  // What is emitted in order is watched as its expression is.

  ghost predicate Watched(p: Program, g: GoExpr, e: Expr, s: State) {
    && Changes(p, g, s) == Tabled(p, e, s) && (Steady(p, g, s) <==> Holds(p, e, s))
    && forall early :: Same(p, g, s, early) <==> Answers(p, e, s, early)
  }

  ghost predicate AllWatched(p: Program, gs: GoExprs, es: Exprs, s: State) {
    && ChangesAll(p, gs, s) == AllTabled(p, es, s) && (SteadyAll(p, gs, s) <==> AllHold(p, es, s))
    && forall early :: SameAll(p, gs, s, early) <==> AllAnswer(p, es, s, early)
  }

  lemma {:induction false} EmitWatched(p: Program, e: Expr, s: State)
    requires Honest(p)
    ensures Watched(p, Emit(e, true), e, s) && Called(p, Emit(e, true), s) == Ordered(p, e, s)
    decreases e, 0
  {
    EmitMeans(p, e, true, s);
    match e
    case Op(_, _, args) => EmitAllWatched(p, args, s);
    case Call(_, args) => EmitAllWatched(p, args, s);
    case FieldGet(obj, field) => PathWatched(p, obj, [field], s);
    case HasField(obj, _) => EmitWatched(p, obj, s); EmitMeans(p, obj, true, s);
    case Index(arr, index) => IndexWatched(p, arr, index, s);
    case Logic(_, left, right) =>
      EmitMeans(p, left, true, s);
      EmitWatched(p, left, s);
      EmitWatched(p, right, Flow(p, left, s).s);
    case Cond(test, yes, no) =>
      EmitMeans(p, test, InnerCall(test), s);
      var r := Flow(p, test, s);
      FullIsGood(p, test, s);
      if r.v != 0 { FullIsGood(p, yes, r.s); } else { FullIsGood(p, no, r.s); }
    case _ =>
  }

  lemma {:induction false} EmitAllWatched(p: Program, es: Exprs, s: State)
    requires Honest(p)
    ensures AllWatched(p, EmitAll(es, true), es, s) && CalledAny(p, EmitAll(es, true), s) == AnyOrdered(p, es, s)
    decreases es, 0
  {
    if es.Cons? {
      EmitMeans(p, es.head, true, s);
      EmitWatched(p, es.head, s);
      EmitAllWatched(p, es.tail, Flow(p, es.head, s).s);
    }
  }

  lemma {:induction false} IndexWatched(p: Program, arr: Expr, index: Expr, s: State)
    requires Honest(p)
    ensures Watched(p, Emit(Index(arr, index), true), Index(arr, index), s)
    decreases Index(arr, index), -1
  {
    EmitMeans(p, arr, true, s);
    EmitWatched(p, arr, s);
    EmitWatched(p, index, Flow(p, arr, s).s);
    OneIsWatched(p, Emit(index, true), Flow(p, arr, s).s);
  }

  lemma {:induction false} OneIsWatched(p: Program, g: GoExpr, s: State)
    ensures ChangesAll(p, GCons(g, GNil), s) == Changes(p, g, s) && (SteadyAll(p, GCons(g, GNil), s) <==> Steady(p, g, s))
    ensures forall early :: SameAll(p, GCons(g, GNil), s, early) <==> Same(p, g, s, early)
  {
    var end := Run(p, g, s).s;
    assert ChangesAll(p, GNil, end) == [] && SteadyAll(p, GNil, end) && forall early :: SameAll(p, GNil, end, early);
  }

  lemma {:induction false} PairIsFixed(p: Program, quiet: bool, a: GoExpr, b: GoExpr)
    requires Fixed(p, quiet, a) && Fixed(p, quiet, b)
    ensures FixedAll(p, quiet, GCons(a, GCons(b, GNil)))
  {
    assert FixedAll(p, quiet, GCons(b, GNil));
  }

  lemma {:induction false} PathWatched(p: Program, obj: Expr, path: seq<nat>, s: State)
    requires Honest(p)
    ensures Watched(p, EmitPath(obj, path), obj, s) && Called(p, EmitPath(obj, path), s)
    decreases obj, 1
  {
    match obj
    case Ident(_, _) =>
    case FieldGet(o, field) => PathWatched(p, o, [field] + path, s);
    case _ => EmitWatched(p, obj, s);
  }

  // Emitted whole, an expression is good exactly where its looks hold.
  lemma {:induction false} FullIsGood(p: Program, e: Expr, s: State)
    requires Honest(p)
    ensures Good(p, Full(e), s) <==> LooksHold(p, e, s)
    decreases e, 2
  {
    if InnerCall(e) {
      EmitWatched(p, e, s);
    } else if e.Call? {
      PlainDoNotAct(p, e.args);
      QuietAreGood(p, EmitAll(e.args, false), s, s.tables);
    } else {
      PlainDoesNotAct(p, e);
      QuietIsGood(p, Full(e), s, s.tables);
    }
  }

  // The emitted form is ready.

  lemma {:induction false} PlainDoesNotAct(p: Program, e: Expr)
    requires !Acts(e)
    ensures Fixed(p, true, Emit(e, false))
    decreases e
  {
    match e
    case Op(_, _, args) => PlainDoNotAct(p, args);
    case FieldGet(obj, _) => PlainDoesNotAct(p, obj);
    case HasField(obj, _) => PlainDoesNotAct(p, obj);
    case Index(arr, index) =>
      PlainDoesNotAct(p, arr);
      PlainDoesNotAct(p, index);
      PairIsFixed(p, true, Emit(arr, false), Emit(index, false));
    case Logic(_, left, right) => PlainDoesNotAct(p, left); PlainDoesNotAct(p, right);
    case Cond(test, yes, no) =>
      PlainDoesNotAct(p, test);
      PlainDoesNotAct(p, yes);
      PlainDoesNotAct(p, no);
    case _ =>
  }

  lemma {:induction false} PlainDoNotAct(p: Program, es: Exprs)
    requires !AnyCall(es)
    ensures FixedAll(p, true, EmitAll(es, false))
    decreases es
  {
    if es.Cons? {
      PlainDoesNotAct(p, es.head);
      PlainDoNotAct(p, es.tail);
    }
  }

  lemma {:induction false} OrderedIsFixed(p: Program, e: Expr)
    requires Marked(p, e)
    ensures Fixed(p, false, Emit(e, true))
    decreases e, 0
  {
    match e
    case Op(_, _, args) => AllOrderedAreFixed(p, args);
    case Call(_, args) => AllOrderedAreFixed(p, args);
    case FieldGet(obj, field) => PathIsFixed(p, obj, [field]);
    case HasField(obj, _) => OrderedIsFixed(p, obj);
    case Index(arr, index) =>
      OrderedIsFixed(p, arr);
      OrderedIsFixed(p, index);
      PairIsFixed(p, false, Emit(arr, true), Emit(index, true));
    case Logic(_, left, right) => OrderedIsFixed(p, left); OrderedIsFixed(p, right);
    case Cond(test, yes, no) =>
      FullIsReady(p, test);
      FullIsReady(p, yes);
      FullIsReady(p, no);
    case _ =>
  }

  lemma {:induction false} AllOrderedAreFixed(p: Program, es: Exprs)
    requires MarkedAll(p, es)
    ensures FixedAll(p, false, EmitAll(es, true))
    decreases es, 0
  {
    if es.Cons? {
      OrderedIsFixed(p, es.head);
      AllOrderedAreFixed(p, es.tail);
    }
  }

  lemma {:induction false} PathIsFixed(p: Program, obj: Expr, path: seq<nat>)
    requires Marked(p, obj)
    ensures Fixed(p, false, EmitPath(obj, path))
    decreases obj, 1
  {
    match obj
    case Ident(_, _) =>
    case FieldGet(o, field) => PathIsFixed(p, o, [field] + path);
    case _ => OrderedIsFixed(p, obj);
  }

  lemma {:induction false} FullIsReady(p: Program, e: Expr)
    requires Marked(p, e)
    ensures Ready(p, Full(e))
    decreases e, 2
  {
    if InnerCall(e) { OrderedIsFixed(p, e); }
    else if e.Call? { PlainDoNotAct(p, e.args); }
    else { PlainDoesNotAct(p, e); }
  }
}
