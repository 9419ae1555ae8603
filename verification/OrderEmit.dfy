/**
  The emitter (backend/order.go, emit_object.go, emit_optional.go,
  emit_array.go, emit_cond.go): with the order flag, reads of bindings that are
  ever written, and of fields, become calls.
*/
module OrderEmit {
  import opened OrderLanguage
  import opened OrderTarget

  // isCall and innerCall.

  predicate IsCall(e: Expr) { e.Call? }

  predicate InnerCall(e: Expr)
    decreases e, 0
  {
    match e
    case Op(_, _, args) => AnyCall(args)
    case Call(_, args) => AnyCall(args)
    case FieldGet(obj, _) => Acts(obj)
    case HasField(obj, _) => Acts(obj)
    case Index(arr, index) => Acts(arr) || Acts(index)
    case Logic(_, left, right) => Acts(left) || Acts(right)
    case Cond(test, yes, no) => Acts(test) || Acts(yes) || Acts(no)
    case _ => false
  }

  predicate Acts(e: Expr)
    decreases e, 1
  {
    IsCall(e) || InnerCall(e)
  }

  predicate AnyCall(es: Exprs)
    decreases es, 0
  {
    es.Cons? && (Acts(es.head) || AnyCall(es.tail))
  }

  function Emit(e: Expr, order: bool): GoExpr
    decreases e, 0
  {
    match e
    case Lit(v) => GLit(v)
    case Ident(x, stable) => if !order || stable then GVar(x) else ReadVar(x, [])
    case Op(op, called, args) => GOp(op, called, EmitAll(args, order))
    case Call(f, args) => GCall(f, EmitAll(args, order))
    case FieldGet(obj, field) => if order then EmitPath(obj, [field]) else GField(Emit(obj, order), field)
    case HasField(obj, field) => GLook(Emit(obj, order), field)
    case Index(arr, index) => GGet(GCons(Emit(arr, order), GCons(Emit(index, order), GNil)))
    case Logic(isOr, left, right) => GLogic(isOr, Emit(left, order), Emit(right, order))
    case Cond(test, yes, no) =>
      // each a whole expression of the literal's body
      GCond(Emit(test, InnerCall(test)), Emit(yes, InnerCall(yes)), Emit(no, InnerCall(no)))
  }

  function EmitAll(es: Exprs, order: bool): GoExprs
    decreases es, 0
  {
    if es.Nil? then GNil else GCons(Emit(es.head, order), EmitAll(es.tail, order))
  }

  // path: the binding and the fields leading to it are read as one.
  function EmitPath(obj: Expr, path: seq<nat>): GoExpr
    decreases obj, 1
  {
    match obj
    case Ident(x, _) => ReadVar(x, path)
    case FieldGet(o, field) => EmitPath(o, [field] + path)
    case _ => ReadFrom(Emit(obj, true), path)
  }

  function Full(e: Expr): GoExpr { Emit(e, InnerCall(e)) }

  // The emitter's flag, set for each whole expression and put back.
  class Emitter {
    var order: bool

    constructor ()
      ensures !order
    {
      order := false;
    }

    /** full. */
    method EmitFull(x: Expr) returns (g: GoExpr)
      modifies this
      ensures order == old(order) && g == Full(x)
      decreases x, 2
    {
      var saved := order;
      order := InnerCall(x);
      g := EmitExpr(x);
      order := saved;
    }

    method EmitExpr(x: Expr) returns (g: GoExpr)
      modifies this
      ensures order == old(order) && g == Emit(x, order)
      decreases x, 0
    {
      match x
      case Lit(v) => g := GLit(v);
      case Ident(name, stable) => g := if !order || stable then GVar(name) else ReadVar(name, []);
      case Op(op, called, args) =>
        var gs := EmitList(args);
        g := GOp(op, called, gs);
      case Call(f, args) =>
        var gs := EmitList(args);
        g := GCall(f, gs);
      case FieldGet(obj, field) =>
        if !order {
          var o := EmitExpr(obj);
          return GField(o, field);
        }
        g := PathTo(obj, [field]);
      case HasField(obj, field) =>
        var o := EmitExpr(obj);
        g := GLook(o, field);
      case Index(arr, index) =>
        var a := EmitExpr(arr);
        var i := EmitExpr(index);
        g := GGet(GCons(a, GCons(i, GNil)));
      case Logic(isOr, left, right) =>
        var l := EmitExpr(left);
        var r := EmitExpr(right);
        g := GLogic(isOr, l, r);
      case Cond(test, yes, no) =>
        var t := EmitFull(test);
        var y := EmitFull(yes);
        var n := EmitFull(no);
        g := GCond(t, y, n);
    }

    method EmitList(xs: Exprs) returns (gs: GoExprs)
      modifies this
      ensures order == old(order) && gs == EmitAll(xs, order)
      decreases xs, 0
    {
      if xs.Nil? { return GNil; }
      var g := EmitExpr(xs.head);
      var rest := EmitList(xs.tail);
      gs := GCons(g, rest);
    }

    /** path. */
    method PathTo(obj: Expr, path: seq<nat>) returns (g: GoExpr)
      requires order
      modifies this
      ensures order == old(order) && g == EmitPath(obj, path)
      decreases obj, 1
    {
      match obj
      case Ident(x, _) => g := ReadVar(x, path);
      case FieldGet(o, field) => g := PathTo(o, [field] + path);
      case _ =>
        var o := EmitExpr(obj);
        g := ReadFrom(o, path);
    }
  }

  // Emitted code means its expression, taken left to right.

  lemma {:induction false} EmitMeans(p: Program, e: Expr, order: bool, s: State)
    ensures Run(p, Emit(e, order), s) == Flow(p, e, s)
    decreases e, 0
  {
    match e
    case Op(_, _, args) => EmitAllMeans(p, args, order, s);
    case Call(_, args) => EmitAllMeans(p, args, order, s);
    case FieldGet(obj, field) =>
      if order {
        PathMeans(p, obj, [field], s);
        FollowOne(Flow(p, obj, s).s, Flow(p, obj, s).v, field);
      } else {
        EmitMeans(p, obj, order, s);
      }
    case HasField(obj, _) => EmitMeans(p, obj, order, s);
    case Index(arr, index) =>
      EmitMeans(p, arr, order, s);
      EmitMeans(p, index, order, Flow(p, arr, s).s);
      PairRuns(p, Emit(arr, order), Emit(index, order), s);
    case Logic(_, left, right) =>
      EmitMeans(p, left, order, s);
      EmitMeans(p, right, order, Flow(p, left, s).s);
    case Cond(test, yes, no) =>
      EmitMeans(p, test, InnerCall(test), s);
      var r := Flow(p, test, s);
      EmitMeans(p, yes, InnerCall(yes), r.s);
      EmitMeans(p, no, InnerCall(no), r.s);
    case _ =>
  }

  lemma {:induction false} EmitAllMeans(p: Program, es: Exprs, order: bool, s: State)
    ensures RunAll(p, EmitAll(es, order), s) == FlowAll(p, es, s)
    decreases es, 0
  {
    if es.Cons? {
      EmitMeans(p, es.head, order, s);
      EmitAllMeans(p, es.tail, order, Flow(p, es.head, s).s);
    }
  }

  lemma {:induction false} PairRuns(p: Program, a: GoExpr, b: GoExpr, s: State)
    ensures var r := Run(p, a, s); RunAll(p, GCons(a, GCons(b, GNil)), s) == Results([r.v, Run(p, b, r.s).v], Run(p, b, r.s).s)
  {
    var r := Run(p, a, s);
    assert RunAll(p, GCons(b, GNil), r.s) == Results([Run(p, b, r.s).v], Run(p, b, r.s).s);
  }

  lemma {:induction false} FollowOne(s: State, o: int, field: nat)
    ensures Follow(s, o, [field]) == s.fields(o, field)
  {
    assert [field][1..] == [];
  }

  lemma {:induction false} PathMeans(p: Program, obj: Expr, path: seq<nat>, s: State)
    ensures var r := Flow(p, obj, s); Run(p, EmitPath(obj, path), s) == Result(Follow(r.s, r.v, path), r.s)
    decreases obj, 1
  {
    match obj
    case Ident(_, _) =>
    case FieldGet(o, field) =>
      PathMeans(p, o, [field] + path, s);
      assert ([field] + path)[1..] == path;
    case _ => EmitMeans(p, obj, true, s);
  }
}
