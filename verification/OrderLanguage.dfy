/**
  Expressions as lowered (ir/expr.go), and what they mean: operands from left
  to right, reads included, up to the first throw.
*/
module OrderLanguage {
  import opened Options

  // What code reads and writes: bindings, objects' fields and key tables, and
  // arrays' elements, of which there is none outside. answers is what each
  // look for a property has said so far, and thrown what has been thrown.
  datatype State = State(
    bindings: nat -> int, fields: (int, nat) -> int, tables: int -> int, elements: (int, int) -> Option<int>,
    answers: seq<int>, thrown: Option<int>)

  // An Op's operands are evaluated and its value computed, by a check that may
  // throw where Go spells it as a call (Unwrap's Must, Unbox, a runtime
  // function); no code of the program's runs. A Call then runs code that may
  // change anything but a stable binding, or throw. A field's set and an append
  // are calls or ops of what they are made of. Logic is && and ||.
  datatype Expr =
    | Lit(v: int)
    | Ident(x: nat, stable: bool)
    | Op(op: nat, called: bool, args: Exprs)
    | Call(f: nat, args: Exprs)
    | FieldGet(obj: Expr, field: nat)
    | HasField(obj: Expr, field: nat)      // "f" in obj
    | Index(arr: Expr, index: Expr)
    | Logic(isOr: bool, left: Expr, right: Expr)
    | Cond(test: Expr, yes: Expr, no: Expr)

  datatype Exprs = Nil | Cons(head: Expr, tail: Exprs)

  datatype Checked = Passes(v: int) | Fails(t: int)

  // What calls and operators do, what an element outside its array throws, and
  // whether a table lists a field; tables are never changed, only replaced.
  // ordered is whether Go orders && and || among the calls, as its
  // specification now says and once left open.
  datatype Program = Program(
    op: (nat, seq<int>) -> int, check: (nat, seq<int>) -> Checked, call: (nat, seq<int>, State) -> (int, State),
    outside: (int, int) -> int, has: (int, nat) -> int, stable: nat -> bool, ordered: bool)

  // No call writes a stable binding, or takes back an answer.
  ghost predicate Honest(p: Program) {
    forall f: nat, args: seq<int>, s: State :: HonestCall(p, s, p.call(f, args, s).1)
  }

  ghost predicate HonestCall(p: Program, s: State, t: State) {
    && (forall x: nat :: p.stable(x) ==> t.bindings(x) == s.bindings(x))
    && s.answers <= t.answers
  }

  // Stable is set only on bindings that are.
  predicate Marked(p: Program, e: Expr) {
    match e
    case Lit(_) => true
    case Ident(x, stable) => stable ==> p.stable(x)
    case Op(_, _, args) => MarkedAll(p, args)
    case Call(_, args) => MarkedAll(p, args)
    case FieldGet(obj, _) => Marked(p, obj)
    case HasField(obj, _) => Marked(p, obj)
    case Index(arr, index) => Marked(p, arr) && Marked(p, index)
    case Logic(_, left, right) => Marked(p, left) && Marked(p, right)
    case Cond(test, yes, no) => Marked(p, test) && Marked(p, yes) && Marked(p, no)
  }

  predicate MarkedAll(p: Program, es: Exprs) { es.Cons? ==> Marked(p, es.head) && MarkedAll(p, es.tail) }

  // The left operand is the value, and the right is not evaluated.
  predicate Decides(isOr: bool, v: int) { (v != 0) == isOr }

  // What evaluating comes to: a value, or a throw, which s.thrown is.
  datatype Outcome = Gave(v: int, s: State) | Threw(s: State)

  datatype Outcomes = All(vs: seq<int>, s: State) | Stopped(s: State)

  function OutcomeOf(v: int, s: State): Outcome { if s.thrown.Some? then Threw(s) else Gave(v, s) }

  function Eval(p: Program, e: Expr, s: State): Outcome {
    match e
    case Lit(v) => Gave(v, s)
    case Ident(x, _) => Gave(s.bindings(x), s)
    case Op(op, called, args) =>
      (match EvalAll(p, args, s)
       case Stopped(t) => Threw(t)
       case All(vs, t) =>
         if !called then Gave(p.op(op, vs), t)
         else match p.check(op, vs)
           case Passes(v) => Gave(v, t)
           case Fails(x) => Threw(t.(thrown := Some(x))))
    case Call(f, args) =>
      (match EvalAll(p, args, s)
       case Stopped(t) => Threw(t)
       case All(vs, t) => var c := p.call(f, vs, t); OutcomeOf(c.0, c.1))
    case FieldGet(obj, field) =>
      (match Eval(p, obj, s)
       case Threw(t) => Threw(t)
       case Gave(o, t) => Gave(t.fields(o, field), t))
    case HasField(obj, field) =>
      (match Eval(p, obj, s)
       case Threw(t) => Threw(t)
       case Gave(o, t) => var v := p.has(t.tables(o), field); Gave(v, t.(answers := t.answers + [v])))
    case Index(arr, index) =>
      (match Eval(p, arr, s)
       case Threw(t) => Threw(t)
       case Gave(a, t) =>
         match Eval(p, index, t)
         case Threw(u) => Threw(u)
         case Gave(i, u) =>
           match u.elements(a, i)
           case Some(v) => Gave(v, u)
           case None => Threw(u.(thrown := Some(p.outside(a, i)))))
    case Logic(isOr, left, right) =>
      (match Eval(p, left, s)
       case Threw(t) => Threw(t)
       case Gave(v, t) =>
         if isOr then (if v != 0 then Gave(v, t) else Eval(p, right, t))
         else if v != 0 then Eval(p, right, t)
         else Gave(v, t))
    case Cond(test, yes, no) =>
      match Eval(p, test, s)
      case Threw(t) => Threw(t)
      case Gave(v, t) => if v != 0 then Eval(p, yes, t) else Eval(p, no, t)
  }

  function EvalAll(p: Program, es: Exprs, s: State): Outcomes {
    if es.Nil? then All([], s)
    else
      match Eval(p, es.head, s)
      case Threw(t) => Stopped(t)
      case Gave(v, t) =>
        match EvalAll(p, es.tail, t)
        case Stopped(u) => Stopped(u)
        case All(vs, u) => All([v] + vs, u)
  }

  // The same, going on after a throw and doing nothing.

  datatype Result = Result(v: int, s: State)

  datatype Results = Results(vs: seq<int>, s: State)

  function Raise(s: State, t: int): State { if s.thrown.Some? then s else s.(thrown := Some(t)) }

  function Look(p: Program, table: int, field: nat, s: State): Result {
    if s.thrown.Some? then Result(0, s) else var v := p.has(table, field); Result(v, s.(answers := s.answers + [v]))
  }

  function Do(p: Program, f: nat, vs: seq<int>, s: State): Result {
    if s.thrown.Some? then Result(0, s) else var c := p.call(f, vs, s); Result(c.0, c.1)
  }

  function Operate(p: Program, op: nat, called: bool, vs: seq<int>, s: State): Result {
    if !called then Result(p.op(op, vs), s)
    else match p.check(op, vs)
      case Passes(v) => Result(v, s)
      case Fails(x) => Result(0, Raise(s, x))
  }

  function Element(p: Program, a: int, i: int, s: State): Result {
    match s.elements(a, i)
    case Some(v) => Result(v, s)
    case None => Result(0, Raise(s, p.outside(a, i)))
  }

  // Where a literal has thrown it has no value.
  function Left(r: Result): Result { if r.s.thrown.Some? then Result(0, r.s) else r }

  function Flow(p: Program, e: Expr, s: State): Result {
    match e
    case Lit(v) => Result(v, s)
    case Ident(x, _) => Result(s.bindings(x), s)
    case Op(op, called, args) => var r := FlowAll(p, args, s); Operate(p, op, called, r.vs, r.s)
    case Call(f, args) => var r := FlowAll(p, args, s); Do(p, f, r.vs, r.s)
    case FieldGet(obj, field) => var r := Flow(p, obj, s); Result(r.s.fields(r.v, field), r.s)
    case HasField(obj, field) =>
      var r := Flow(p, obj, s);
      Look(p, r.s.tables(r.v), field, r.s)
    case Index(arr, index) =>
      var a := Flow(p, arr, s);
      var i := Flow(p, index, a.s);
      Element(p, a.v, i.v, i.s)
    case Logic(isOr, left, right) => var r := Flow(p, left, s); if Decides(isOr, r.v) then r else Flow(p, right, r.s)
    case Cond(test, yes, no) =>
      var r := Flow(p, test, s);
      Left(if r.s.thrown.Some? then r else if r.v != 0 then Flow(p, yes, r.s) else Flow(p, no, r.s))
  }

  function FlowAll(p: Program, es: Exprs, s: State): Results {
    if es.Nil? then Results([], s)
    else
      var r := Flow(p, es.head, s);
      var rest := FlowAll(p, es.tail, r.s);
      Results([r.v] + rest.vs, rest.s)
  }

  lemma {:induction false} ThrownFlow(p: Program, e: Expr, s: State)
    requires s.thrown.Some?
    ensures Flow(p, e, s).s == s
    decreases e
  {
    match e
    case Op(_, _, args) => ThrownFlowAll(p, args, s);
    case Call(_, args) => ThrownFlowAll(p, args, s);
    case FieldGet(obj, _) => ThrownFlow(p, obj, s);
    case HasField(obj, _) => ThrownFlow(p, obj, s);
    case Index(arr, index) =>
      ThrownFlow(p, arr, s);
      ThrownFlow(p, index, s);
    case Logic(_, left, right) =>
      ThrownFlow(p, left, s);
      ThrownFlow(p, right, s);
    case Cond(test, _, _) => ThrownFlow(p, test, s);
    case _ =>
  }

  lemma {:induction false} ThrownFlowAll(p: Program, es: Exprs, s: State)
    requires s.thrown.Some?
    ensures FlowAll(p, es, s).s == s
    decreases es
  {
    if es.Cons? {
      ThrownFlow(p, es.head, s);
      ThrownFlowAll(p, es.tail, s);
    }
  }

  /** Stopping at a throw and going on with nothing done are the same. */
  lemma {:induction false} FlowIsEval(p: Program, e: Expr, s: State)
    requires s.thrown.None?
    ensures Eval(p, e, s) == OutcomeOf(Flow(p, e, s).v, Flow(p, e, s).s)
    decreases e
  {
    match e
    case Op(_, _, args) => FlowAllIsEval(p, args, s);
    case Call(_, args) => FlowAllIsEval(p, args, s);
    case FieldGet(obj, _) => FlowIsEval(p, obj, s);
    case HasField(obj, _) => FlowIsEval(p, obj, s);
    case Index(arr, index) =>
      FlowIsEval(p, arr, s);
      var a := Flow(p, arr, s);
      if a.s.thrown.Some? { ThrownFlow(p, index, a.s); } else { FlowIsEval(p, index, a.s); }
    case Logic(_, left, right) =>
      FlowIsEval(p, left, s);
      var r := Flow(p, left, s);
      if r.s.thrown.Some? { ThrownFlow(p, right, r.s); } else { FlowIsEval(p, right, r.s); }
    case Cond(test, yes, no) =>
      FlowIsEval(p, test, s);
      var r := Flow(p, test, s);
      if r.s.thrown.None? { FlowIsEval(p, if r.v != 0 then yes else no, r.s); }
    case _ =>
  }

  lemma {:induction false} FlowAllIsEval(p: Program, es: Exprs, s: State)
    requires s.thrown.None?
    ensures var r := FlowAll(p, es, s); EvalAll(p, es, s) == if r.s.thrown.Some? then Stopped(r.s) else All(r.vs, r.s)
    decreases es
  {
    if es.Cons? {
      FlowIsEval(p, es.head, s);
      var r := Flow(p, es.head, s);
      if r.s.thrown.Some? { ThrownFlowAll(p, es.tail, r.s); } else { FlowAllIsEval(p, es.tail, r.s); }
    }
  }
}
