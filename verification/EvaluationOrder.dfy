/**
  Left-to-right evaluation in Go (backend/order.go): what is emitted for an
  expression gives the value, the effects and the answers of JavaScript's
  evaluation, whatever order Go takes its reads in, exactly where its looks
  for properties hold; and always, but for a look at a plainly read object
  after a call.
*/
module EvaluationOrder {
  import opened Options
  import opened OrderLanguage
  import opened OrderTarget
  import opened OrderEmit
  import opened OrderWatch
  import opened OrderCorrect
  import opened OrderExact
  import opened OrderLooks

  // What an evaluation of what is emitted for e comes to.
  function GoOutcome(p: Program, e: Expr, s: State, steps: Steps): Outcome
    requires Ends(p, Full(e), s, steps)
  {
    var end := After(p, Full(e), s, steps);
    OutcomeOf(if end.0.GLit? then end.0.v else 0, end.1)
  }

  ghost predicate AlwaysRight(p: Program, e: Expr, s: State) {
    forall steps :: Ends(p, Full(e), s, steps) ==> GoOutcome(p, e, s, steps) == Eval(p, e, s)
  }

  /** Where the looks hold, an evaluation of Go's comes to just what the
      expression does: its value, or the throw that comes first; and what was
      done and answered by then. */
  lemma EvaluatesLeftToRight(p: Program, e: Expr, s: State, steps: Steps)
    requires Honest(p) && Marked(p, e) && s.thrown.None? && LooksHold(p, e, s) && Ends(p, Full(e), s, steps)
    ensures GoOutcome(p, e, s, steps) == Eval(p, e, s)
  {
    FullIsReady(p, e);
    FullIsGood(p, e, s);
    StepsMean(p, Full(e), s, steps);
    EmitMeans(p, e, InnerCall(e), s);
    FlowIsEval(p, e, s);
    var end := After(p, Full(e), s, steps);
    if end.1.thrown.Some? { ThrownRun(p, end.0, end.1); }
  }

  /** A look that doesn't hold has an evaluation that answers it otherwise. */
  lemma AnswersOtherwise(p: Program, e: Expr, s: State) returns (steps: Steps)
    requires Honest(p) && Marked(p, e) && s.thrown.None? && !LooksHold(p, e, s)
    ensures Ends(p, Full(e), s, steps) && Differ(GoOutcome(p, e, s, steps).s.answers, Eval(p, e, s).s.answers)
  {
    FullIsReady(p, e);
    FullIsGood(p, e, s);
    EmitMeans(p, e, InnerCall(e), s);
    FlowIsEval(p, e, s);
    steps := Diverges(p, Full(e), s);
  }

  /** Every evaluation Go allows is right if and only if no call changes the
      answer of a look after it at a plainly read object. */
  lemma RightWhereLooksHold(p: Program, e: Expr, s: State)
    requires Honest(p) && Marked(p, e) && s.thrown.None?
    ensures AlwaysRight(p, e, s) <==> LooksHold(p, e, s)
  {
    if LooksHold(p, e, s) {
      forall steps | Ends(p, Full(e), s, steps)
        ensures GoOutcome(p, e, s, steps) == Eval(p, e, s)
      {
        EvaluatesLeftToRight(p, e, s, steps);
      }
    } else {
      var steps := AnswersOtherwise(p, e, s);
      assert GoOutcome(p, e, s, steps) != Eval(p, e, s);
    }
  }

  /** There is one to be right: left to right itself. */
  lemma LeftToRightIsAllowed(p: Program, e: Expr, s: State) returns (steps: Steps)
    requires s.thrown.None?
    ensures Ends(p, Full(e), s, steps) && GoOutcome(p, e, s, steps) == Eval(p, e, s)
  {
    steps := Finishes(p, Full(e), s);
    EmitMeans(p, e, InnerCall(e), s);
    FlowIsEval(p, e, s);
  }

  // Told from the text alone: no look at a plain object comes after a call.

  // e may be evaluated by plain reads and operators.
  predicate Plain(e: Expr) {
    match e
    case Lit(_) => true
    case Ident(_, stable) => stable
    case Op(_, called, args) => !called && AllPlain(args)
    case Logic(_, left, _) => Plain(left)
    case _ => false
  }

  predicate AllPlain(es: Exprs) { es.Cons? ==> Plain(es.head) && AllPlain(es.tail) }

  predicate LooksFirst(e: Expr, acted: bool)
    decreases e, 0
  {
    match e
    case Op(_, _, args) => AllLookFirst(args, acted)
    case Call(_, args) => AllLookFirst(args, acted)
    case FieldGet(obj, _) => LooksFirst(obj, acted)
    case HasField(obj, _) => LooksFirst(obj, acted) && !(acted && Plain(obj))
    case Index(arr, index) => LooksFirst(arr, acted) && LooksFirst(index, acted || Acts(arr))
    case Logic(_, left, right) => LooksFirst(left, acted) && LooksFirst(right, acted || Acts(left))
    case Cond(test, yes, no) => LooksFirst(test, false) && LooksFirst(yes, false) && LooksFirst(no, false)
    case _ => true
  }

  predicate AllLookFirst(es: Exprs, acted: bool)
    decreases es, 0
  {
    es.Cons? ==> LooksFirst(es.head, acted) && AllLookFirst(es.tail, acted || Acts(es.head))
  }

  lemma {:induction false} OrderedUnlessPlain(p: Program, e: Expr, s: State)
    requires !Plain(e)
    ensures Ordered(p, e, s)
    decreases e
  {
    match e
    case Op(_, called, args) => if !called { SomeOrderedUnlessPlain(p, args, s); }
    case Logic(_, left, _) => OrderedUnlessPlain(p, left, s);
    case _ =>
  }

  lemma {:induction false} SomeOrderedUnlessPlain(p: Program, es: Exprs, s: State)
    requires !AllPlain(es)
    ensures AnyOrdered(p, es, s)
    decreases es
  {
    if Plain(es.head) { SomeOrderedUnlessPlain(p, es.tail, Flow(p, es.head, s).s); } else { OrderedUnlessPlain(p, es.head, s); }
  }

  // What doesn't act leaves the tables alone.
  lemma {:induction false} TablesStay(p: Program, e: Expr, s: State)
    requires !Acts(e)
    ensures Flow(p, e, s).s.tables == s.tables && forall k :: 0 <= k < |Tabled(p, e, s)| ==> Tabled(p, e, s)[k] == s.tables
    decreases e
  {
    match e
    case Op(_, _, args) => AllTablesStay(p, args, s);
    case FieldGet(obj, _) => TablesStay(p, obj, s);
    case HasField(obj, _) => TablesStay(p, obj, s);
    case Index(arr, index) =>
      TablesStay(p, arr, s);
      TablesStay(p, index, Flow(p, arr, s).s);
    case Logic(_, left, right) =>
      TablesStay(p, left, s);
      TablesStay(p, right, Flow(p, left, s).s);
    case Cond(test, yes, no) =>
      TablesStay(p, test, s);
      var r := Flow(p, test, s);
      TablesStay(p, if r.v != 0 then yes else no, r.s);
    case _ =>
  }

  lemma {:induction false} AllTablesStay(p: Program, es: Exprs, s: State)
    requires !AnyCall(es)
    ensures FlowAll(p, es, s).s.tables == s.tables
    ensures forall k :: 0 <= k < |AllTabled(p, es, s)| ==> AllTabled(p, es, s)[k] == s.tables
    decreases es
  {
    if es.Cons? {
      TablesStay(p, es.head, s);
      AllTablesStay(p, es.tail, Flow(p, es.head, s).s);
    }
  }

  lemma {:induction false} UnorderedStays(p: Program, e: Expr, s: State)
    requires !Ordered(p, e, s)
    ensures Flow(p, e, s).s == s
    decreases e
  {
    match e
    case Op(_, _, args) => AllUnorderedStay(p, args, s);
    case Logic(isOr, left, right) =>
      UnorderedStays(p, left, s);
      if !Decides(isOr, Flow(p, left, s).v) { UnorderedStays(p, right, s); }
    case _ =>
  }

  lemma {:induction false} AllUnorderedStay(p: Program, es: Exprs, s: State)
    requires !AnyOrdered(p, es, s)
    ensures FlowAll(p, es, s).s == s
    decreases es
  {
    if es.Cons? {
      UnorderedStays(p, es.head, s);
      AllUnorderedStay(p, es.tail, s);
    }
  }

  lemma {:induction false} LookingFirstHolds(p: Program, e: Expr, s: State, acted: bool, early: Tables)
    requires LooksFirst(e, acted) && (acted || early == s.tables)
    ensures Holds(p, e, s) && Answers(p, e, s, early)
    decreases e, 0
  {
    match e
    case Op(_, _, args) => AllLookingFirstHold(p, args, s, acted, early);
    case Call(_, args) => AllLookingFirstHold(p, args, s, acted, early);
    case FieldGet(obj, _) => LookingFirstHolds(p, obj, s, acted, early);
    case HasField(obj, _) =>
      LookingFirstHolds(p, obj, s, acted, early);
      if !Plain(obj) { OrderedUnlessPlain(p, obj, s); } else { if !Ordered(p, obj, s) { UnorderedStays(p, obj, s); } }
    case Index(arr, index) =>
      var r := Flow(p, arr, s);
      LookingFirstHolds(p, arr, s, acted, early);
      if !Acts(arr) { TablesStay(p, arr, s); }
      LookingFirstHolds(p, index, r.s, acted || Acts(arr), early);
      forall k | 0 <= k < |Tabled(p, arr, s)|
        ensures Answers(p, index, r.s, Tabled(p, arr, s)[k])
      {
        LookingFirstHolds(p, index, r.s, acted || Acts(arr), Tabled(p, arr, s)[k]);
      }
    case Logic(_, left, right) =>
      var r := Flow(p, left, s);
      LookingFirstHolds(p, left, s, acted, early);
      if !Acts(left) { TablesStay(p, left, s); }
      LookingFirstHolds(p, right, r.s, acted || Acts(left), early);
      LookingFirstHolds(p, right, r.s, acted || Acts(left), r.s.tables);
    case Cond(test, yes, no) =>
      var r := Flow(p, test, s);
      LookingFirstHolds(p, test, s, false, s.tables);
      LookingFirstHolds(p, if r.v != 0 then yes else no, r.s, false, r.s.tables);
    case _ =>
  }

  lemma {:induction false} AllLookingFirstHold(p: Program, es: Exprs, s: State, acted: bool, early: Tables)
    requires AllLookFirst(es, acted) && (acted || early == s.tables)
    ensures AllHold(p, es, s) && AllAnswer(p, es, s, early)
    decreases es, 0
  {
    if es.Cons? {
      var r := Flow(p, es.head, s);
      LookingFirstHolds(p, es.head, s, acted, early);
      if !Acts(es.head) { TablesStay(p, es.head, s); }
      AllLookingFirstHold(p, es.tail, r.s, acted || Acts(es.head), early);
      forall k | 0 <= k < |Tabled(p, es.head, s)|
        ensures AllAnswer(p, es.tail, r.s, Tabled(p, es.head, s)[k])
      {
        AllLookingFirstHold(p, es.tail, r.s, acted || Acts(es.head), Tabled(p, es.head, s)[k]);
      }
    }
  }

  /** With no look at a plain object after a call, an expression is always right. */
  lemma LooksBeforeCalls(p: Program, e: Expr, s: State)
    requires Honest(p) && Marked(p, e) && s.thrown.None? && LooksFirst(e, false)
    ensures AlwaysRight(p, e, s)
  {
    LookingFirstHolds(p, e, s, false, s.tables);
    RightWhereLooksHold(p, e, s);
  }

  // log(f(), "a" in m!): m!'s check is a call, which Go makes after f's, and
  // ts_layout is read from what it gives.
  function Checked(x: nat, check: nat, field: nat): Expr { HasField(Op(check, true, Cons(Ident(x, true), Nil)), field) }

  function CallLast(f: nat, log: nat, look: Expr): Expr { Call(log, Cons(Call(f, Nil), Cons(look, Nil))) }

  /** A look at a checked object is no plain look: it is right after any call. */
  lemma CheckedLookIsRight(p: Program, s: State, f: nat, log: nat, x: nat, check: nat, field: nat)
    requires Honest(p) && p.stable(x) && s.thrown.None?
    ensures AlwaysRight(p, CallLast(f, log, Checked(x, check, field)), s)
  {
    hide AlwaysRight, LooksFirst, Marked, Checked, CallLast;
    var look := Checked(x, check, field);
    CheckedLook(p, x, check, field);
    CallThenLook(p, f, log, look);
    LooksBeforeCalls(p, CallLast(f, log, look), s);
  }

  lemma {:induction false} CheckedLook(p: Program, x: nat, check: nat, field: nat)
    requires p.stable(x)
    ensures Marked(p, Checked(x, check, field)) && LooksFirst(Checked(x, check, field), true)
  {
    var m, one := Ident(x, true), Cons(Ident(x, true), Nil);
    assert Marked(p, m) && LooksFirst(m, true) && !Acts(m);
    assert MarkedAll(p, one) && AllLookFirst(one, true);
  }

  lemma {:induction false} CallThenLook(p: Program, f: nat, log: nat, look: Expr)
    requires Marked(p, look) && LooksFirst(look, true)
    ensures Marked(p, CallLast(f, log, look)) && LooksFirst(CallLast(f, log, look), false)
  {
    var call, one := Call(f, Nil), Cons(look, Nil);
    assert Marked(p, call) && LooksFirst(call, false) && Acts(call);
    assert MarkedAll(p, one) && AllLookFirst(one, true);
  }

  // And with one, in a program in which each call gives every object another
  // table, it isn't, unless a branch may leave the look or the call out.

  predicate Straight(e: Expr) {
    match e
    case Op(_, _, args) => AllStraight(args)
    case Call(_, args) => AllStraight(args)
    case FieldGet(obj, _) => Straight(obj)
    case HasField(obj, _) => Straight(obj)
    case Index(arr, index) => Straight(arr) && Straight(index)
    case Logic(_, _, _) => false
    case Cond(_, _, _) => false
    case _ => true
  }

  predicate AllStraight(es: Exprs) { es.Cons? ==> Straight(es.head) && AllStraight(es.tail) }

  function Restless(): Program {
    Program((op, vs) => 0, (op, vs) => Passes(0), (f, vs, s: State) => (0, s.(tables := o => s.tables(o) + 1)),
            (a, i) => 0, (table, field) => table, x => true, true)
  }

  lemma RestlessIsHonest(e: Expr)
    ensures Honest(Restless()) && Marked(Restless(), e)
  {
    forall f: nat, vs: seq<int>, s: State
      ensures HonestCall(Restless(), s, Restless().call(f, vs, s).1)
    {
    }
    AllMarked(e);
  }

  lemma {:induction false} AllMarked(e: Expr)
    ensures Marked(Restless(), e)
    decreases e
  {
    match e
    case Op(_, _, args) => EachMarked(args);
    case Call(_, args) => EachMarked(args);
    case FieldGet(obj, _) => AllMarked(obj);
    case HasField(obj, _) => AllMarked(obj);
    case Index(arr, index) => AllMarked(arr); AllMarked(index);
    case Logic(_, left, right) => AllMarked(left); AllMarked(right);
    case Cond(test, yes, no) => AllMarked(test); AllMarked(yes); AllMarked(no);
    case _ =>
  }

  lemma {:induction false} EachMarked(es: Exprs)
    ensures MarkedAll(Restless(), es)
    decreases es
  {
    if es.Cons? {
      AllMarked(es.head);
      EachMarked(es.tail);
    }
  }

  // Nothing has been thrown, and no element is outside its array.
  ghost predicate Calm(s: State) { s.thrown.None? && forall a, i :: s.elements(a, i).Some? }

  lemma {:induction false} StaysCalm(e: Expr, s: State)
    requires Straight(e) && Calm(s)
    ensures Calm(Flow(Restless(), e, s).s)
    decreases e
  {
    match e
    case Op(_, _, args) => AllStayCalm(args, s);
    case Call(_, args) => AllStayCalm(args, s);
    case FieldGet(obj, _) => StaysCalm(obj, s);
    case HasField(obj, _) => StaysCalm(obj, s);
    case Index(arr, index) =>
      StaysCalm(arr, s);
      StaysCalm(index, Flow(Restless(), arr, s).s);
    case _ =>
  }

  lemma {:induction false} AllStayCalm(es: Exprs, s: State)
    requires AllStraight(es) && Calm(s)
    ensures Calm(FlowAll(Restless(), es, s).s)
    decreases es
  {
    if es.Cons? {
      StaysCalm(es.head, s);
      AllStayCalm(es.tail, Flow(Restless(), es.head, s).s);
    }
  }

  ghost predicate Below(early: Tables, s: State, strictly: bool) {
    forall o :: early(o) < s.tables(o) || (!strictly && early(o) == s.tables(o))
  }

  lemma {:induction false} CallsRaise(e: Expr, s: State)
    requires Straight(e) && Calm(s)
    ensures Below(s.tables, Flow(Restless(), e, s).s, Acts(e))
    decreases e
  {
    match e
    case Op(_, _, args) => AllCallsRaise(args, s);
    case Call(_, args) =>
      AllCallsRaise(args, s);
      AllStayCalm(args, s);
    case FieldGet(obj, _) => CallsRaise(obj, s);
    case HasField(obj, _) => CallsRaise(obj, s);
    case Index(arr, index) =>
      CallsRaise(arr, s);
      StaysCalm(arr, s);
      CallsRaise(index, Flow(Restless(), arr, s).s);
    case _ =>
  }

  lemma {:induction false} AllCallsRaise(es: Exprs, s: State)
    requires AllStraight(es) && Calm(s)
    ensures Below(s.tables, FlowAll(Restless(), es, s).s, AnyCall(es))
    decreases es
  {
    if es.Cons? {
      CallsRaise(es.head, s);
      StaysCalm(es.head, s);
      AllCallsRaise(es.tail, Flow(Restless(), es.head, s).s);
    }
  }

  lemma {:induction false} PlainIsUnordered(e: Expr, s: State)
    requires Straight(e) && Plain(e)
    ensures !Ordered(Restless(), e, s)
    decreases e
  {
    if e.Op? { AllPlainUnordered(e.args, s); }
  }

  lemma {:induction false} AllPlainUnordered(es: Exprs, s: State)
    requires AllStraight(es) && AllPlain(es)
    ensures !AnyOrdered(Restless(), es, s)
    decreases es
  {
    if es.Cons? {
      PlainIsUnordered(es.head, s);
      AllPlainUnordered(es.tail, Flow(Restless(), es.head, s).s);
    }
  }

  lemma {:induction false} LateLookFails(e: Expr, s: State, acted: bool, early: Tables)
    requires Straight(e) && Calm(s) && !LooksFirst(e, acted) && (if acted then Below(early, s, true) else early == s.tables)
    ensures !(Holds(Restless(), e, s) && Answers(Restless(), e, s, early))
    decreases e
  {
    var p := Restless();
    match e
    case Op(_, _, args) => LateLooksFail(args, s, acted, early);
    case Call(_, args) => LateLooksFail(args, s, acted, early);
    case FieldGet(obj, _) => LateLookFails(obj, s, acted, early);
    case HasField(obj, _) =>
      if !LooksFirst(obj, acted) {
        LateLookFails(obj, s, acted, early);
      } else {
        PlainIsUnordered(obj, s);
        UnorderedStays(p, obj, s);
        var v := Flow(p, obj, s).v;
        assert early(v) < s.tables(v);
      }
    case Index(arr, index) =>
      if !LooksFirst(arr, acted) {
        LateLookFails(arr, s, acted, early);
      } else {
        CallsRaise(arr, s);
        StaysCalm(arr, s);
        if !Acts(arr) { TablesStay(p, arr, s); }
        LateLookFails(index, Flow(p, arr, s).s, acted || Acts(arr), early);
      }
  }

  lemma {:induction false} LateLooksFail(es: Exprs, s: State, acted: bool, early: Tables)
    requires AllStraight(es) && Calm(s) && !AllLookFirst(es, acted) && (if acted then Below(early, s, true) else early == s.tables)
    ensures !(AllHold(Restless(), es, s) && AllAnswer(Restless(), es, s, early))
    decreases es
  {
    if !LooksFirst(es.head, acted) {
      LateLookFails(es.head, s, acted, early);
    } else {
      CallsRaise(es.head, s);
      StaysCalm(es.head, s);
      if !Acts(es.head) { TablesStay(Restless(), es.head, s); }
      LateLooksFail(es.tail, Flow(Restless(), es.head, s).s, acted || Acts(es.head), early);
    }
  }

  /** An expression without branches is right in every program, from every
      state, if and only if it has no look at a plain object after a call. */
  lemma RightInEveryProgram(e: Expr)
    requires Straight(e)
    ensures (forall p, s: State :: Honest(p) && Marked(p, e) && s.thrown.None? ==> AlwaysRight(p, e, s)) <==> !InnerCall(e) || LooksFirst(e, false)
  {
    if !InnerCall(e) || LooksFirst(e, false) {
      forall p, s: State | Honest(p) && Marked(p, e) && s.thrown.None?
        ensures AlwaysRight(p, e, s)
      {
        if InnerCall(e) { LooksBeforeCalls(p, e, s); } else { RightWhereLooksHold(p, e, s); }
      }
    } else {
      var p, s := Restless(), State(x => 0, (o, f) => 0, o => 0, (a, i) => Some(0), [], None);
      RestlessIsHonest(e);
      LateLookFails(e, s, false, s.tables);
      RightWhereLooksHold(p, e, s);
      assert !AlwaysRight(p, e, s);
    }
  }

  // Two programs Go may evaluate otherwise.

  // The source's reason for ts_read: a + f(), where a is 1 and f sets it to 11
  // and gives 11, is 12, and the plain Go form of it may give 22.

  function Sum(): Program {
    Program((op, vs: seq<int>) => if |vs| == 2 then vs[0] + vs[1] else 0, (op, vs) => Passes(0),
            (f, vs: seq<int>, s: State) => (11, s.(bindings := x => 11)), (a, i) => 0, (table, field) => table, x => false, true)
  }

  function APlusF(): Expr { Op(0, false, Cons(Ident(0, false), Cons(Call(0, Nil), Nil))) }

  function AIsOne(): State { State(x => 1, (o, f) => 0, o => 0, (a, i) => Some(0), [], None) }

  function Added(a: GoExpr, b: GoExpr): GoExpr { GOp(0, false, GCons(a, GCons(b, GNil))) }

  lemma PlainReadsCanTell()
    ensures Eval(Sum(), APlusF(), AIsOne()) == Gave(12, AIsOne().(bindings := Sum().call(0, [], AIsOne()).1.bindings))
    ensures var g, steps := Emit(APlusF(), false), Then(In(1, Here), Then(In(0, Here), Then(Here, Done)));
      Ends(Sum(), g, AIsOne(), steps) && After(Sum(), g, AIsOne(), steps).0 == GLit(22)
  {
    hide Step, Ends, After, Emit, Eval;
    var p, s := Sum(), AIsOne();
    var after := p.call(0, [], s).1;
    IsTwelve();
    SumSteps(after);
    NothingLeft(p, 22, after);
    StepFirst(p, Added(GLit(11), GLit(11)), after, Here, Stepped(GLit(22), after, false), Done);
    StepFirst(p, Added(GVar(0), GLit(11)), after, In(0, Here), Stepped(Added(GLit(11), GLit(11)), after, false), Then(Here, Done));
    StepFirst(p, Emit(APlusF(), false), s, In(1, Here), Stepped(Added(GVar(0), GLit(11)), after, true), Then(In(0, Here), Then(Here, Done)));
  }

  lemma IsTwelve()
    ensures Eval(Sum(), APlusF(), AIsOne()) == Gave(12, AIsOne().(bindings := Sum().call(0, [], AIsOne()).1.bindings))
  {
    var p, s := Sum(), AIsOne();
    var f := Call(0, Nil);
    assert EvalAll(p, Cons(f, Nil), s) == All([11], p.call(0, [], s).1);
    assert EvalAll(p, APlusF().args, s) == All([1, 11], p.call(0, [], s).1);
  }

  // f's call, and after it a's read and the sum.
  lemma SumSteps(after: State)
    requires after == Sum().call(0, [], AIsOne()).1
    ensures Step(Sum(), Emit(APlusF(), false), AIsOne(), In(1, Here)) == Some(Stepped(Added(GVar(0), GLit(11)), after, true))
    ensures Step(Sum(), Added(GVar(0), GLit(11)), after, In(0, Here)) == Some(Stepped(Added(GLit(11), GLit(11)), after, false))
    ensures Step(Sum(), Added(GLit(11), GLit(11)), after, Here) == Some(Stepped(GLit(22), after, false))
  {
    var p, s, f := Sum(), AIsOne(), GCall(0, GNil);
    assert Emit(APlusF(), false) == Added(GVar(0), f);
    assert StepAll(p, GCons(f, GNil), s, 0, Here) == Some(SteppedAll(GCons(GLit(11), GNil), after, true));
    assert ValuesOf(GCons(GLit(11), GCons(GLit(11), GNil))) == [11, 11];
  }

  // log(f(), "a" in o), where o is a const and f does o.a = 1: o's table is 0
  // before the write and 1 after, and lists a in 1 alone.

  function Writes(): Program {
    Program((op, vs) => 0, (op, vs) => Passes(0), (f, vs, s: State) => if f == 0 then (0, s.(tables := o => 1)) else (0, s),
            (a, i) => 0, (table, field) => table, x => true, true)
  }

  function LogFThenIn(): Expr { Call(1, Cons(Call(0, Nil), Cons(HasField(Ident(0, true), 0), Nil))) }

  function Lacking(): State { State(x => 0, (o, f) => 0, o => 0, (a, i) => Some(0), [], None) }

  /** JavaScript finds the property f wrote; Go's look may miss it. */
  lemma LookCanMiss()
    ensures Honest(Writes()) && Marked(Writes(), LogFThenIn()) && !LooksHold(Writes(), LogFThenIn(), Lacking())
    ensures Eval(Writes(), LogFThenIn(), Lacking()).s.answers == [1]
    ensures exists steps ::
      Ends(Writes(), Full(LogFThenIn()), Lacking(), steps) && GoOutcome(Writes(), LogFThenIn(), Lacking(), steps).s.answers == [0]
  {
    hide LooksHold, Ends, After, Full, Eval;
    WritesIsHonest();
    FindsIt();
    var steps := MissRuns();
    if LooksHold(Writes(), LogFThenIn(), Lacking()) {
      EvaluatesLeftToRight(Writes(), LogFThenIn(), Lacking(), steps);
      assert false;
    }
  }

  lemma WritesIsHonest()
    ensures Honest(Writes()) && Marked(Writes(), LogFThenIn())
  {
    forall f: nat, vs: seq<int>, t: State
      ensures HonestCall(Writes(), t, Writes().call(f, vs, t).1)
    {
    }
    assert MarkedAll(Writes(), Cons(HasField(Ident(0, true), 0), Nil));
  }

  lemma FindsIt()
    ensures Eval(Writes(), LogFThenIn(), Lacking()).s.answers == [1]
  {
    var p, e, s := Writes(), LogFThenIn(), Lacking();
    var wrote := p.call(0, [], s).1;
    assert Eval(p, e.args.head, s) == Gave(0, wrote);
    assert Eval(p, e.args.tail.head, wrote) == Gave(1, wrote.(answers := [1]));
    assert EvalAll(p, e.args.tail, wrote) == All([1], wrote.(answers := [1]));
  }

  lemma StepFirst(p: Program, g: GoExpr, s: State, at: At, r: Stepped, rest: Steps)
    requires Step(p, g, s, at) == Some(r) && Ends(p, r.g, r.s, rest)
    ensures Ends(p, g, s, Then(at, rest)) && After(p, g, s, Then(at, rest)) == After(p, r.g, r.s, rest)
  {
  }

  function Logged(f: GoExpr, look: GoExpr): GoExpr { GCall(1, GCons(f, GCons(look, GNil))) }

  lemma SecondSteps(look: GoExpr, f: GoExpr, s: State, at: At, r: Stepped)
    requires Step(Writes(), look, s, at) == Some(r) && (r.called ==> f.GLit?)
    ensures Step(Writes(), Logged(f, look), s, In(1, at)) == Some(Stepped(Logged(f, r.g), r.s, r.called))
  {
    var p := Writes();
    assert StepAll(p, GCons(look, GNil), s, 0, at) == Some(SteppedAll(GCons(r.g, GNil), r.s, r.called));
    assert StepAll(p, GCons(f, GCons(look, GNil)), s, 1, at) == Some(SteppedAll(GCons(f, GCons(r.g, GNil)), r.s, r.called));
  }

  // f's call and log's.
  lemma CallSteps(look: GoExpr, s: State)
    requires s.thrown.None?
    ensures Step(Writes(), Logged(GCall(0, GNil), look), s, In(0, Here)) == Some(Stepped(Logged(GLit(0), look), Writes().call(0, [], s).1, true))
    ensures Step(Writes(), Logged(GLit(0), GLit(0)), s, Here) == Some(Stepped(GLit(0), s, true))
  {
    var p := Writes();
    assert Step(p, GCall(0, GNil), s, Here) == Some(Stepped(GLit(0), p.call(0, [], s).1, true));
    assert StepAll(p, GCons(GCall(0, GNil), GCons(look, GNil)), s, 0, Here).Some?;
    assert Values(GCons(GLit(0), GCons(GLit(0), GNil)));
  }

  lemma LookSteps(s: State)
    requires s.bindings(0) == 0 && s.thrown.None?
    ensures Step(Writes(), GLook(GVar(0), 0), s, In(0, Here)) == Some(Stepped(GLook(GLit(0), 0), s, false))
    ensures Step(Writes(), GLook(GLit(0), 0), s, Here) == Some(Stepped(GHas(s.tables(0), 0), s, false))
    ensures Step(Writes(), GHas(0, 0), s, Here) == Some(Stepped(GLit(0), s.(answers := s.answers + [0]), true))
  {
  }

  lemma LoggedIsEmitted()
    ensures Full(LogFThenIn()) == Logged(GCall(0, GNil), GLook(GVar(0), 0))
  {
  }

  lemma NothingLeft(p: Program, v: int, s: State)
    ensures Ends(p, GLit(v), s, Done) && After(p, GLit(v), s, Done) == (GLit(v), s)
  {
  }

  // o's table is read, then f called, then Has, then log.
  lemma MissRuns() returns (steps: Steps)
    ensures Ends(Writes(), Full(LogFThenIn()), Lacking(), steps)
    ensures After(Writes(), Full(LogFThenIn()), Lacking(), steps).1.answers == [0]
  {
    hide Step, Ends, After, Full;
    var p, s, f := Writes(), Lacking(), GCall(0, GNil);
    var wrote := p.call(0, [], s).1;
    var end := wrote.(answers := [0]);
    LookSteps(s);
    LookSteps(wrote);
    assert wrote.answers == [] && [] + [0] == [0];
    LoggedIsEmitted();
    NothingLeft(p, 0, end);
    CallSteps(GLit(0), end);
    StepFirst(p, Logged(GLit(0), GLit(0)), end, Here, Stepped(GLit(0), end, true), Done);
    SecondSteps(GHas(0, 0), GLit(0), wrote, Here, Stepped(GLit(0), end, true));
    StepFirst(p, Logged(GLit(0), GHas(0, 0)), wrote, In(1, Here), Stepped(Logged(GLit(0), GLit(0)), end, true), Then(Here, Done));
    steps := Then(In(1, Here), Then(Here, Done));
    CallSteps(GHas(0, 0), s);
    StepFirst(p, Logged(f, GHas(0, 0)), s, In(0, Here), Stepped(Logged(GLit(0), GHas(0, 0)), wrote, true), steps);
    steps := Then(In(0, Here), steps);
    SecondSteps(GLook(GLit(0), 0), f, s, Here, Stepped(GHas(0, 0), s, false));
    StepFirst(p, Logged(f, GLook(GLit(0), 0)), s, In(1, Here), Stepped(Logged(f, GHas(0, 0)), s, false), steps);
    steps := Then(In(1, Here), steps);
    SecondSteps(GLook(GVar(0), 0), f, s, In(0, Here), Stepped(GLook(GLit(0), 0), s, false));
    StepFirst(p, Logged(f, GLook(GVar(0), 0)), s, In(1, In(0, Here)), Stepped(Logged(f, GLook(GLit(0), 0)), s, false), steps);
    steps := Then(In(1, In(0, Here)), steps);
  }
}
