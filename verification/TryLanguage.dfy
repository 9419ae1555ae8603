/**
  The statements a try block can be left by, as ir/stmt.go and ir/errors.go
  have them, and what they mean in JavaScript: the completion records of
  section 6.2.4 of ECMA-262, and section 14.15.3's rule for try, catch and
  finally.

  What a program's own expressions do is left open. Each evaluation takes the
  next answer from a tape: a value, a throw, or a Go panic (a runtime error
  that no catch may see). One tape is one run of one program, so a statement
  about every tape is a statement about every program with that skeleton and
  every one of its runs; a run that never ends is all the finite tapes it
  begins with.
*/
module TryLanguage {
  import opened Options

  datatype Value = Undefined | Data(n: int)

  // How the evaluation of an expression ends.
  datatype Answer = Gives(v: Value) | Throws(v: Value) | Panics

  // What can be observed of a run: each expression evaluated, with its
  // outcome, and each value a catch bound.
  datatype Event = Asked(site: nat, answer: Answer) | Bound(name: nat, v: Value)

  datatype World = World(tape: seq<Answer>, trace: seq<Event>)

  // A loop's test: an expression, or none (`for (;;)`, `while (true)`).
  datatype Test = Ask(site: nat) | Always

  // Loop is while, for and for...of: the first and third clauses are
  // expressions evaluated for their effect.
  datatype Stmt =
    | Eval(site: nat)
    | Throw(site: nat)
    | Return(value: Option<nat>)
    | Break
    | Continue
    | If(site: nat, thn: Block, els: Block)
    | Loop(init: seq<nat>, test: Test, post: seq<nat>, body: Block)
    | TryCatch(body: Block, handler: Handler)
    | TryFinally(body: Block, finalizer: Block)
    | TryCatchFinally(body: Block, handler: Handler, finalizer: Block)

  datatype Handler = Handler(name: Option<nat>, body: Block)

  datatype Block = Done | Then(head: Stmt, tail: Block)

  // A completion record, with the third outcome a Go panic is (Crashed), and
  // Cut for a run whose tape has ended.
  datatype Completion =
    | Normal
    | Broke
    | Continued
    | Returned(v: Value)
    | Threw(v: Value)
    | Crashed
    | Cut

  datatype Run = Run(c: Completion, w: World)

  /** The outcome of one expression: Returned(v) stands for its value v. */
  datatype Reply = Got(v: Value, w: World) | Abrupt(run: Run)

  function Evaluate(site: nat, w: World): (r: Reply)
    ensures r.Got? ==> |r.w.tape| < |w.tape|
    ensures r.Abrupt? ==> |r.run.w.tape| <= |w.tape|
    ensures r.Abrupt? ==> r.run.c.Threw? || r.run.c.Crashed? || r.run.c.Cut?
  {
    if w.tape == [] then Abrupt(Run(Cut, w)) else
    var after := World(w.tape[1..], w.trace + [Asked(site, w.tape[0])]);
    match w.tape[0]
    case Gives(v) => Got(v, after)
    case Throws(v) => Abrupt(Run(Threw(v), after))
    case Panics => Abrupt(Run(Crashed, after))
  }

  function EvaluateAll(sites: seq<nat>, w: World): (r: Run)
    ensures |r.w.tape| <= |w.tape|
    ensures r.c.Normal? || r.c.Threw? || r.c.Crashed? || r.c.Cut?
  {
    if sites == [] then Run(Normal, w) else
    match Evaluate(sites[0], w)
    case Got(_, after) => EvaluateAll(sites[1..], after)
    case Abrupt(run) => run
  }

  /** Several expressions are asked in their order, each once, up to the first
      that gives no value; with all of them giving one, the run goes on. */
  lemma {:induction false} AskedInOrder(sites: seq<nat>, w: World) returns (n: nat)
    ensures var r := EvaluateAll(sites, w);
      && n <= |sites| && n <= |w.tape| && r.w.tape == w.tape[n..] && |r.w.trace| == |w.trace| + n && w.trace <= r.w.trace
      && (forall k :: 0 <= k < n ==> r.w.trace[|w.trace| + k] == Asked(sites[k], w.tape[k]))
      && (forall k :: 0 <= k < n - 1 ==> w.tape[k].Gives?)
      && (r.c.Normal? <==> n == |sites| && forall k :: 0 <= k < n ==> w.tape[k].Gives?)
    decreases |sites|
  {
    n := 0;
    if sites != [] && w.tape != [] {
      n := 1;
      if w.tape[0].Gives? {
        var m := AskedInOrder(sites[1..], World(w.tape[1..], w.trace + [Asked(sites[0], w.tape[0])]));
        n := m + 1;
      }
    }
  }

  /** A loop's test. One with no expression still takes an answer, a tick, so
      that a run is as long as its tape. Undefined and 0 are false. */
  function Check(test: Test, w: World): (r: Reply)
    ensures r.Got? ==> |r.w.tape| < |w.tape|
    ensures r.Abrupt? ==> |r.run.w.tape| <= |w.tape|
    ensures r.Abrupt? ==> r.run.c.Threw? || r.run.c.Crashed? || r.run.c.Cut?
  {
    match test
    case Ask(site) => Evaluate(site, w)
    case Always =>
      if w.tape == [] then Abrupt(Run(Cut, w)) else Got(Data(1), w.(tape := w.tape[1..]))
  }

  predicate Truthy(v: Value) { v != Undefined && v != Data(0) }

  /** The world once a handler has bound the value it caught. */
  function Bind(h: Handler, v: Value, w: World): (after: World)
    ensures after.tape == w.tape
  {
    match h.name
    case None => w
    case Some(name) => w.(trace := w.trace + [Bound(name, v)])
  }

  // What JavaScript does with a statement.
  function RunStmt(s: Stmt, w: World): (r: Run)
    ensures |r.w.tape| <= |w.tape|
    decreases |w.tape|, s, 0
  {
    match s
    case Eval(site) =>
      (match Evaluate(site, w)
       case Got(_, after) => Run(Normal, after)
       case Abrupt(run) => run)
    case Throw(site) =>
      (match Evaluate(site, w)
       case Got(v, after) => Run(Threw(v), after)
       case Abrupt(run) => run)
    case Return(None) => Run(Returned(Undefined), w)
    case Return(Some(site)) =>
      (match Evaluate(site, w)
       case Got(v, after) => Run(Returned(v), after)
       case Abrupt(run) => run)
    case Break => Run(Broke, w)
    case Continue => Run(Continued, w)
    case If(site, thn, els) =>
      (match Evaluate(site, w)
       case Got(v, after) => if Truthy(v) then RunBlock(thn, after) else RunBlock(els, after)
       case Abrupt(run) => run)
    case Loop(init, test, post, body) =>
      var first := EvaluateAll(init, w);
      if first.c.Normal? then RunLoop(test, post, body, first.w) else first
    case TryCatch(body, h) =>
      RunHandler(h, RunBlock(body, w))
    case TryFinally(body, f) =>
      RunFinalizer(f, RunBlock(body, w))
    case TryCatchFinally(body, h, f) =>
      RunFinalizer(f, RunHandler(h, RunBlock(body, w)))
  }

  function RunHandler(h: Handler, pending: Run): (r: Run)
    ensures |r.w.tape| <= |pending.w.tape|
    decreases |pending.w.tape|, h, 0
  {
    if pending.c.Threw? then RunBlock(h.body, Bind(h, pending.c.v, pending.w)) else pending
  }

  // The finally runs after every completion but a crash's; its own abrupt
  // completion replaces the one pending.
  function RunFinalizer(f: Block, pending: Run): (r: Run)
    ensures |r.w.tape| <= |pending.w.tape|
    decreases |pending.w.tape|, f, 1
  {
    if pending.c.Crashed? || pending.c.Cut? then pending else
    var own := RunBlock(f, pending.w);
    if own.c.Normal? then Run(pending.c, own.w) else own
  }

  function RunLoop(test: Test, post: seq<nat>, body: Block, w: World): (r: Run)
    ensures |r.w.tape| <= |w.tape|
    ensures !r.c.Broke? && !r.c.Continued?
    decreases |w.tape|, body, 2
  {
    match Check(test, w)
    case Abrupt(run) => run
    case Got(v, after) =>
      if !Truthy(v) then Run(Normal, after) else
      var turn := RunBlock(body, after);
      if turn.c.Broke? then Run(Normal, turn.w) else
      if !turn.c.Normal? && !turn.c.Continued? then turn else
      var step := EvaluateAll(post, turn.w);
      if step.c.Normal? then RunLoop(test, post, body, step.w) else step
  }

  function RunBlock(b: Block, w: World): (r: Run)
    ensures |r.w.tape| <= |w.tape|
    decreases |w.tape|, b, 0
  {
    match b
    case Done => Run(Normal, w)
    case Then(s, rest) =>
      var first := RunStmt(s, w);
      if first.c.Normal? then RunBlock(rest, first.w) else first
  }

  // What a call of a function comes to.
  datatype Outcome =
    | Result(v: Value)
    | Uncaught(v: Value)
    | Panicked
    | Unfinished
    | Malformed  // a completion no well-formed function has

  datatype Call = Call(out: Outcome, w: World)

  /** A JavaScript call of a function with this body: falling off the end
      returns undefined. */
  function RunFunction(body: Block, w: World): Call
  {
    var r := RunBlock(body, w);
    match r.c
    case Normal => Call(Result(Undefined), r.w)
    case Returned(v) => Call(Result(v), r.w)
    case Threw(v) => Call(Uncaught(v), r.w)
    case Crashed => Call(Panicked, r.w)
    case Cut => Call(Unfinished, r.w)
    case _ => Call(Malformed, r.w)
  }
}
