/**
  The Go the emitter writes for try, as a syntax tree, and what it means: a
  function literal run by the runtime's Try or TryK, whose deferred Catch
  takes back a throw and raises any other panic again
  (backend/runtime/thrown.go), and Rethrow, which ends a finally.
*/
module TryTarget {
  import opened Options
  import opened TryLanguage

  // What a Go return statement carries.
  datatype Carried =
    | Nothing
    | Struct              // struct{}{}
    | Zero                // the zero of a maybe, which is undefined
    | Fresh(site: nat)    // an expression
    | Slot(r: nat)        // ts_r<r>
    | Code(code: int)     // a try literal's code

  datatype GoStmt =
    | GoEval(site: nat)
    | GoThrow(site: nat)
    | GoPanic                                                   // the panic ending a function
    | GoReturn(e: Carried)
    | GoBreak
    | GoContinue
    | GoIf(site: nat, thn: GoBlock, els: GoBlock)
    | GoFor(init: seq<nat>, test: Test, post: seq<nat>, body: GoBlock)
    | GoDeclare(r: nat)                                         // var ts_r<r> T
    | GoStore(r: nat, site: nat)                                // ts_r<r> = x
    | GoTry(coded: bool, k: nat, declares: bool, literal: GoBlock) // [ts_k<k>,] ts_t<k> := Try[K](...)
    | GoIfThrown(t: nat, then_: GoBlock)                        // if ts_t<t> != nil
    | GoBind(name: nat, t: nat)                                 // name := ts_t<t>.V
    | GoRethrow(t: nat)
    | GoIfCode(k: nat, code: int, then_: GoBlock)               // if ts_k<k> == code
    | GoLost                                                    // "lost a return's value"

  datatype GoBlock = GoDone | GoThen(head: GoStmt, tail: GoBlock)

  function Append(a: GoBlock, b: GoBlock): GoBlock {
    match a
    case GoDone => b
    case GoThen(s, rest) => GoThen(s, Append(rest, b))
  }

  datatype Back = BackNothing | BackValue(v: Value) | BackCode(code: int)

  // How Go leaves a statement. A Thrown travels as a panic of its own; Wrong
  // is a program Go rejects.
  datatype Exit =
    | Fell
    | Breaking
    | Continuing
    | Returning(back: Back)
    | Throwing(v: Value)
    | Crashing
    | Stopped
    | Wrong

  // Go's variables, by number: ts_k, ts_t and ts_r.
  datatype State = State(w: World, ks: map<nat, int>, ts: map<nat, Option<Value>>, rs: map<nat, Value>)

  datatype GoRun = GoRun(x: Exit, st: State)

  function FromAbrupt(run: Run, st: State): GoRun {
    var after := st.(w := run.w);
    match run.c
    case Threw(v) => GoRun(Throwing(v), after)
    case Crashed => GoRun(Crashing, after)
    case Cut => GoRun(Stopped, after)
    case _ => GoRun(Wrong, after)
  }

  /** Try and TryK once the literal has been left by x: the variables they
      set, and how the statement itself ends. A literal can't be broken out
      of, and one that gives a code must give one. */
  function Catch(coded: bool, k: nat, left: GoRun): (r: GoRun)
    ensures r.st.w == left.st.w
  {
    var st := left.st;
    match left.x
    case Fell => if coded then GoRun(Wrong, st) else GoRun(Fell, st.(ts := st.ts[k := None]))
    case Returning(back) =>
      if coded && back.BackCode? then GoRun(Fell, st.(ks := st.ks[k := back.code], ts := st.ts[k := None]))
      else if !coded && back.BackNothing? then GoRun(Fell, st.(ts := st.ts[k := None]))
      else GoRun(Wrong, st)
    case Throwing(v) =>
      GoRun(Fell, st.(ks := if coded then st.ks[k := 0] else st.ks, ts := st.ts[k := Some(v)]))
    case Breaking => GoRun(Wrong, st)
    case Continuing => GoRun(Wrong, st)
    case _ => left
  }

  function GoStep(s: GoStmt, st: State): (r: GoRun)
    ensures |r.st.w.tape| <= |st.w.tape|
    decreases |st.w.tape|, s, 0
  {
    match s
    case GoEval(site) =>
      (match Evaluate(site, st.w)
       case Got(_, after) => GoRun(Fell, st.(w := after))
       case Abrupt(run) => FromAbrupt(run, st))
    case GoThrow(site) =>
      (match Evaluate(site, st.w)
       case Got(v, after) => GoRun(Throwing(v), st.(w := after))
       case Abrupt(run) => FromAbrupt(run, st))
    case GoPanic => GoRun(Crashing, st)
    case GoReturn(e) =>
      (match e
       case Nothing => GoRun(Returning(BackNothing), st)
       case Struct => GoRun(Returning(BackValue(Undefined)), st)
       case Zero => GoRun(Returning(BackValue(Undefined)), st)
       case Fresh(site) =>
         (match Evaluate(site, st.w)
          case Got(v, after) => GoRun(Returning(BackValue(v)), st.(w := after))
          case Abrupt(run) => FromAbrupt(run, st))
       case Slot(r) => if r in st.rs then GoRun(Returning(BackValue(st.rs[r])), st) else GoRun(Wrong, st)
       case Code(code) => GoRun(Returning(BackCode(code)), st))
    case GoBreak => GoRun(Breaking, st)
    case GoContinue => GoRun(Continuing, st)
    case GoIf(site, thn, els) =>
      (match Evaluate(site, st.w)
       case Got(v, after) => if Truthy(v) then GoSteps(thn, st.(w := after)) else GoSteps(els, st.(w := after))
       case Abrupt(run) => FromAbrupt(run, st))
    case GoFor(init, test, post, body) =>
      var first := EvaluateAll(init, st.w);
      if first.c.Normal? then GoLoop(test, post, body, st.(w := first.w)) else FromAbrupt(first, st)
    case GoDeclare(r) => GoRun(Fell, st.(rs := st.rs[r := Undefined]))
    case GoStore(r, site) =>
      (match Evaluate(site, st.w)
       case Got(v, after) =>
         if r in st.rs then GoRun(Fell, st.(w := after, rs := st.rs[r := v])) else GoRun(Wrong, st.(w := after))
       case Abrupt(run) => FromAbrupt(run, st))
    case GoTry(coded, k, _, literal) => Catch(coded, k, GoSteps(literal, st))
    case GoIfThrown(t, then_) =>
      if t !in st.ts then GoRun(Wrong, st) else
      if st.ts[t].Some? then GoSteps(then_, st) else GoRun(Fell, st)
    case GoBind(name, t) =>
      if t in st.ts && st.ts[t].Some?
      then GoRun(Fell, st.(w := st.w.(trace := st.w.trace + [Bound(name, st.ts[t].value)])))
      else GoRun(Wrong, st)
    case GoRethrow(t) =>
      if t !in st.ts then GoRun(Wrong, st) else
      if st.ts[t].Some? then GoRun(Throwing(st.ts[t].value), st) else GoRun(Fell, st)
    case GoIfCode(k, code, then_) =>
      if k !in st.ks then GoRun(Wrong, st) else
      if st.ks[k] == code then GoSteps(then_, st) else GoRun(Fell, st)
    case GoLost => GoRun(Wrong, st)
  }

  function GoLoop(test: Test, post: seq<nat>, body: GoBlock, st: State): (r: GoRun)
    ensures |r.st.w.tape| <= |st.w.tape|
    decreases |st.w.tape|, body, 2
  {
    match Check(test, st.w)
    case Abrupt(run) => FromAbrupt(run, st)
    case Got(v, after) =>
      if !Truthy(v) then GoRun(Fell, st.(w := after)) else
      GoNext(test, post, body, GoSteps(body, st.(w := after)))
  }

  // What follows a turn of a loop.
  function GoNext(test: Test, post: seq<nat>, body: GoBlock, turn: GoRun): (r: GoRun)
    ensures |r.st.w.tape| <= |turn.st.w.tape|
    decreases |turn.st.w.tape|, body, 3
  {
    if turn.x.Breaking? then GoRun(Fell, turn.st) else
    if !turn.x.Fell? && !turn.x.Continuing? then turn else
    var step := EvaluateAll(post, turn.st.w);
    if step.c.Normal? then GoLoop(test, post, body, turn.st.(w := step.w)) else FromAbrupt(step, turn.st)
  }

  function GoSteps(b: GoBlock, st: State): (r: GoRun)
    ensures |r.st.w.tape| <= |st.w.tape|
    decreases |st.w.tape|, b, 0
  {
    match b
    case GoDone => GoRun(Fell, st)
    case GoThen(s, rest) =>
      var first := GoStep(s, st);
      if first.x.Fell? then GoSteps(rest, first.st) else first
  }

  lemma {:induction false} StepsAppend(a: GoBlock, b: GoBlock, st: State)
    ensures GoSteps(Append(a, b), st) ==
            var first := GoSteps(a, st);
            if first.x.Fell? then GoSteps(b, first.st) else first
    decreases a
  {
    match a
    case GoDone =>
    case GoThen(s, rest) =>
      var first := GoStep(s, st);
      if first.x.Fell? { StepsAppend(rest, b, first.st); }
  }

  /** A Go call of a function with this body. */
  function GoCall(body: GoBlock, w: World): Call {
    var r := GoSteps(body, State(w, map[], map[], map[]));
    match r.x
    case Fell => Call(Result(Undefined), r.st.w)
    case Returning(BackNothing) => Call(Result(Undefined), r.st.w)
    case Returning(BackValue(v)) => Call(Result(v), r.st.w)
    case Throwing(v) => Call(Uncaught(v), r.st.w)
    case Crashing => Call(Panicked, r.st.w)
    case Stopped => Call(Unfinished, r.st.w)
    case _ => Call(Malformed, r.st.w)
  }
}
