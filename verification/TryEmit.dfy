/**
  The translation backend/emit_try.go makes, as a function: what the emitter
  writes for a block, given the state it is in. Module TryEmitter has the
  emitter itself, which is proved to write this.
*/
module TryEmit {
  import opened Options
  import opened TryLanguage
  import opened TryTarget

  const CODE_FELL := 0
  const CODE_RETURN := 1
  const CODE_BREAK := 2
  const CODE_CONTINUE := 3

  // What a function's returns carry: nothing, an async function's
  // struct{}{}, a maybe, or a value of any other type.
  datatype Returns = VoidFn | AsyncVoidFn | MaybeFn | PlainFn

  predicate Carries(ret: Returns) { ret.MaybeFn? || ret.PlainFn? }

  // The emitter's state: for each try literal open, the loops open where it
  // began; the loops open; and the variable a return's value waits in.
  datatype Ctx = Ctx(frames: seq<nat>, loops: nat, ret: Returns, retVar: Option<nat>)

  predicate InLiteral(c: Ctx) { c.frames != [] }

  // A break or continue here would leave the innermost literal.
  predicate Outside(c: Ctx) { c.frames != [] && c.frames[|c.frames| - 1] == c.loops }

  /** The codes by which a block can leave a try's literal. */
  function Exits(b: Block, inLoop: bool): set<int> {
    match b
    case Done => {}
    case Then(s, rest) => StmtExits(s, inLoop) + Exits(rest, inLoop)
  }

  function StmtExits(s: Stmt, inLoop: bool): set<int> {
    match s
    case Return(_) => {CODE_RETURN}
    case Break => if inLoop then {} else {CODE_BREAK}
    case Continue => if inLoop then {} else {CODE_CONTINUE}
    case If(_, thn, els) => Exits(thn, inLoop) + Exits(els, inLoop)
    case Loop(_, _, _, body) => Exits(body, true)
    case TryCatch(body, h) => Exits(body, inLoop) + Exits(h.body, inLoop)
    case TryFinally(body, f) => Exits(body, inLoop) + Exits(f, inLoop)
    case TryCatchFinally(body, h, f) => Exits(body, inLoop) + Exits(f, inLoop) + Exits(h.body, inLoop)
    case _ => {}
  }

  datatype Emitted = Emitted(code: GoBlock, tries: nat)

  function One(s: GoStmt): GoBlock { GoThen(s, GoDone) }

  // The parts of tryStmt: its codes, whether it declares the slot, and the
  // contexts its literals and the rest of it are emitted in.
  function LiteralCodes(s: Stmt): set<int>
    requires s.TryCatch? || s.TryFinally? || s.TryCatchFinally?
  {
    if s.TryCatchFinally? then Exits(s.body, false) + Exits(s.handler.body, false) else Exits(s.body, false)
  }

  predicate Owns(c: Ctx, codes: set<int>) { CODE_RETURN in codes && Carries(c.ret) && c.retVar.None? }

  function Owning(c: Ctx, codes: set<int>, k: nat): Ctx {
    if Owns(c, codes) then c.(retVar := Some(k)) else c
  }

  function Opened(c: Ctx): Ctx { c.(frames := c.frames + [c.loops]) }

  function Looping(c: Ctx): Ctx { c.(loops := c.loops + 1) }

  // A literal's body, which when coded ends by returning the code for its end.
  function EmitLiteral(c: Ctx, body: Block, coded: bool, tries: nat): (e: Emitted)
    ensures e.tries >= tries
    decreases body, 2
  {
    var inner := EmitBlock(Opened(c), body, tries);
    if coded then Emitted(Append(inner.code, One(GoReturn(Code(CODE_FELL)))), inner.tries) else inner
  }

  function EmitBind(h: Handler, t: nat): GoBlock {
    if h.name.Some? then One(GoBind(h.name.value, t)) else GoDone
  }

  // leave: acting on a code in the try's own place.
  function EmitLeave(c: Ctx, code: int): GoBlock {
    if code == CODE_RETURN then
      if InLiteral(c) then One(GoReturn(Code(CODE_RETURN)))
      else if Carries(c.ret) then (if c.retVar.Some? then One(GoReturn(Slot(c.retVar.value))) else One(GoLost))
      else if c.ret.AsyncVoidFn? then One(GoReturn(Struct))
      else One(GoReturn(Nothing))
    else if code == CODE_BREAK then
      if Outside(c) then One(GoReturn(Code(CODE_BREAK))) else One(GoBreak)
    else
      if Outside(c) then One(GoReturn(Code(CODE_CONTINUE))) else One(GoContinue)
  }

  function EmitIfCode(c: Ctx, k: nat, codes: set<int>, code: int): GoBlock {
    if code in codes then One(GoIfCode(k, code, EmitLeave(c, code))) else GoDone
  }

  function EmitCodes(c: Ctx, k: nat, codes: set<int>): GoBlock {
    Append(EmitIfCode(c, k, codes, CODE_RETURN),
           Append(EmitIfCode(c, k, codes, CODE_BREAK), EmitIfCode(c, k, codes, CODE_CONTINUE)))
  }

  function EmitDeclare(c: Ctx, codes: set<int>, k: nat): GoBlock {
    if Owns(c, codes) then One(GoDeclare(k)) else GoDone
  }

  function EmitReturn(c: Ctx, value: Option<nat>): GoBlock {
    if InLiteral(c) then
      if value.Some? && c.retVar.None? then GoThen(GoLost, One(GoReturn(Code(CODE_RETURN))))
      else if value.Some? then GoThen(GoStore(c.retVar.value, value.value), One(GoReturn(Code(CODE_RETURN))))
      else One(GoReturn(Code(CODE_RETURN)))
    else match value
      case Some(site) => One(GoReturn(Fresh(site)))
      case None => One(GoReturn(if c.ret.AsyncVoidFn? then Struct else Nothing))
  }

  // A catch's literal begins by binding what it caught.
  function Binding(h: Handler, k: nat, literal: GoBlock): GoBlock { Append(EmitBind(h, k), literal) }

  // The finally, in place: only falling off its end reaches the rethrow and the codes.
  function Finished(c: Ctx, final: GoBlock, codes: set<int>, k: nat): GoBlock {
    Append(final, GoThen(GoRethrow(k), EmitCodes(c, k, codes)))
  }

  // What a try is after its literal's call.
  function EmitRest(c: Ctx, s: Stmt, codes: set<int>, k: nat, tries: nat): (e: Emitted)
    requires s.TryCatch? || s.TryFinally? || s.TryCatchFinally?
    ensures e.tries >= tries
    decreases s, 0
  {
    match s
    case TryCatch(_, h) =>
      var handler := EmitBlock(c, h.body, tries);
      Emitted(GoThen(GoIfThrown(k, Binding(h, k, handler.code)), EmitCodes(c, k, codes)), handler.tries)
    case TryFinally(_, f) =>
      var final := EmitBlock(c, f, tries);
      Emitted(Finished(c, final.code, codes, k), final.tries)
    case TryCatchFinally(_, h, f) =>
      var handler := EmitLiteral(c, h.body, codes != {}, tries);
      var final := EmitBlock(c, f, handler.tries);
      var again := GoIfThrown(k, One(GoTry(codes != {}, k, false, Binding(h, k, handler.code))));
      Emitted(GoThen(again, Finished(c, final.code, codes, k)), final.tries)
  }

  function EmitTry(c: Ctx, s: Stmt, tries: nat): (e: Emitted)
    requires s.TryCatch? || s.TryFinally? || s.TryCatchFinally?
    ensures e.tries > tries
    decreases s, 1
  {
    var k := tries + 1;
    var codes := LiteralCodes(s);
    var own := Owning(c, codes, k);
    var literal := EmitLiteral(own, s.body, codes != {}, k);
    var head := Append(EmitDeclare(c, codes, k), One(GoTry(codes != {}, k, true, literal.code)));
    var rest := EmitRest(own, s, codes, k, literal.tries);
    Emitted(Append(head, rest.code), rest.tries)
  }

  function EmitStmt(c: Ctx, s: Stmt, tries: nat): (e: Emitted)
    ensures e.tries >= tries
    decreases s, 2
  {
    match s
    case Eval(site) => Emitted(One(GoEval(site)), tries)
    case Throw(site) => Emitted(One(GoThrow(site)), tries)
    case Return(value) => Emitted(EmitReturn(c, value), tries)
    case Break => Emitted(EmitLeave(c, CODE_BREAK), tries)
    case Continue => Emitted(EmitLeave(c, CODE_CONTINUE), tries)
    case If(site, thn, els) =>
      var a := EmitBlock(c, thn, tries);
      var b := EmitBlock(c, els, a.tries);
      Emitted(One(GoIf(site, a.code, b.code)), b.tries)
    case Loop(init, test, post, body) =>
      var turn := EmitBlock(Looping(c), body, tries);
      Emitted(One(GoFor(init, test, post, turn.code)), turn.tries)
    case _ => EmitTry(c, s, tries)
  }

  function EmitBlock(c: Ctx, b: Block, tries: nat): (e: Emitted)
    ensures e.tries >= tries
    decreases b, 0
  {
    match b
    case Done => Emitted(GoDone, tries)
    case Then(s, rest) =>
      var first := EmitStmt(c, s, tries);
      var others := EmitBlock(c, rest, first.tries);
      Emitted(Append(first.code, others.code), others.tries)
  }

  function Last(b: Block): Option<Stmt> {
    match b
    case Done => None
    case Then(s, Done) => Some(s)
    case Then(_, rest) => Last(rest)
  }

  // What ends a function that Go must see terminate (backend/emit_loops.go),
  // and an async function's struct{}{} (backend/emit_async.go).
  function EmitEnd(ret: Returns, body: Block): GoBlock {
    match ret
    case VoidFn => GoDone
    case AsyncVoidFn => One(GoReturn(Struct))
    case _ =>
      if Last(body).Some? && Last(body).value.Return? then GoDone
      else if ret.MaybeFn? then One(GoReturn(Zero))
      else One(GoPanic)
  }

  function Start(ret: Returns): Ctx { Ctx([], 0, ret, None) }

  function EmitFunction(ret: Returns, body: Block, tries: nat): Emitted {
    var e := EmitBlock(Start(ret), body, tries);
    Emitted(Append(e.code, EmitEnd(ret, body)), e.tries)
  }

  // What ir/returns.go holds every return to: a value exactly when the
  // function's returns carry one.
  predicate Typed(b: Block, carries: bool) {
    match b
    case Done => true
    case Then(s, rest) => StmtTyped(s, carries) && Typed(rest, carries)
  }

  predicate StmtTyped(s: Stmt, carries: bool) {
    match s
    case Return(value) => value.Some? == carries
    case If(_, thn, els) => Typed(thn, carries) && Typed(els, carries)
    case Loop(_, _, _, body) => Typed(body, carries)
    case TryCatch(body, h) => Typed(body, carries) && Typed(h.body, carries)
    case TryFinally(body, f) => Typed(body, carries) && Typed(f, carries)
    case TryCatchFinally(body, h, f) => Typed(body, carries) && Typed(h.body, carries) && Typed(f, carries)
    case _ => true
  }
}
