/**
  The translation is right: what the emitter writes for a block does, step
  for step, what the block does, and leaves by the way the block leaves.
*/
module TryCorrect {
  import opened Options
  import opened TryLanguage
  import opened TryTarget
  import opened TryEmit
  import opened TrySlot

  function ModeOf(c: Ctx): Mode { Mode(InLiteral(c), c.retVar.Some?, Carries(c.ret)) }

  // The slot's variable holds what the slot does.
  predicate Holds(c: Ctx, st: State, slot: Value) {
    c.retVar.Some? ==> c.retVar.value in st.rs && st.rs[c.retVar.value] == slot
  }

  // A state of the emitter: the slot was declared by an earlier try, and no
  // literal was opened inside a loop still to come.
  predicate Reached(c: Ctx, tries: nat) {
    && (c.retVar.Some? ==> c.retVar.value <= tries && Carries(c.ret))
    && (c.frames != [] ==> c.frames[|c.frames| - 1] <= c.loops)
  }

  // Every return inside a literal has a slot to wait in.
  predicate Covered(c: Ctx, exits: set<int>) {
    InLiteral(c) && Carries(c.ret) && CODE_RETURN in exits ==> c.retVar.Some?
  }

  // Where and how Go leaves for each completion.
  function ExitFor(c: Ctx, r: SlotRun): Exit {
    match r.c
    case Normal => Fell
    case Broke => if Outside(c) then Returning(BackCode(CODE_BREAK)) else Breaking
    case Continued => if Outside(c) then Returning(BackCode(CODE_CONTINUE)) else Continuing
    case Returned(_) =>
      if InLiteral(c) then Returning(BackCode(CODE_RETURN))
      else if Carries(c.ret) then Returning(BackValue(r.got))
      else if c.ret.AsyncVoidFn? then Returning(BackValue(Undefined))
      else Returning(BackNothing)
    case Threw(v) => Throwing(v)
    case Crashed => Crashing
    case Cut => Stopped
  }

  // Code emitted after tries trys touches no variable of theirs but the slot.
  predicate Kept(a: State, b: State, tries: nat, slotVar: Option<nat>) {
    && (forall j: nat :: j <= tries && j in a.ks ==> j in b.ks && b.ks[j] == a.ks[j])
    && (forall j: nat :: j <= tries && j in a.ts ==> j in b.ts && b.ts[j] == a.ts[j])
    && (forall j: nat :: j <= tries && j in a.rs && slotVar != Some(j) ==> j in b.rs && b.rs[j] == a.rs[j])
  }

  predicate Matches(c: Ctx, r: SlotRun, g: GoRun, before: State, tries: nat) {
    && g.x == ExitFor(c, r)
    && g.st.w == r.w
    && Holds(c, g.st, r.slot)
    && Kept(before, g.st, tries, c.retVar)
  }

  lemma {:induction false} ReturnsExitLoops(b: Block)
    ensures CODE_RETURN in Exits(b, true) <==> CODE_RETURN in Exits(b, false)
    decreases b, 0
  {
    match b
    case Done =>
    case Then(s, rest) =>
      ReturnsExitLoops(rest);
      match s
      case If(_, thn, els) => ReturnsExitLoops(thn); ReturnsExitLoops(els);
      case TryCatch(body, h) => ReturnsExitLoops(body); ReturnsExitLoops(h.body);
      case TryFinally(body, f) => ReturnsExitLoops(body); ReturnsExitLoops(f);
      case TryCatchFinally(body, h, f) =>
        ReturnsExitLoops(body); ReturnsExitLoops(h.body); ReturnsExitLoops(f);
      case _ =>
  }

  // Acting on a code does what the completion it stands for does.

  function CodeOf(c: Completion): int {
    match c
    case Returned(_) => CODE_RETURN
    case Broke => CODE_BREAK
    case Continued => CODE_CONTINUE
    case _ => CODE_FELL
  }

  // What a try knows once its literal has run: ts_k and ts_t hold how it was left.
  predicate Caught(k: nat, coded: bool, r: SlotRun, g: GoRun) {
    && g.st.w == r.w
    && (r.c.Crashed? ==> g.x.Crashing?)
    && (r.c.Cut? ==> g.x.Stopped?)
    && (!r.c.Crashed? && !r.c.Cut? ==>
          && g.x.Fell?
          && k in g.st.ts && g.st.ts[k] == (if r.c.Threw? then Some(r.c.v) else None)
          && (coded ==> k in g.st.ks && g.st.ks[k] == CodeOf(r.c)))
  }

  lemma CodesAct(c: Ctx, k: nat, codes: set<int>, r: SlotRun, slot: Value, st: State)
    requires k in st.ks || codes == {}
    requires r.c.Normal? || r.c.Broke? || r.c.Continued? || r.c.Returned?
    requires codes != {} ==> st.ks[k] == CodeOf(r.c)
    requires r.c.Normal? || CodeOf(r.c) in codes
    requires Holds(c, st, slot)
    requires !InLiteral(c) && Carries(c.ret) && r.c.Returned? ==> c.retVar.Some? && r.got == slot
    ensures GoSteps(EmitCodes(c, k, codes), st) == GoRun(ExitFor(c, r), st)
  {
    var a, b, d := EmitIfCode(c, k, codes, CODE_RETURN), EmitIfCode(c, k, codes, CODE_BREAK), EmitIfCode(c, k, codes, CODE_CONTINUE);
    StepsAppend(a, Append(b, d), st);
    StepsAppend(b, d, st);
    IfCodeActs(c, k, codes, CODE_RETURN, st);
    IfCodeActs(c, k, codes, CODE_BREAK, st);
    IfCodeActs(c, k, codes, CODE_CONTINUE, st);
    LeaveActs(c, r, slot, st);
  }

  lemma IfCodeActs(c: Ctx, k: nat, codes: set<int>, code: int, st: State)
    requires k in st.ks || codes == {}
    ensures GoSteps(EmitIfCode(c, k, codes, code), st) ==
            if code in codes && st.ks[k] == code then GoSteps(EmitLeave(c, code), st) else GoRun(Fell, st)
  {
    if code in codes {
      var s := GoIfCode(k, code, EmitLeave(c, code));
      assert GoSteps(GoThen(s, GoDone), st) == var first := GoStep(s, st); if first.x.Fell? then GoSteps(GoDone, first.st) else first;
    }
  }

  lemma LeaveActs(c: Ctx, r: SlotRun, slot: Value, st: State)
    requires Holds(c, st, slot)
    requires !InLiteral(c) && Carries(c.ret) && r.c.Returned? ==> c.retVar.Some? && r.got == slot
    ensures r.c.Returned? || r.c.Broke? || r.c.Continued? ==>
              GoSteps(EmitLeave(c, CodeOf(r.c)), st) == GoRun(ExitFor(c, r), st)
  {
  }

  lemma {:induction false} SimBlock(c: Ctx, b: Block, tries: nat, st: State, slot: Value)
    requires Reached(c, tries) && Holds(c, st, slot)
    requires Typed(b, Carries(c.ret)) && Covered(c, Exits(b, false))
    ensures Matches(c, SlotBlock(ModeOf(c), b, st.w, slot), GoSteps(EmitBlock(c, b, tries).code, st), st, tries)
    decreases |st.w.tape|, b, 0
  {
    match b
    case Done =>
    case Then(s, rest) =>
      var first := EmitStmt(c, s, tries);
      var others := EmitBlock(c, rest, first.tries);
      SimStmt(c, s, tries, st, slot);
      StepsAppend(first.code, others.code, st);
      var r := SlotStmt(ModeOf(c), s, st.w, slot);
      var g := GoSteps(first.code, st);
      if r.c.Normal? {
        SimBlock(c, rest, first.tries, g.st, r.slot);
      }
  }

  lemma {:induction false} SimStmt(c: Ctx, s: Stmt, tries: nat, st: State, slot: Value)
    requires Reached(c, tries) && Holds(c, st, slot)
    requires StmtTyped(s, Carries(c.ret)) && Covered(c, StmtExits(s, false))
    ensures Matches(c, SlotStmt(ModeOf(c), s, st.w, slot), GoSteps(EmitStmt(c, s, tries).code, st), st, tries)
    decreases |st.w.tape|, s, 3
  {
    if s.If? {
      SimIf(c, s, tries, st, slot);
    } else if s.Loop? {
      SimLoopStmt(c, s, tries, st, slot);
    } else if s.Return? {
      SimReturn(c, s.value, tries, st, slot);
    } else if s.TryCatch? || s.TryFinally? || s.TryCatchFinally? {
      SimTry(c, s, tries, st, slot);
    } else {
      SimSimple(c, s, tries, st, slot);
    }
  }

  lemma SingleStep(s: GoStmt, st: State)
    ensures GoSteps(One(s), st) == GoStep(s, st)
  {
    var first := GoStep(s, st);
    assert GoSteps(One(s), st) == if first.x.Fell? then GoSteps(GoDone, first.st) else first;
  }

  // A step that only the world shows.
  lemma WorldOnly(c: Ctx, r: SlotRun, st: State, tries: nat)
    requires Holds(c, st, r.slot)
    ensures Matches(c, r, GoRun(ExitFor(c, r), st.(w := r.w)), st, tries)
  {
  }

  lemma AbruptActs(c: Ctx, run: Run, slot: Value, st: State, tries: nat)
    requires Holds(c, st, slot)
    requires run.c.Threw? || run.c.Crashed? || run.c.Cut?
    ensures Matches(c, Plain(run, slot), FromAbrupt(run, st), st, tries)
  {
    WorldOnly(c, Plain(run, slot), st, tries);
  }

  lemma SimSimple(c: Ctx, s: Stmt, tries: nat, st: State, slot: Value)
    requires s.Eval? || s.Throw? || s.Break? || s.Continue?
    requires Holds(c, st, slot)
    ensures Matches(c, SlotStmt(ModeOf(c), s, st.w, slot), GoSteps(EmitStmt(c, s, tries).code, st), st, tries)
  {
    match s
    case Eval(site) =>
      SingleStep(GoEval(site), st);
      var reply := Evaluate(site, st.w);
      if reply.Got? { WorldOnly(c, Plain(Run(Normal, reply.w), slot), st, tries); }
      else { AbruptActs(c, reply.run, slot, st, tries); }
    case Throw(site) =>
      SingleStep(GoThrow(site), st);
      var reply := Evaluate(site, st.w);
      if reply.Got? { WorldOnly(c, Plain(Run(Threw(reply.v), reply.w), slot), st, tries); }
      else { AbruptActs(c, reply.run, slot, st, tries); }
    case Break =>
      LeaveActs(c, SlotRun(Broke, st.w, slot, Undefined), slot, st);
      WorldOnly(c, SlotRun(Broke, st.w, slot, Undefined), st, tries);
    case Continue =>
      LeaveActs(c, SlotRun(Continued, st.w, slot, Undefined), slot, st);
      WorldOnly(c, SlotRun(Continued, st.w, slot, Undefined), st, tries);
  }

  lemma SimReturn(c: Ctx, value: Option<nat>, tries: nat, st: State, slot: Value)
    requires Reached(c, tries) && Holds(c, st, slot)
    requires value.Some? == Carries(c.ret) && Covered(c, {CODE_RETURN})
    ensures Matches(c, SlotStmt(ModeOf(c), Return(value), st.w, slot), GoSteps(EmitReturn(c, value), st), st, tries)
  {
    match value
    case Some(site) =>
      var reply := Evaluate(site, st.w);
      if InLiteral(c) {
        SimStore(c, site, tries, st, slot);
      } else {
        SingleStep(GoReturn(Fresh(site)), st);
        if reply.Got? { WorldOnly(c, SlotRun(Returned(reply.v), reply.w, slot, reply.v), st, tries); }
        else { AbruptActs(c, reply.run, slot, st, tries); }
      }
    case None =>
      var r := SlotRun(Returned(Undefined), st.w, slot, Undefined);
      assert SlotStmt(ModeOf(c), Return(value), st.w, slot) == r;
      WorldOnly(c, r, st, tries);
      if InLiteral(c) {
        SingleStep(GoReturn(Code(CODE_RETURN)), st);
      } else {
        SingleStep(GoReturn(if c.ret.AsyncVoidFn? then Struct else Nothing), st);
      }
  }

  // A return inside a literal: the value is stored, then the code returned.
  lemma SimStore(c: Ctx, site: nat, tries: nat, st: State, slot: Value)
    requires Holds(c, st, slot) && InLiteral(c) && c.retVar.Some?
    ensures Matches(c, SlotStmt(ModeOf(c), Return(Some(site)), st.w, slot), GoSteps(EmitReturn(c, Some(site)), st), st, tries)
  {
    var reply := Evaluate(site, st.w);
    var store := GoStore(c.retVar.value, site);
    var first := GoStep(store, st);
    assert GoSteps(EmitReturn(c, Some(site)), st)
        == if first.x.Fell? then GoSteps(One(GoReturn(Code(CODE_RETURN))), first.st) else first;
    if reply.Got? {
      SingleStep(GoReturn(Code(CODE_RETURN)), first.st);
    } else {
      AbruptActs(c, reply.run, slot, st, tries);
    }
  }

  lemma {:induction false} SimIf(c: Ctx, s: Stmt, tries: nat, st: State, slot: Value)
    requires s.If?
    requires Reached(c, tries) && Holds(c, st, slot)
    requires StmtTyped(s, Carries(c.ret)) && Covered(c, StmtExits(s, false))
    ensures Matches(c, SlotStmt(ModeOf(c), s, st.w, slot), GoSteps(EmitStmt(c, s, tries).code, st), st, tries)
    decreases |st.w.tape|, s, 1
  {
    var a := EmitBlock(c, s.thn, tries);
    var b := EmitBlock(c, s.els, a.tries);
    SingleStep(GoIf(s.site, a.code, b.code), st);
    var reply := Evaluate(s.site, st.w);
    if reply.Abrupt? {
      AbruptActs(c, reply.run, slot, st, tries);
    } else {
      var after := st.(w := reply.w);
      if Truthy(reply.v) {
        SimBlock(c, s.thn, tries, after, slot);
      } else {
        SimBlock(c, s.els, a.tries, after, slot);
      }
    }
  }

  lemma {:induction false} SimLoopStmt(c: Ctx, s: Stmt, tries: nat, st: State, slot: Value)
    requires s.Loop?
    requires Reached(c, tries) && Holds(c, st, slot)
    requires StmtTyped(s, Carries(c.ret)) && Covered(c, StmtExits(s, false))
    ensures Matches(c, SlotStmt(ModeOf(c), s, st.w, slot), GoSteps(EmitStmt(c, s, tries).code, st), st, tries)
    decreases |st.w.tape|, s, 1
  {
    var e := EmitBlock(Looping(c), s.body, tries);
    SingleStep(GoFor(s.init, s.test, s.post, e.code), st);
    var first := EvaluateAll(s.init, st.w);
    if first.c.Normal? {
      ReturnsExitLoops(s.body);
      SimLoop(c, s.test, s.post, s.body, tries, st.(w := first.w), slot);
    } else {
      AbruptActs(c, first, slot, st, tries);
    }
  }

  lemma {:induction false} SimLoop(c: Ctx, test: Test, post: seq<nat>, body: Block, tries: nat, st: State, slot: Value)
    requires Reached(c, tries) && Holds(c, st, slot)
    requires Typed(body, Carries(c.ret)) && Covered(c, Exits(body, false))
    ensures Matches(c, SlotLoop(ModeOf(c), test, post, body, st.w, slot),
                    GoLoop(test, post, EmitBlock(Looping(c), body, tries).code, st), st, tries)
    decreases |st.w.tape|, body, 2
  {
    var code := EmitBlock(Looping(c), body, tries).code;
    var reply := Check(test, st.w);
    if reply.Abrupt? {
      AbruptActs(c, reply.run, slot, st, tries);
    } else if !Truthy(reply.v) {
      WorldOnly(c, SlotRun(Normal, reply.w, slot, Undefined), st, tries);
    } else {
      var after := st.(w := reply.w);
      var r := SlotBlock(ModeOf(c), body, reply.w, slot);
      var g := GoSteps(code, after);
      SimTurn(c, body, tries, after, slot);
      KeptOn(st, after, g.st, tries, tries, c.retVar, c.retVar);
      SimNext(c, test, post, body, tries, st, r, g);
    }
  }

  lemma {:induction false} SimNext(c: Ctx, test: Test, post: seq<nat>, body: Block, tries: nat, st: State, r: SlotRun, g: GoRun)
    requires Reached(c, tries)
    requires Typed(body, Carries(c.ret)) && Covered(c, Exits(body, false))
    requires g.st.w == r.w && Holds(c, g.st, r.slot) && Kept(st, g.st, tries, c.retVar)
    requires if r.c.Broke? then g.x.Breaking? else if r.c.Continued? then g.x.Continuing? else g.x == ExitFor(c, r)
    ensures Matches(c, SlotNext(ModeOf(c), test, post, body, r),
                    GoNext(test, post, EmitBlock(Looping(c), body, tries).code, g), st, tries)
    decreases |r.w.tape|, body, 3
  {
    if r.c.Normal? || r.c.Continued? {
      var step := EvaluateAll(post, r.w);
      if step.c.Normal? {
        var next := g.st.(w := step.w);
        SimLoop(c, test, post, body, tries, next, r.slot);
        KeptOn(st, next, GoLoop(test, post, EmitBlock(Looping(c), body, tries).code, next).st, tries, tries, c.retVar, c.retVar);
      } else {
        AbruptActs(c, step, r.slot, g.st, tries);
        KeptOn(st, g.st, FromAbrupt(step, g.st).st, tries, tries, c.retVar, c.retVar);
      }
    }
  }

  // One turn of a loop: a break or continue of it is Go's own, in a literal or not.
  lemma {:induction false} SimTurn(c: Ctx, body: Block, tries: nat, st: State, slot: Value)
    requires Reached(c, tries) && Holds(c, st, slot)
    requires Typed(body, Carries(c.ret)) && Covered(c, Exits(body, false))
    ensures var r := SlotBlock(ModeOf(c), body, st.w, slot);
            var g := GoSteps(EmitBlock(Looping(c), body, tries).code, st);
            && g.st.w == r.w && Holds(c, g.st, r.slot) && Kept(st, g.st, tries, c.retVar)
            && (if r.c.Broke? then g.x.Breaking? else if r.c.Continued? then g.x.Continuing? else g.x == ExitFor(c, r))
    decreases |st.w.tape|, body, 1
  {
    assert ModeOf(Looping(c)) == ModeOf(c);
    SimBlock(Looping(c), body, tries, st, slot);
  }

  lemma KeptOn(a: State, b: State, d: State, n: nat, m: nat, x: Option<nat>, y: Option<nat>)
    requires Kept(a, b, n, x) && Kept(b, d, m, y) && n <= m
    requires x == y || (y.Some? && y.value > n)
    ensures Kept(a, d, n, x)
  {
  }

  // Try and TryK, over a literal: the code it returns says how the block was left.
  lemma {:induction false} SimLiteral(c: Ctx, body: Block, codes: set<int>, tries: nat, st: State, slot: Value, k: nat)
    requires 0 < k <= tries
    requires Reached(c, tries) && Holds(c, st, slot)
    requires Typed(body, Carries(c.ret)) && Covered(Opened(c), Exits(body, false))
    requires Exits(body, false) <= codes
    ensures var r := SlotBlock(Inside(ModeOf(c)), body, st.w, slot);
            var g := Catch(codes != {}, k, GoSteps(EmitLiteral(c, body, codes != {}, tries).code, st));
            && Caught(k, codes != {}, r, g)
            && Holds(c, g.st, r.slot)
            && Kept(st, g.st, k - 1, c.retVar)
            && (r.c.Normal? || r.c.Threw? || r.c.Crashed? || r.c.Cut? || CodeOf(r.c) in codes)
    decreases |st.w.tape|, body, 1
  {
    var inner := EmitBlock(Opened(c), body, tries).code;
    SimBlock(Opened(c), body, tries, st, slot);
    assert ModeOf(Opened(c)) == Inside(ModeOf(c));
    var r := SlotBlock(Inside(ModeOf(c)), body, st.w, slot);
    SlotBlockIsRun(Inside(ModeOf(c)), body, st.w, slot);
    LeavesByExits(body, st.w);
    LiteralEnds(inner, codes != {}, st);
    CatchActs(c, codes, r, GoSteps(inner, st), st, tries, k);
  }

  // A coded literal's last statement returns the code for its end.
  lemma LiteralEnds(inner: GoBlock, coded: bool, st: State)
    ensures var left := GoSteps(inner, st);
            var code := if coded then Append(inner, One(GoReturn(Code(CODE_FELL)))) else inner;
            GoSteps(code, st) == if coded && left.x.Fell? then GoRun(Returning(BackCode(CODE_FELL)), left.st) else left
  {
    if coded {
      StepsAppend(inner, One(GoReturn(Code(CODE_FELL))), st);
      SingleStep(GoReturn(Code(CODE_FELL)), GoSteps(inner, st).st);
    }
  }

  lemma CatchActs(c: Ctx, codes: set<int>, r: SlotRun, left: GoRun, st: State, tries: nat, k: nat)
    requires 0 < k <= tries
    requires Matches(Opened(c), r, left, st, tries)
    requires Reached(c, tries)
    requires r.c.Normal? || r.c.Threw? || r.c.Crashed? || r.c.Cut? || CodeOf(r.c) in codes
    ensures var end := if codes != {} && left.x.Fell? then GoRun(Returning(BackCode(CODE_FELL)), left.st) else left;
            var g := Catch(codes != {}, k, end);
            && Caught(k, codes != {}, r, g)
            && Holds(c, g.st, r.slot)
            && Kept(st, g.st, k - 1, c.retVar)
  {
    assert Outside(Opened(c));
  }

  lemma BindActs(h: Handler, k: nat, v: Value, st: State)
    requires k in st.ts && st.ts[k] == Some(v)
    ensures GoSteps(EmitBind(h, k), st) == GoRun(Fell, st.(w := Bind(h, v, st.w)))
  {
    if h.name.Some? { SingleStep(GoBind(h.name.value, k), st); }
  }

  // What a try's own context has to be for the rest of it to be emitted there.
  predicate Ready(c: Ctx, codes: set<int>, k: nat, tries: nat) {
    && 0 < k <= tries
    && Reached(c, tries)
    && (CODE_RETURN in codes && Carries(c.ret) ==> c.retVar.Some?)
  }

  // A completion caught and then let go on, with no finally.
  lemma LetGo(c: Ctx, k: nat, codes: set<int>, r: SlotRun, g: GoRun)
    requires Caught(k, codes != {}, r, g) && Holds(c, g.st, r.slot)
    requires !r.c.Threw? && !r.c.Crashed? && !r.c.Cut?
    requires r.c.Normal? || CodeOf(r.c) in codes
    requires CODE_RETURN in codes && Carries(c.ret) ==> c.retVar.Some?
    ensures GoSteps(EmitCodes(c, k, codes), g.st) == GoRun(ExitFor(c, Settle(ModeOf(c), r)), g.st)
    ensures Settle(ModeOf(c), r).c == r.c && Settle(ModeOf(c), r).w == r.w && Settle(ModeOf(c), r).slot == r.slot
  {
    CodesAct(c, k, codes, Settle(ModeOf(c), r), r.slot, g.st);
  }

  // A handler's completion, with ts_k 0: its codes do nothing.
  lemma NoCode(c: Ctx, k: nat, codes: set<int>, st: State)
    requires codes != {} ==> k in st.ks && st.ks[k] == CODE_FELL
    ensures GoSteps(EmitCodes(c, k, codes), st) == GoRun(Fell, st)
  {
    var a, b, d := EmitIfCode(c, k, codes, CODE_RETURN), EmitIfCode(c, k, codes, CODE_BREAK), EmitIfCode(c, k, codes, CODE_CONTINUE);
    StepsAppend(a, Append(b, d), st);
    StepsAppend(b, d, st);
    IfCodeActs(c, k, codes, CODE_RETURN, st);
    IfCodeActs(c, k, codes, CODE_BREAK, st);
    IfCodeActs(c, k, codes, CODE_CONTINUE, st);
  }

  // try/catch, once the literal has run.
  lemma {:induction false} SimCatch(c: Ctx, h: Handler, codes: set<int>, k: nat, tries: nat, r: SlotRun, g: GoRun)
    requires Ready(c, codes, k, tries)
    requires Caught(k, codes != {}, r, g) && Holds(c, g.st, r.slot)
    requires r.c.Normal? || r.c.Threw? || r.c.Crashed? || r.c.Cut? || CodeOf(r.c) in codes
    requires !r.c.Crashed? && !r.c.Cut?
    requires Typed(h.body, Carries(c.ret)) && Covered(c, Exits(h.body, false))
    ensures var code := GoThen(GoIfThrown(k, Binding(h, k, EmitBlock(c, h.body, tries).code)), EmitCodes(c, k, codes));
            var after := if r.c.Threw? then SlotHandler(ModeOf(c), h, r) else Settle(ModeOf(c), r);
            var end := GoSteps(code, g.st);
            && end.x == ExitFor(c, after) && end.st.w == after.w && Holds(c, end.st, after.slot)
            && Kept(g.st, end.st, k, c.retVar)
    decreases |r.w.tape|, h, 1
  {
    if r.c.Threw? {
      var handler := EmitBlock(c, h.body, tries).code;
      BindActs(h, k, r.c.v, g.st);
      StepsAppend(EmitBind(h, k), handler, g.st);
      var bound := g.st.(w := Bind(h, r.c.v, g.st.w));
      SimBlock(c, h.body, tries, bound, r.slot);
      var end := GoSteps(handler, bound);
      KeptOn(g.st, bound, end.st, k, tries, c.retVar, c.retVar);
      if end.x.Fell? { NoCode(c, k, codes, end.st); }
    } else {
      LetGo(c, k, codes, r, g);
    }
  }

  // The finally, in place: Rethrow and the codes are reached only when it falls off its end.
  lemma {:induction false} SimFinally(c: Ctx, f: Block, codes: set<int>, k: nat, tries: nat, r: SlotRun, g: GoRun)
    requires Ready(c, codes, k, tries)
    requires Caught(k, codes != {}, r, g) && Holds(c, g.st, r.slot)
    requires r.c.Normal? || r.c.Threw? || r.c.Crashed? || r.c.Cut? || CodeOf(r.c) in codes
    requires !r.c.Crashed? && !r.c.Cut?
    requires Typed(f, Carries(c.ret)) && Covered(c, Exits(f, false))
    ensures var code := Finished(c, EmitBlock(c, f, tries).code, codes, k);
            var after := SlotFinalizer(ModeOf(c), f, r);
            var end := GoSteps(code, g.st);
            && end.x == ExitFor(c, after) && end.st.w == after.w && Holds(c, end.st, after.slot)
            && Kept(g.st, end.st, k, c.retVar)
    decreases |r.w.tape|, f, 1
  {
    hide SlotBlock, EmitBlock;
    var final := EmitBlock(c, f, tries).code;
    var tail := GoThen(GoRethrow(k), EmitCodes(c, k, codes));
    StepsAppend(final, tail, g.st);
    SimBlock(c, f, tries, g.st, r.slot);
    var own := SlotBlock(ModeOf(c), f, r.w, r.slot);
    var done := GoSteps(final, g.st);
    assert Kept(g.st, done.st, k, c.retVar);
    if own.c.Normal? && !r.c.Threw? {
      var pending := SlotRun(r.c, own.w, own.slot, Undefined);
      LetGo(c, k, codes, pending, done);
    }
  }

  // A catch before a finally is a literal too: its throw waits in ts_t again.
  lemma {:induction false} SimCatchLiteral(c: Ctx, h: Handler, codes: set<int>, k: nat, tries: nat, r: SlotRun, g: GoRun)
    requires Ready(c, codes, k, tries)
    requires Caught(k, codes != {}, r, g) && Holds(c, g.st, r.slot)
    requires r.c.Normal? || r.c.Threw? || r.c.Crashed? || r.c.Cut? || CodeOf(r.c) in codes
    requires !r.c.Crashed? && !r.c.Cut?
    requires Typed(h.body, Carries(c.ret)) && Covered(Opened(c), Exits(h.body, false))
    requires Exits(h.body, false) <= codes
    ensures var again := GoTry(codes != {}, k, false, Binding(h, k, EmitLiteral(c, h.body, codes != {}, tries).code));
            var after := if r.c.Threw? then SlotHandler(Inside(ModeOf(c)), h, r) else r;
            var end := GoStep(GoIfThrown(k, One(again)), g.st);
            && Caught(k, codes != {}, after, end) && Holds(c, end.st, after.slot)
            && Kept(g.st, end.st, k - 1, c.retVar)
            && (after.c.Normal? || after.c.Threw? || after.c.Crashed? || after.c.Cut? || CodeOf(after.c) in codes)
    decreases |r.w.tape|, h, 1
  {
    if r.c.Threw? {
      var literal := EmitLiteral(c, h.body, codes != {}, tries).code;
      var again := GoTry(codes != {}, k, false, Binding(h, k, literal));
      BindActs(h, k, r.c.v, g.st);
      StepsAppend(EmitBind(h, k), literal, g.st);
      var bound := g.st.(w := Bind(h, r.c.v, g.st.w));
      SimLiteral(c, h.body, codes, tries, bound, r.slot, k);
      SingleStep(again, g.st);
      KeptOn(g.st, bound, GoStep(again, g.st).st, k - 1, k - 1, c.retVar, c.retVar);
    }
  }

  lemma DeclareActs(c: Ctx, codes: set<int>, k: nat, st: State, slot: Value)
    requires Holds(c, st, slot)
    ensures var end := GoSteps(EmitDeclare(c, codes, k), st);
            && end.x.Fell? && end.st.w == st.w
            && Holds(Owning(c, codes, k), end.st, if Owns(c, codes) then Undefined else slot)
            && (k > 0 ==> Kept(st, end.st, k - 1, c.retVar))
  {
    if Owns(c, codes) { SingleStep(GoDeclare(k), st); }
  }

  // What a try opens with, in Go: the slot's declaration and the literal's call.
  function TryHead(c: Ctx, s: Stmt, tries: nat): GoBlock
    requires s.TryCatch? || s.TryFinally? || s.TryCatchFinally?
  {
    var k := tries + 1;
    var codes := LiteralCodes(s);
    Append(EmitDeclare(c, codes, k),
           One(GoTry(codes != {}, k, true, EmitLiteral(Owning(c, codes, k), s.body, codes != {}, k).code)))
  }

  function AfterHead(c: Ctx, s: Stmt, tries: nat): (after: nat)
    requires s.TryCatch? || s.TryFinally? || s.TryCatchFinally?
    ensures after > tries
  {
    var codes := LiteralCodes(s);
    EmitLiteral(Owning(c, codes, tries + 1), s.body, codes != {}, tries + 1).tries
  }

  lemma EmitParts(c: Ctx, s: Stmt, tries: nat, st: State)
    requires s.TryCatch? || s.TryFinally? || s.TryCatchFinally?
    ensures var codes := LiteralCodes(s);
            var tail := EmitRest(Owning(c, codes, tries + 1), s, codes, tries + 1, AfterHead(c, s, tries)).code;
            var g := GoSteps(TryHead(c, s, tries), st);
            GoSteps(EmitTry(c, s, tries).code, st) == if g.x.Fell? then GoSteps(tail, g.st) else g
  {
    var codes := LiteralCodes(s);
    var tail := EmitRest(Owning(c, codes, tries + 1), s, codes, tries + 1, AfterHead(c, s, tries)).code;
    assert EmitTry(c, s, tries).code == Append(TryHead(c, s, tries), tail);
    StepsAppend(TryHead(c, s, tries), tail, st);
  }

  lemma {:induction false} SimTry(c: Ctx, s: Stmt, tries: nat, st: State, slot: Value)
    requires s.TryCatch? || s.TryFinally? || s.TryCatchFinally?
    requires Reached(c, tries) && Holds(c, st, slot)
    requires StmtTyped(s, Carries(c.ret)) && Covered(c, StmtExits(s, false))
    ensures Matches(c, SlotStmt(ModeOf(c), s, st.w, slot), GoSteps(EmitTry(c, s, tries).code, st), st, tries)
    decreases |st.w.tape|, s, 2
  {
    EmitParts(c, s, tries, st);
    OwningReady(c, s, tries);
    SimHead(c, s, tries, st, slot);
    SlotParts(ModeOf(c), s, st.w, slot);
    SimRest(c, s, tries, st, slot, SlotHead(ModeOf(c), s, st.w, slot), GoSteps(TryHead(c, s, tries), st));
  }

  lemma {:induction false} SimRest(c: Ctx, s: Stmt, tries: nat, st: State, slot: Value, r: SlotRun, g: GoRun)
    requires s.TryCatch? || s.TryFinally? || s.TryCatchFinally?
    requires Reached(c, tries)
    requires StmtTyped(s, Carries(c.ret)) && Covered(c, StmtExits(s, false))
    requires Caught(tries + 1, LiteralCodes(s) != {}, r, g) && Holds(Owning(c, LiteralCodes(s), tries + 1), g.st, r.slot)
    requires Kept(st, g.st, tries, c.retVar)
    requires r.c.Normal? || r.c.Threw? || r.c.Crashed? || r.c.Cut? || CodeOf(r.c) in LiteralCodes(s)
    ensures var codes := LiteralCodes(s);
            var own := Owning(c, codes, tries + 1);
            var tail := EmitRest(own, s, codes, tries + 1, AfterHead(c, s, tries)).code;
            && (r.c.Crashed? || r.c.Cut? ==> Matches(c, r, g, st, tries))
            && (!r.c.Crashed? && !r.c.Cut? ==> Matches(c, SlotTail(ModeOf(own), s, r), GoSteps(tail, g.st), st, tries))
    decreases |r.w.tape|, s, 1
  {
    var k := tries + 1;
    var codes := LiteralCodes(s);
    var own := Owning(c, codes, k);
    OwningReady(c, s, tries);
    if r.c.Crashed? || r.c.Cut? {
      OwningMatches(c, codes, k, r, g, st, tries);
    } else {
      SimTail(own, s, codes, k, AfterHead(c, s, tries), r, g);
      var end := GoSteps(EmitRest(own, s, codes, k, AfterHead(c, s, tries)).code, g.st);
      KeptOn(st, g.st, end.st, tries, tries, c.retVar, own.retVar);
      OwningMatches(c, codes, k, SlotTail(ModeOf(own), s, r), end, st, tries);
    }
  }

  // A try's literal, in JavaScript with the slot.
  function SlotHead(m: Mode, s: Stmt, w: World, slot: Value): SlotRun
    requires s.TryCatch? || s.TryFinally? || s.TryCatchFinally?
  {
    SlotBlock(Inside(m.(owned := m.owned || Declares(m, s))), s.body, w, if Declares(m, s) then Undefined else slot)
  }

  lemma SlotParts(m: Mode, s: Stmt, w: World, slot: Value)
    requires s.TryCatch? || s.TryFinally? || s.TryCatchFinally?
    ensures var r := SlotHead(m, s, w, slot);
            SlotStmt(m, s, w, slot)
              == if r.c.Crashed? || r.c.Cut? then r else SlotTail(m.(owned := m.owned || Declares(m, s)), s, r)
  {
  }

  // The context a try owns says the same of how it is left as the one around it.
  lemma OwningMatches(c: Ctx, codes: set<int>, k: nat, r: SlotRun, g: GoRun, st: State, tries: nat)
    requires k == tries + 1
    requires g.x == ExitFor(Owning(c, codes, k), r) && g.st.w == r.w && Holds(Owning(c, codes, k), g.st, r.slot)
    requires Kept(st, g.st, tries, c.retVar)
    ensures Matches(c, r, g, st, tries)
  {
  }

  lemma {:induction false} SimHead(c: Ctx, s: Stmt, tries: nat, st: State, slot: Value)
    requires s.TryCatch? || s.TryFinally? || s.TryCatchFinally?
    requires Holds(c, st, slot)
    requires var own := Owning(c, LiteralCodes(s), tries + 1);
             && Reached(own, tries + 1)
             && Typed(s.body, Carries(own.ret)) && Covered(Opened(own), Exits(s.body, false))
             && Exits(s.body, false) <= LiteralCodes(s)
             && ModeOf(own) == ModeOf(c).(owned := ModeOf(c).owned || Declares(ModeOf(c), s))
    ensures var k := tries + 1;
            var codes := LiteralCodes(s);
            var own := Owning(c, codes, k);
            var g := GoSteps(TryHead(c, s, tries), st);
            var r := SlotHead(ModeOf(c), s, st.w, slot);
            && Caught(k, codes != {}, r, g) && Holds(own, g.st, r.slot)
            && Kept(st, g.st, tries, c.retVar)
            && (r.c.Normal? || r.c.Threw? || r.c.Crashed? || r.c.Cut? || CodeOf(r.c) in codes)
    decreases |st.w.tape|, s, 0
  {
    var k := tries + 1;
    var codes := LiteralCodes(s);
    var own := Owning(c, codes, k);
    var slot0 := if Owns(c, codes) then Undefined else slot;
    var try_ := GoTry(codes != {}, k, true, EmitLiteral(own, s.body, codes != {}, k).code);
    DeclareActs(c, codes, k, st, slot);
    var start := GoSteps(EmitDeclare(c, codes, k), st).st;
    SimLiteral(own, s.body, codes, k, start, slot0, k);
    HeadSteps(c, codes, k, try_, st);
    KeptOn(st, start, GoStep(try_, start).st, tries, tries, c.retVar, own.retVar);
  }

  lemma HeadSteps(c: Ctx, codes: set<int>, k: nat, try_: GoStmt, st: State)
    requires GoSteps(EmitDeclare(c, codes, k), st).x.Fell?
    ensures GoSteps(Append(EmitDeclare(c, codes, k), One(try_)), st) == GoStep(try_, GoSteps(EmitDeclare(c, codes, k), st).st)
  {
    StepsAppend(EmitDeclare(c, codes, k), One(try_), st);
    SingleStep(try_, GoSteps(EmitDeclare(c, codes, k), st).st);
  }

  lemma OwningReady(c: Ctx, s: Stmt, tries: nat)
    requires s.TryCatch? || s.TryFinally? || s.TryCatchFinally?
    requires Reached(c, tries)
    requires StmtTyped(s, Carries(c.ret)) && Covered(c, StmtExits(s, false))
    ensures var codes := LiteralCodes(s);
            var own := Owning(c, codes, tries + 1);
            && Ready(own, codes, tries + 1, tries + 1)
            && Typed(s.body, Carries(own.ret)) && Covered(Opened(own), Exits(s.body, false))
            && Exits(s.body, false) <= codes
            && ModeOf(own) == ModeOf(c).(owned := ModeOf(c).owned || Declares(ModeOf(c), s))
  {
  }

  // What a try is after its literal, in JavaScript with the slot.
  function SlotTail(m: Mode, s: Stmt, r: SlotRun): SlotRun
    requires s.TryCatch? || s.TryFinally? || s.TryCatchFinally?
  {
    match s
    case TryCatch(_, h) => if r.c.Threw? then SlotHandler(m, h, r) else Settle(m, r)
    case TryFinally(_, f) => SlotFinalizer(m, f, r)
    case TryCatchFinally(_, h, f) => SlotFinalizer(m, f, if r.c.Threw? then SlotHandler(Inside(m), h, r) else r)
  }

  lemma {:induction false} SimTail(c: Ctx, s: Stmt, codes: set<int>, k: nat, tries: nat, r: SlotRun, g: GoRun)
    requires s.TryCatch? || s.TryFinally? || s.TryCatchFinally?
    requires codes == LiteralCodes(s)
    requires Ready(c, codes, k, tries)
    requires Caught(k, codes != {}, r, g) && Holds(c, g.st, r.slot)
    requires r.c.Normal? || r.c.Threw? || r.c.Crashed? || r.c.Cut? || CodeOf(r.c) in codes
    requires !r.c.Crashed? && !r.c.Cut?
    requires StmtTyped(s, Carries(c.ret)) && Covered(c, StmtExits(s, false))
    ensures var after := SlotTail(ModeOf(c), s, r);
            var end := GoSteps(EmitRest(c, s, codes, k, tries).code, g.st);
            && end.x == ExitFor(c, after) && end.st.w == after.w && Holds(c, end.st, after.slot)
            && Kept(g.st, end.st, k - 1, c.retVar)
    decreases |r.w.tape|, s, 0
  {
    match s
    case TryCatch(_, h) =>
      SimCatch(c, h, codes, k, tries, r, g);
    case TryFinally(_, f) =>
      SimFinally(c, f, codes, k, tries, r, g);
    case TryCatchFinally(_, h, f) =>
      SimCatchLiteral(c, h, codes, k, tries, r, g);
      var handler := EmitLiteral(c, h.body, codes != {}, tries);
      var again := GoIfThrown(k, One(GoTry(codes != {}, k, false, Binding(h, k, handler.code))));
      var r2 := if r.c.Threw? then SlotHandler(Inside(ModeOf(c)), h, r) else r;
      var g2 := GoStep(again, g.st);
      if !r2.c.Crashed? && !r2.c.Cut? {
        SimFinally(c, f, codes, k, handler.tries, r2, g2);
        var end := GoSteps(Finished(c, EmitBlock(c, f, handler.tries).code, codes, k), g2.st);
        KeptOn(g.st, g2.st, end.st, k - 1, k, c.retVar, c.retVar);
      }
  }

  // A whole function.

  lemma {:induction false} EndingInReturnNeverFalls(b: Block, w: World)
    requires Last(b).Some? && Last(b).value.Return?
    ensures !RunBlock(b, w).c.Normal?
    decreases b
  {
    var first := RunStmt(b.head, w);
    if b.tail.Then? && first.c.Normal? { EndingInReturnNeverFalls(b.tail, first.w); }
  }

  /** What a compiled function comes to, said of the run with a slot: it
      returns got, and one whose end TypeScript never lets be reached panics there. */
  function Compiled(ret: Returns, body: Block, w: World): Call
  {
    var r := SlotBlock(Mode(false, false, Carries(ret)), body, w, Undefined);
    match r.c
    case Normal => Call(if ret.PlainFn? then Panicked else Result(Undefined), r.w)
    case Returned(_) => Call(Result(if Carries(ret) then r.got else Undefined), r.w)
    case Threw(v) => Call(Uncaught(v), r.w)
    case Crashed => Call(Panicked, r.w)
    case Cut => Call(Unfinished, r.w)
    case _ => Call(Malformed, r.w)
  }

  // What the frontend promises of a function's body: returns that fit its
  // result, and no break or continue outside a loop.
  predicate WellFormed(ret: Returns, body: Block) {
    Typed(body, Carries(ret)) && Exits(body, false) <= {CODE_RETURN}
  }

  /** Go's call of any emitted function is the shared-slot call. */
  lemma EmittedIsCompiled(ret: Returns, body: Block, tries: nat, w: World)
    requires WellFormed(ret, body)
    ensures GoCall(EmitFunction(ret, body, tries).code, w) == Compiled(ret, body, w)
  {
    var c, st := Start(ret), State(w, map[], map[], map[]);
    var code, end := EmitBlock(c, body, tries).code, EmitEnd(ret, body);
    SimBlock(c, body, tries, st, Undefined);
    StepsAppend(code, end, st);
    var r := SlotBlock(ModeOf(c), body, w, Undefined);
    SlotBlockIsRun(ModeOf(c), body, w, Undefined);
    LeavesByExits(body, w);
    if r.c.Normal? { EndActs(ret, body, w, GoSteps(code, st).st); }
  }

  lemma EndActs(ret: Returns, body: Block, w: World, st: State)
    requires RunBlock(body, w).c.Normal?
    ensures GoSteps(EmitEnd(ret, body), st) ==
            match ret
            case VoidFn => GoRun(Fell, st)
            case PlainFn => GoRun(Crashing, st)
            case _ => GoRun(Returning(BackValue(Undefined)), st)
  {
    if Last(body).Some? && Last(body).value.Return? { EndingInReturnNeverFalls(body, w); }
    SingleStep(GoReturn(Struct), st);
    SingleStep(GoReturn(Zero), st);
    SingleStep(GoPanic, st);
  }

  // The branch of leaves that reports a lost value, and leave's read of an
  // undeclared slot, are never taken.

  predicate Lost(b: GoBlock) {
    match b
    case GoDone => false
    case GoThen(s, rest) =>
      || Lost(rest)
      || (match s
          case GoLost => true
          case GoIf(_, thn, els) => Lost(thn) || Lost(els)
          case GoFor(_, _, _, body) => Lost(body)
          case GoTry(_, _, _, literal) => Lost(literal)
          case GoIfThrown(_, then_) => Lost(then_)
          case GoIfCode(_, _, then_) => Lost(then_)
          case _ => false)
  }

  lemma {:induction false} LostAppend(a: GoBlock, b: GoBlock)
    ensures Lost(Append(a, b)) <==> Lost(a) || Lost(b)
    decreases a
  {
    match a
    case GoDone =>
    case GoThen(_, rest) => LostAppend(rest, b);
  }

  lemma {:induction false} NothingLost(c: Ctx, b: Block, tries: nat)
    requires Typed(b, Carries(c.ret)) && Covered(c, Exits(b, false))
    ensures !Lost(EmitBlock(c, b, tries).code)
    decreases b, 0
  {
    match b
    case Done =>
    case Then(s, rest) =>
      var first := EmitStmt(c, s, tries);
      NothingLostStmt(c, s, tries);
      NothingLost(c, rest, first.tries);
      LostAppend(first.code, EmitBlock(c, rest, first.tries).code);
  }

  lemma {:induction false} NothingLostStmt(c: Ctx, s: Stmt, tries: nat)
    requires StmtTyped(s, Carries(c.ret)) && Covered(c, StmtExits(s, false))
    ensures !Lost(EmitStmt(c, s, tries).code)
    decreases s, 1
  {
    match s
    case If(_, thn, els) =>
      NothingLost(c, thn, tries);
      NothingLost(c, els, EmitBlock(c, thn, tries).tries);
    case Loop(_, _, _, body) =>
      ReturnsExitLoops(body);
      NothingLost(Looping(c), body, tries);
    case TryCatch(_, _) => NothingLostTry(c, s, tries);
    case TryFinally(_, _) => NothingLostTry(c, s, tries);
    case TryCatchFinally(_, _, _) => NothingLostTry(c, s, tries);
    case _ =>
  }

  lemma {:induction false} NothingLostTry(c: Ctx, s: Stmt, tries: nat)
    requires s.TryCatch? || s.TryFinally? || s.TryCatchFinally?
    requires StmtTyped(s, Carries(c.ret)) && Covered(c, StmtExits(s, false))
    ensures !Lost(EmitTry(c, s, tries).code)
    decreases s, 0
  {
    hide EmitBlock, EmitStmt;
    var k := tries + 1;
    var codes := LiteralCodes(s);
    var own := Owning(c, codes, k);
    var literal := EmitLiteral(own, s.body, codes != {}, k);
    var head := Append(EmitDeclare(c, codes, k), One(GoTry(codes != {}, k, true, literal.code)));
    NothingLostLiteral(own, s.body, codes != {}, k);
    LostAppend(EmitDeclare(c, codes, k), One(GoTry(codes != {}, k, true, literal.code)));
    LostAppend(head, EmitRest(own, s, codes, k, literal.tries).code);
    NoLostCodes(own, k, codes);
    match s
    case TryCatch(_, h) =>
      NothingLost(own, h.body, literal.tries);
      LostAppend(EmitBind(h, k), EmitBlock(own, h.body, literal.tries).code);
    case TryFinally(_, f) =>
      NothingLost(own, f, literal.tries);
      LostAppend(EmitBlock(own, f, literal.tries).code, GoThen(GoRethrow(k), EmitCodes(own, k, codes)));
    case TryCatchFinally(_, h, f) =>
      var handler := EmitLiteral(own, h.body, codes != {}, literal.tries);
      NothingLostLiteral(own, h.body, codes != {}, literal.tries);
      LostAppend(EmitBind(h, k), handler.code);
      NothingLost(own, f, handler.tries);
      LostAppend(EmitBlock(own, f, handler.tries).code, GoThen(GoRethrow(k), EmitCodes(own, k, codes)));
  }

  lemma {:induction false} NothingLostLiteral(c: Ctx, body: Block, coded: bool, tries: nat)
    requires Typed(body, Carries(c.ret)) && Covered(Opened(c), Exits(body, false))
    ensures !Lost(EmitLiteral(c, body, coded, tries).code)
    decreases body, 1
  {
    NothingLost(Opened(c), body, tries);
    LostAppend(EmitBlock(Opened(c), body, tries).code, One(GoReturn(Code(CODE_FELL))));
  }

  lemma NoLostCodes(c: Ctx, k: nat, codes: set<int>)
    requires CODE_RETURN in codes && Carries(c.ret) ==> c.retVar.Some?
    ensures !Lost(EmitCodes(c, k, codes))
  {
    var a, b, d := EmitIfCode(c, k, codes, CODE_RETURN), EmitIfCode(c, k, codes, CODE_BREAK), EmitIfCode(c, k, codes, CODE_CONTINUE);
    LostAppend(a, Append(b, d));
    LostAppend(b, d);
  }

  /** exits covers every way out of a try: no emitted function loses a value. */
  lemma FunctionNeverLosesAReturn(ret: Returns, body: Block, tries: nat)
    requires Typed(body, Carries(ret))
    ensures !Lost(EmitFunction(ret, body, tries).code)
  {
    NothingLost(Start(ret), body, tries);
    LostAppend(EmitBlock(Start(ret), body, tries).code, EmitEnd(ret, body));
  }
}
