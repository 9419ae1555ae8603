/**
  JavaScript's statements with the one thing the translation adds: a slot in
  which a return inside a try waits while finallys run. The first try a
  return can leave declares it, and every try inside that one shares it
  (backend/emit_try.go:80-88). A run here goes as JavaScript's does, carries
  what the slot holds, and says what the compiled function would return
  (got) beside what JavaScript returns.
*/
module TrySlot {
  import opened Options
  import opened TryLanguage
  import opened TryEmit

  // literal: inside a try's literal; owned: under a try that declared a slot.
  datatype Mode = Mode(literal: bool, owned: bool, carries: bool)

  datatype SlotRun = SlotRun(c: Completion, w: World, slot: Value, got: Value)

  function Plain(run: Run, slot: Value): SlotRun { SlotRun(run.c, run.w, slot, Undefined) }

  predicate Declares(m: Mode, s: Stmt)
    requires s.TryCatch? || s.TryFinally? || s.TryCatchFinally?
  {
    CODE_RETURN in LiteralCodes(s) && m.carries && !m.owned
  }

  function Inside(m: Mode): Mode { m.(literal := true) }

  // A return pending at a try outside every literal goes on as the slot's value.
  function Settle(m: Mode, r: SlotRun): SlotRun {
    if r.c.Returned? && !m.literal then r.(got := if m.carries then r.slot else Undefined) else r
  }

  function SlotStmt(m: Mode, s: Stmt, w: World, slot: Value): (r: SlotRun)
    ensures |r.w.tape| <= |w.tape|
    decreases |w.tape|, s, 0
  {
    match s
    case Return(Some(site)) =>
      (match Evaluate(site, w)
       case Got(v, after) =>
         if m.literal then SlotRun(Returned(v), after, v, Undefined) else SlotRun(Returned(v), after, slot, v)
       case Abrupt(run) => Plain(run, slot))
    case If(site, thn, els) =>
      (match Evaluate(site, w)
       case Got(v, after) => if Truthy(v) then SlotBlock(m, thn, after, slot) else SlotBlock(m, els, after, slot)
       case Abrupt(run) => Plain(run, slot))
    case Loop(init, test, post, body) =>
      var first := EvaluateAll(init, w);
      if first.c.Normal? then SlotLoop(m, test, post, body, first.w, slot) else Plain(first, slot)
    case TryCatch(body, h) =>
      var own := m.(owned := m.owned || Declares(m, s));
      var r := SlotBlock(Inside(own), body, w, if Declares(m, s) then Undefined else slot);
      if r.c.Threw? then SlotHandler(own, h, r) else Settle(m, r)
    case TryFinally(body, f) =>
      var own := m.(owned := m.owned || Declares(m, s));
      var r := SlotBlock(Inside(own), body, w, if Declares(m, s) then Undefined else slot);
      SlotFinalizer(own, f, r)
    case TryCatchFinally(body, h, f) =>
      var own := m.(owned := m.owned || Declares(m, s));
      var r := SlotBlock(Inside(own), body, w, if Declares(m, s) then Undefined else slot);
      SlotFinalizer(own, f, if r.c.Threw? then SlotHandler(Inside(own), h, r) else r)
    case _ => Plain(RunStmt(s, w), slot)
  }

  function SlotHandler(m: Mode, h: Handler, r: SlotRun): (after: SlotRun)
    requires r.c.Threw?
    ensures |after.w.tape| <= |r.w.tape|
    decreases |r.w.tape|, h, 0
  {
    SlotBlock(m, h.body, Bind(h, r.c.v, r.w), r.slot)
  }

  function SlotFinalizer(m: Mode, f: Block, r: SlotRun): (after: SlotRun)
    ensures |after.w.tape| <= |r.w.tape|
    decreases |r.w.tape|, f, 1
  {
    if r.c.Crashed? || r.c.Cut? then r else
    var own := SlotBlock(m, f, r.w, r.slot);
    if own.c.Normal? then Settle(m, SlotRun(r.c, own.w, own.slot, Undefined)) else own
  }

  function SlotLoop(m: Mode, test: Test, post: seq<nat>, body: Block, w: World, slot: Value): (r: SlotRun)
    ensures |r.w.tape| <= |w.tape|
    decreases |w.tape|, body, 2
  {
    match Check(test, w)
    case Abrupt(run) => Plain(run, slot)
    case Got(v, after) =>
      if !Truthy(v) then SlotRun(Normal, after, slot, Undefined) else
      var turn := SlotBlock(m, body, after, slot);
      SlotNext(m, test, post, body, turn)
  }

  // What follows a turn of a loop.
  function SlotNext(m: Mode, test: Test, post: seq<nat>, body: Block, turn: SlotRun): (r: SlotRun)
    ensures |r.w.tape| <= |turn.w.tape|
    decreases |turn.w.tape|, body, 3
  {
    if turn.c.Broke? then SlotRun(Normal, turn.w, turn.slot, Undefined) else
    if !turn.c.Normal? && !turn.c.Continued? then turn else
    var step := EvaluateAll(post, turn.w);
    if step.c.Normal? then SlotLoop(m, test, post, body, step.w, turn.slot) else Plain(step, turn.slot)
  }

  function SlotBlock(m: Mode, b: Block, w: World, slot: Value): (r: SlotRun)
    ensures |r.w.tape| <= |w.tape|
    decreases |w.tape|, b, 0
  {
    match b
    case Done => SlotRun(Normal, w, slot, Undefined)
    case Then(s, rest) =>
      var first := SlotStmt(m, s, w, slot);
      if first.c.Normal? then SlotBlock(m, rest, first.w, first.slot) else first
  }

  // The slot changes nothing JavaScript can see: the runs are its own.

  predicate Erases(r: SlotRun, run: Run) { r.c == run.c && r.w == run.w }

  lemma {:induction false} SlotStmtIsRun(m: Mode, s: Stmt, w: World, slot: Value)
    ensures Erases(SlotStmt(m, s, w, slot), RunStmt(s, w))
    decreases |w.tape|, s, 1
  {
    match s
    case If(site, thn, els) =>
      var reply := Evaluate(site, w);
      if reply.Got? {
        SlotBlockIsRun(m, thn, reply.w, slot);
        SlotBlockIsRun(m, els, reply.w, slot);
      }
    case Loop(init, test, post, body) =>
      SlotLoopIsRun(m, test, post, body, EvaluateAll(init, w).w, slot);
    case TryCatch(body, h) =>
      SlotTryIsRun(m, s, w, slot);
    case TryFinally(body, f) =>
      SlotTryIsRun(m, s, w, slot);
    case TryCatchFinally(body, h, f) =>
      SlotTryIsRun(m, s, w, slot);
    case _ =>
  }

  lemma {:induction false} SlotTryIsRun(m: Mode, s: Stmt, w: World, slot: Value)
    requires s.TryCatch? || s.TryFinally? || s.TryCatchFinally?
    ensures Erases(SlotStmt(m, s, w, slot), RunStmt(s, w))
    decreases |w.tape|, s, 0
  {
    var own := m.(owned := m.owned || Declares(m, s));
    var slot0 := if Declares(m, s) then Undefined else slot;
    SlotBlockIsRun(Inside(own), s.body, w, slot0);
    var r := SlotBlock(Inside(own), s.body, w, slot0);
    var run := RunBlock(s.body, w);
    match s
    case TryCatch(_, h) =>
      if r.c.Threw? { SlotHandlerIsRun(own, h, r, run); }
    case TryFinally(_, f) =>
      SlotFinalizerIsRun(own, f, r, run);
    case TryCatchFinally(_, h, f) =>
      if r.c.Threw? {
        SlotHandlerIsRun(Inside(own), h, r, run);
        SlotFinalizerIsRun(own, f, SlotHandler(Inside(own), h, r), RunHandler(h, run));
      } else {
        SlotFinalizerIsRun(own, f, r, run);
      }
  }

  lemma {:induction false} SlotHandlerIsRun(m: Mode, h: Handler, r: SlotRun, run: Run)
    requires r.c.Threw? && Erases(r, run)
    ensures Erases(SlotHandler(m, h, r), RunHandler(h, run))
    decreases |r.w.tape|, h, 0
  {
    SlotBlockIsRun(m, h.body, Bind(h, r.c.v, r.w), r.slot);
  }

  lemma {:induction false} SlotFinalizerIsRun(m: Mode, f: Block, r: SlotRun, run: Run)
    requires Erases(r, run)
    ensures Erases(SlotFinalizer(m, f, r), RunFinalizer(f, run))
    decreases |r.w.tape|, f, 1
  {
    SlotBlockIsRun(m, f, r.w, r.slot);
  }

  lemma {:induction false} SlotLoopIsRun(m: Mode, test: Test, post: seq<nat>, body: Block, w: World, slot: Value)
    ensures Erases(SlotLoop(m, test, post, body, w, slot), RunLoop(test, post, body, w))
    decreases |w.tape|, body, 2
  {
    var reply := Check(test, w);
    if reply.Got? && Truthy(reply.v) {
      SlotBlockIsRun(m, body, reply.w, slot);
      var turn := SlotBlock(m, body, reply.w, slot);
      if turn.c.Normal? || turn.c.Continued? {
        SlotLoopIsRun(m, test, post, body, EvaluateAll(post, turn.w).w, turn.slot);
      }
    }
  }

  lemma {:induction false} SlotBlockIsRun(m: Mode, b: Block, w: World, slot: Value)
    ensures Erases(SlotBlock(m, b, w, slot), RunBlock(b, w))
    decreases |w.tape|, b, 0
  {
    match b
    case Done =>
    case Then(s, rest) =>
      SlotStmtIsRun(m, s, w, slot);
      var first := SlotStmt(m, s, w, slot);
      if first.c.Normal? { SlotBlockIsRun(m, rest, first.w, first.slot); }
  }

  // What leaves a block is among its exits.

  predicate Within(c: Completion, codes: set<int>, inLoop: set<int>) {
    && (c.Returned? ==> CODE_RETURN in codes && CODE_RETURN in inLoop)
    && (c.Broke? ==> CODE_BREAK in codes)
    && (c.Continued? ==> CODE_CONTINUE in codes)
  }

  lemma {:induction false} LeavesByExits(b: Block, w: World)
    ensures Within(RunBlock(b, w).c, Exits(b, false), Exits(b, true))
    decreases |w.tape|, b, 0
  {
    match b
    case Done =>
    case Then(s, rest) =>
      StmtLeavesByExits(s, w);
      var first := RunStmt(s, w);
      if first.c.Normal? { LeavesByExits(rest, first.w); }
  }

  lemma {:induction false} StmtLeavesByExits(s: Stmt, w: World)
    ensures Within(RunStmt(s, w).c, StmtExits(s, false), StmtExits(s, true))
    decreases |w.tape|, s, 0
  {
    match s
    case If(site, thn, els) =>
      var reply := Evaluate(site, w);
      if reply.Got? {
        LeavesByExits(thn, reply.w);
        LeavesByExits(els, reply.w);
      }
    case Loop(init, test, post, body) =>
      LoopLeavesByExits(test, post, body, EvaluateAll(init, w).w);
    case TryCatch(body, h) =>
      LeavesByExits(body, w);
      HandlerLeavesByExits(h, RunBlock(body, w));
    case TryFinally(body, f) =>
      LeavesByExits(body, w);
      FinalizerLeavesByExits(f, RunBlock(body, w));
    case TryCatchFinally(body, h, f) =>
      LeavesByExits(body, w);
      HandlerLeavesByExits(h, RunBlock(body, w));
      FinalizerLeavesByExits(f, RunHandler(h, RunBlock(body, w)));
    case _ =>
  }

  lemma {:induction false} HandlerLeavesByExits(h: Handler, r: Run)
    ensures RunHandler(h, r) == r || Within(RunHandler(h, r).c, Exits(h.body, false), Exits(h.body, true))
    decreases |r.w.tape|, h, 0
  {
    if r.c.Threw? { LeavesByExits(h.body, Bind(h, r.c.v, r.w)); }
  }

  lemma {:induction false} FinalizerLeavesByExits(f: Block, r: Run)
    ensures RunFinalizer(f, r).c == r.c || Within(RunFinalizer(f, r).c, Exits(f, false), Exits(f, true))
    decreases |r.w.tape|, f, 1
  {
    LeavesByExits(f, r.w);
  }

  lemma {:induction false} LoopLeavesByExits(test: Test, post: seq<nat>, body: Block, w: World)
    ensures RunLoop(test, post, body, w).c.Returned? ==> CODE_RETURN in Exits(body, true)
    decreases |w.tape|, body, 2
  {
    var reply := Check(test, w);
    if reply.Got? && Truthy(reply.v) {
      LeavesByExits(body, reply.w);
      var turn := RunBlock(body, reply.w);
      if turn.c.Normal? || turn.c.Continued? {
        LoopLeavesByExits(test, post, body, EvaluateAll(post, turn.w).w);
      }
    }
  }
}
