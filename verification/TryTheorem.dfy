/**
  The theorems about compiled functions: the emitted Go does what JavaScript
  does, on every run, exactly when the body is Faithful; a function with no
  return inside a try nested in a finally is; and one program that isn't.
*/
module TryTheorem {
  import opened Options
  import opened TryLanguage
  import opened TryTarget
  import opened TryEmit
  import opened TrySlot
  import opened TryCorrect
  import opened TryExact

  ghost predicate SameCalls(ret: Returns, body: Block, tries: nat) {
    forall w: World :: GoCall(EmitFunction(ret, body, tries).code, w) == RunFunction(body, w)
  }

  lemma {:induction false} VoidReturnsNothing(b: Block, w: World)
    requires Typed(b, false)
    ensures RunBlock(b, w).c.Returned? ==> RunBlock(b, w).c.v == Undefined
    decreases |w.tape|, b, 0
  {
    match b
    case Done =>
    case Then(s, rest) =>
      VoidStmtReturnsNothing(s, w);
      var first := RunStmt(s, w);
      if first.c.Normal? { VoidReturnsNothing(rest, first.w); }
  }

  lemma {:induction false} VoidStmtReturnsNothing(s: Stmt, w: World)
    requires StmtTyped(s, false)
    ensures RunStmt(s, w).c.Returned? ==> RunStmt(s, w).c.v == Undefined
    decreases |w.tape|, s, 0
  {
    match s
    case If(site, thn, els) =>
      var reply := Evaluate(site, w);
      if reply.Got? {
        VoidReturnsNothing(thn, reply.w);
        VoidReturnsNothing(els, reply.w);
      }
    case Loop(init, test, post, body) => VoidLoopReturnsNothing(test, post, body, EvaluateAll(init, w).w);
    case TryCatch(body, h) =>
      VoidReturnsNothing(body, w);
      VoidHandlerReturnsNothing(h, RunBlock(body, w));
    case TryFinally(body, f) =>
      VoidReturnsNothing(body, w);
      VoidReturnsNothing(f, RunBlock(body, w).w);
    case TryCatchFinally(body, h, f) =>
      VoidReturnsNothing(body, w);
      VoidHandlerReturnsNothing(h, RunBlock(body, w));
      VoidReturnsNothing(f, RunHandler(h, RunBlock(body, w)).w);
    case _ =>
  }

  lemma {:induction false} VoidHandlerReturnsNothing(h: Handler, r: Run)
    requires Typed(h.body, false)
    requires r.c.Returned? ==> r.c.v == Undefined
    ensures RunHandler(h, r).c.Returned? ==> RunHandler(h, r).c.v == Undefined
    decreases |r.w.tape|, h, 0
  {
    if r.c.Threw? { VoidReturnsNothing(h.body, Bind(h, r.c.v, r.w)); }
  }

  lemma {:induction false} VoidLoopReturnsNothing(test: Test, post: seq<nat>, body: Block, w: World)
    requires Typed(body, false)
    ensures RunLoop(test, post, body, w).c.Returned? ==> RunLoop(test, post, body, w).c.v == Undefined
    decreases |w.tape|, body, 2
  {
    var reply := Check(test, w);
    if reply.Got? && Truthy(reply.v) {
      VoidReturnsNothing(body, reply.w);
      var turn := RunBlock(body, reply.w);
      if turn.c.Normal? || turn.c.Continued? { VoidLoopReturnsNothing(test, post, body, EvaluateAll(post, turn.w).w); }
    }
  }

  // A falling end is a way out whatever the function returns: the slot has no part in it.
  lemma {:induction false} FaithfulRuns(ret: Returns, body: Block, tries: nat, w: World)
    requires WellFormed(ret, body) && Faithful(ret, body)
    ensures GoCall(EmitFunction(ret, body, tries).code, w) == RunFunction(body, w)
  {
    var m := Mode(false, false, Carries(ret));
    EmittedIsCompiled(ret, body, tries, w);
    SlotBlockIsRun(m, body, w, Undefined);
    LeavesByExits(body, w);
    if Carries(ret) {
      var way := SoundBlock(m, body, w, Undefined);
      if RunBlock(body, w).c.Returned? { assert way == Way(KReturn, way.stored, way.stale); }
      if RunBlock(body, w).c.Normal? { assert way == Way(KNormal, way.stored, false); }
    } else {
      VoidReturnsNothing(body, w);
    }
  }

  // A way that isn't JavaScript's, gone by the run chosen for it.
  lemma UnfaithfulRuns(ret: Returns, body: Block, tries: nat) returns (w: World)
    requires WellFormed(ret, body) && !Faithful(ret, body)
    ensures GoCall(EmitFunction(ret, body, tries).code, w) != RunFunction(body, w)
  {
    var m := Mode(false, false, Carries(ret));
    var st: bool :| CanBlock(body, false, Way(KReturn, st, true)) || (ret.PlainFn? && CanBlock(body, false, Way(KNormal, st, false)));
    var way := if CanBlock(body, false, Way(KReturn, st, true)) then Way(KReturn, st, true) else Way(KNormal, st, false);
    var tape := RealizeBlock(m, body, way, Data(1), Data(2), []);
    w := World(tape, []);
    assert Goes(m, way, Data(1), Data(2), [], Undefined, SlotBlock(m, body, World(tape, []), Undefined));
    EmittedIsCompiled(ret, body, tries, w);
    SlotBlockIsRun(m, body, w, Undefined);
  }

  /** Emitted Go and JavaScript agree on every run, effects and outcome, if and
      only if the body is Faithful. */
  lemma CompiledExactly(ret: Returns, body: Block, tries: nat)
    requires WellFormed(ret, body)
    ensures SameCalls(ret, body, tries) <==> Faithful(ret, body)
  {
    if Faithful(ret, body) {
      forall w: World
        ensures GoCall(EmitFunction(ret, body, tries).code, w) == RunFunction(body, w)
      {
        FaithfulRuns(ret, body, tries, w);
      }
    } else {
      var w := UnfaithfulRuns(ret, body, tries);
    }
  }

  // A simpler condition that is enough.

  // A return inside the literal of a try in b, at any depth.
  predicate TryReturns(b: Block) {
    match b
    case Done => false
    case Then(s, rest) => StmtTryReturns(s) || TryReturns(rest)
  }

  predicate StmtTryReturns(s: Stmt) {
    match s
    case If(_, thn, els) => TryReturns(thn) || TryReturns(els)
    case Loop(_, _, _, body) => TryReturns(body)
    case TryCatch(body, h) => CODE_RETURN in Exits(body, false) || TryReturns(body) || TryReturns(h.body)
    case TryFinally(body, f) => CODE_RETURN in Exits(body, false) || TryReturns(body) || TryReturns(f)
    case TryCatchFinally(body, h, f) =>
      || CODE_RETURN in Exits(body, false) || CODE_RETURN in Exits(h.body, false)
      || TryReturns(body) || TryReturns(h.body) || TryReturns(f)
    case _ => false
  }

  // A return inside a try nested in a finally.
  predicate ReturnsUnderFinally(b: Block) {
    match b
    case Done => false
    case Then(s, rest) => StmtReturnsUnderFinally(s) || ReturnsUnderFinally(rest)
  }

  predicate StmtReturnsUnderFinally(s: Stmt) {
    match s
    case If(_, thn, els) => ReturnsUnderFinally(thn) || ReturnsUnderFinally(els)
    case Loop(_, _, _, body) => ReturnsUnderFinally(body)
    case TryCatch(body, h) => ReturnsUnderFinally(body) || ReturnsUnderFinally(h.body)
    case TryFinally(body, f) => ReturnsUnderFinally(body) || ReturnsUnderFinally(f) || TryReturns(f)
    case TryCatchFinally(body, h, f) =>
      ReturnsUnderFinally(body) || ReturnsUnderFinally(h.body) || ReturnsUnderFinally(f) || TryReturns(f)
    case _ => false
  }

  // Without one, nothing that falls off its end has stored a return.
  lemma {:induction false} StoresLeave(b: Block, literal: bool, way: Way)
    requires !TryReturns(b) && CanBlock(b, literal, way) && way.stored
    ensures way.kind == KReturn
    decreases b, 0
  {
    if way.kind != KReturn && b.Then? {
      if way.kind != KNormal && CanStmt(b.head, literal, way) {
        StmtStoresLeave(b.head, literal, way);
      } else {
        var st :| CanStmt(b.head, literal, Way(KNormal, st, false)) && CanAfter(st, b.tail, literal, way);
        var st2 :| CanBlock(b.tail, literal, Way(way.kind, st2, way.stale)) && way.stored == (st || st2);
        if st { StmtStoresLeave(b.head, literal, Way(KNormal, st, false)); }
        else { StoresLeave(b.tail, literal, Way(way.kind, st2, way.stale)); }
      }
    }
  }

  lemma {:induction false} StmtStoresLeave(s: Stmt, literal: bool, way: Way)
    requires !StmtTryReturns(s) && CanStmt(s, literal, way) && way.stored
    ensures way.kind == KReturn
    decreases s, 1
  {
    match s
    case If(_, thn, els) =>
      if CanBlock(thn, literal, way) { StoresLeave(thn, literal, way); }
      else { StoresLeave(els, literal, way); }
    case Loop(init, test, post, body) => LoopStoresLeave(test, post, body, literal, way);
    case TryCatch(_, _) => HandledStoresLeave(s, literal, way);
    case TryFinally(body, f) =>
      var a: Way :| CanBlock(body, true, a) && CanFinish(a, f, literal, way);
      CanFacts(body, true, a);
      if a.stored { StoresLeave(body, true, a); }
      FinishStoresLeave(a, f, literal, way);
    case TryCatchFinally(_, _, f) =>
      var a: Way :| CanHandled(s, true, a) && CanFinish(a, f, literal, way);
      CanHandledFacts(s, true, a);
      if a.stored { HandledStoresLeave(s, true, a); }
      FinishStoresLeave(a, f, literal, way);
    case _ =>
  }

  lemma {:induction false} HandledStoresLeave(s: Stmt, literal: bool, way: Way)
    requires s.TryCatch? || s.TryCatchFinally?
    requires !StmtTryReturns(s) && CanHandled(s, literal, way) && way.stored
    ensures way.kind == KReturn
    decreases s, 0
  {
    if way.kind != KThrow && CanBlock(s.body, true, way) {
      StoresLeave(s.body, true, way);
    } else {
      var st :| CanBlock(s.body, true, Way(KThrow, st, false)) && CanAfter(st, s.handler.body, literal, way);
      var st2 :| CanBlock(s.handler.body, literal, Way(way.kind, st2, way.stale)) && way.stored == (st || st2);
      if st { StoresLeave(s.body, true, Way(KThrow, st, false)); }
      else { StoresLeave(s.handler.body, literal, Way(way.kind, st2, way.stale)); }
    }
  }

  lemma {:induction false} FinishStoresLeave(a: Way, f: Block, literal: bool, way: Way)
    requires !TryReturns(f) && CanFinish(a, f, literal, way) && way.stored
    requires !a.stored && a.kind != KReturn
    ensures way.kind == KReturn
    decreases f, 1
  {
    var st :|
      && way.stored == (a.stored || st)
      && (|| (CanBlock(f, literal, Way(KNormal, st, false))
              && way.kind == a.kind && way.stale == (a.stale || (a.kind == KReturn && st)))
          || (way.kind != KNormal && CanBlock(f, literal, Way(way.kind, st, way.stale))));
    if way.kind != KNormal && CanBlock(f, literal, Way(way.kind, st, way.stale)) {
      StoresLeave(f, literal, Way(way.kind, st, way.stale));
    } else {
      StoresLeave(f, literal, Way(KNormal, st, false));
    }
  }

  lemma {:induction false} LoopStoresLeave(test: Test, post: seq<nat>, body: Block, literal: bool, way: Way)
    requires !TryReturns(body) && CanLoop(test, post, body, literal, way) && way.stored
    ensures way.kind == KReturn
    decreases body, 2
  {
    var before :| (before ==> CanComeRound(body, literal)) && CanTurn(before, test, post, body, literal, way);
    if before {
      if CanBlock(body, literal, Way(KNormal, true, false)) { StoresLeave(body, literal, Way(KNormal, true, false)); }
      else { StoresLeave(body, literal, Way(KContinue, true, false)); }
    } else {
      var st: bool :| st && (CanBlock(body, literal, Way(KBreak, st, false))
        || ((way.kind == KReturn || way.kind == KThrow) && CanBlock(body, literal, Way(way.kind, st, way.stale)))
        || CanBlock(body, literal, Way(KNormal, st, false)) || CanBlock(body, literal, Way(KContinue, st, false)));
      if CanBlock(body, literal, Way(KBreak, st, false)) { StoresLeave(body, literal, Way(KBreak, st, false)); }
      else if CanBlock(body, literal, Way(KNormal, st, false)) { StoresLeave(body, literal, Way(KNormal, st, false)); }
      else if CanBlock(body, literal, Way(KContinue, st, false)) { StoresLeave(body, literal, Way(KContinue, st, false)); }
      else { StoresLeave(body, literal, Way(way.kind, st, way.stale)); }
    }
  }

  lemma {:induction false} NothingStale(b: Block, literal: bool, way: Way)
    requires !ReturnsUnderFinally(b) && CanBlock(b, literal, way)
    ensures !way.stale
    decreases b, 0
  {
    if way.stale && b.Then? {
      if way.kind != KNormal && CanStmt(b.head, literal, way) {
        StmtNothingStale(b.head, literal, way);
      } else {
        var st :| CanStmt(b.head, literal, Way(KNormal, st, false)) && CanAfter(st, b.tail, literal, way);
        var st2 :| CanBlock(b.tail, literal, Way(way.kind, st2, way.stale)) && way.stored == (st || st2);
        NothingStale(b.tail, literal, Way(way.kind, st2, way.stale));
      }
    }
  }

  lemma {:induction false} StmtNothingStale(s: Stmt, literal: bool, way: Way)
    requires !StmtReturnsUnderFinally(s) && CanStmt(s, literal, way)
    ensures !way.stale
    decreases s, 1
  {
    match s
    case If(_, thn, els) =>
      if CanBlock(thn, literal, way) { NothingStale(thn, literal, way); }
      else if CanBlock(els, literal, way) { NothingStale(els, literal, way); }
    case Loop(init, test, post, body) =>
      if way.stale {
        var before :| (before ==> CanComeRound(body, literal)) && CanTurn(before, test, post, body, literal, way);
        var st: bool :| CanBlock(body, literal, Way(way.kind, st, way.stale));
        NothingStale(body, literal, Way(way.kind, st, way.stale));
      }
    case TryCatch(_, _) => HandledNothingStale(s, literal, way);
    case TryFinally(body, f) =>
      var a: Way :| CanBlock(body, true, a) && CanFinish(a, f, literal, way);
      NothingStale(body, true, a);
      FinishNothingStale(a, f, literal, way);
    case TryCatchFinally(_, _, f) =>
      var a: Way :| CanHandled(s, true, a) && CanFinish(a, f, literal, way);
      HandledNothingStale(s, true, a);
      FinishNothingStale(a, f, literal, way);
    case _ =>
  }

  lemma {:induction false} HandledNothingStale(s: Stmt, literal: bool, way: Way)
    requires s.TryCatch? || s.TryCatchFinally?
    requires !StmtReturnsUnderFinally(s) && CanHandled(s, literal, way)
    ensures !way.stale
    decreases s, 0
  {
    if way.kind != KThrow && CanBlock(s.body, true, way) {
      NothingStale(s.body, true, way);
    } else {
      var st :| CanBlock(s.body, true, Way(KThrow, st, false)) && CanAfter(st, s.handler.body, literal, way);
      var st2 :| CanBlock(s.handler.body, literal, Way(way.kind, st2, way.stale)) && way.stored == (st || st2);
      NothingStale(s.handler.body, literal, Way(way.kind, st2, way.stale));
    }
  }

  lemma {:induction false} FinishNothingStale(a: Way, f: Block, literal: bool, way: Way)
    requires !ReturnsUnderFinally(f) && !TryReturns(f) && CanFinish(a, f, literal, way) && !a.stale
    ensures !way.stale
    decreases f, 1
  {
    if way.stale {
      var st :|
        && way.stored == (a.stored || st)
        && (|| (CanBlock(f, literal, Way(KNormal, st, false))
                && way.kind == a.kind && way.stale == (a.stale || (a.kind == KReturn && st)))
            || (way.kind != KNormal && CanBlock(f, literal, Way(way.kind, st, way.stale))));
      if way.kind != KNormal && CanBlock(f, literal, Way(way.kind, st, way.stale)) {
        NothingStale(f, literal, Way(way.kind, st, way.stale));
      } else {
        StoresLeave(f, literal, Way(KNormal, st, false));
      }
    }
  }

  /** A function with no return inside a try nested in a finally is compiled
      right, on every run in which a value it must return is returned. */
  lemma CompiledWithoutNestedReturns(ret: Returns, body: Block, tries: nat, w: World)
    requires WellFormed(ret, body) && !ReturnsUnderFinally(body)
    requires ret.PlainFn? ==> !RunBlock(body, w).c.Normal?
    ensures GoCall(EmitFunction(ret, body, tries).code, w) == RunFunction(body, w)
  {
    var m := Mode(false, false, Carries(ret));
    EmittedIsCompiled(ret, body, tries, w);
    SlotBlockIsRun(m, body, w, Undefined);
    LeavesByExits(body, w);
    if Carries(ret) {
      var way := SoundBlock(m, body, w, Undefined);
      if RunBlock(body, w).c.Returned? { NothingStale(body, false, way); }
    } else {
      VoidReturnsNothing(body, w);
    }
  }

  // try { return 1 } finally { while (true) { try { return 2 } finally { break } } }

  const INNER := TryFinally(Then(Return(Some(2)), Done), Then(Break, Done))
  const OVERTAKEN :=
    Then(TryFinally(Then(Return(Some(1)), Done), Then(Loop([], Always, [], Then(INNER, Done)), Done)), Done)
  const OVERTAKING := World([Gives(Data(1)), Gives(Data(1)), Gives(Data(2))], [])

  lemma InnerRuns(w: World, sl: Value)
    requires w.tape == [Gives(Data(2))]
    ensures var r := SlotStmt(Mode(false, true, true), INNER, w, sl);
            r.c.Broke? && r.w.tape == [] && r.slot == Data(2)
  {
    var literal := Mode(true, true, true);
    var body := Then(Return(Some(2)), Done);
    assert SlotStmt(literal, Return(Some(2)), w, sl).c == Returned(Data(2));
    var r := SlotBlock(literal, body, w, sl);
    assert r.c == Returned(Data(2)) && r.slot == Data(2);
    var m := Mode(false, true, true);
    assert RunStmt(Break, r.w) == Run(Broke, r.w);
    assert SlotStmt(m, Break, r.w, r.slot) == Plain(Run(Broke, r.w), r.slot);
    var f := SlotBlock(m, Then(Break, Done), r.w, r.slot);
    assert f.c.Broke? && f.slot == Data(2);
    assert SlotStmt(m, INNER, w, sl) == SlotFinalizer(m, Then(Break, Done), r);
  }

  lemma LoopRuns(w: World, sl: Value)
    requires w.tape == [Gives(Data(1)), Gives(Data(2))]
    ensures var r := SlotBlock(Mode(false, true, true), Then(Loop([], Always, [], Then(INNER, Done)), Done), w, sl);
            r.c.Normal? && r.w.tape == [] && r.slot == Data(2)
  {
    var m := Mode(false, true, true);
    var after := w.(tape := w.tape[1..]);
    assert Check(Always, w) == Got(Data(1), after);
    assert after.tape == [Gives(Data(2))];
    InnerRuns(after, sl);
    var turn := SlotBlock(m, Then(INNER, Done), after, sl);
    assert turn.c.Broke?;
    assert SlotLoop(m, Always, [], Then(INNER, Done), w, sl) == SlotNext(m, Always, [], Then(INNER, Done), turn);
    var first := SlotStmt(m, Loop([], Always, [], Then(INNER, Done)), w, sl);
    assert first.c.Normal?;
    assert SlotBlock(m, Done, first.w, first.slot).c.Normal?;
  }

  lemma OvertakenRuns()
    ensures var r := SlotBlock(Mode(false, false, true), OVERTAKEN, OVERTAKING, Undefined);
            r.c == Returned(Data(1)) && r.got == Data(2)
  {
    var m := Mode(false, false, true);
    var literal := Then(Return(Some(1)), Done);
    var finalizer := Then(Loop([], Always, [], Then(INNER, Done)), Done);
    var outer := TryFinally(literal, finalizer);
    assert Exits(literal, false) == {CODE_RETURN};
    assert Declares(m, outer);
    var own := Mode(false, true, true);
    var r := SlotBlock(Inside(own), literal, OVERTAKING, Undefined);
    assert SlotStmt(Inside(own), Return(Some(1)), OVERTAKING, Undefined).c == Returned(Data(1));
    assert r.c == Returned(Data(1)) && r.w.tape == [Gives(Data(1)), Gives(Data(2))];
    LoopRuns(r.w, r.slot);
    var all := SlotFinalizer(own, finalizer, r);
    assert all.c == Returned(Data(1)) && all.got == Data(2);
    assert SlotStmt(m, outer, OVERTAKING, Undefined) == all;
    assert SlotBlock(m, OVERTAKEN, OVERTAKING, Undefined) == all;
  }

  lemma OvertakenIsWellFormed()
    ensures WellFormed(MaybeFn, OVERTAKEN) && ReturnsUnderFinally(OVERTAKEN)
  {
    var finalizer := Then(Loop([], Always, [], Then(INNER, Done)), Done);
    assert Exits(OVERTAKEN, false) <= {CODE_RETURN} by {
      assert Exits(Then(Return(Some(1)), Done), false) == {CODE_RETURN};
      assert Exits(Then(INNER, Done), true) <= {CODE_RETURN};
      assert Exits(finalizer, false) <= {CODE_RETURN};
    }
    assert TryReturns(finalizer);
  }

  /** The condition is needed: JavaScript returns 1 here, and the emitted Go 2. */
  lemma ReturnOvertaken()
    ensures WellFormed(MaybeFn, OVERTAKEN) && ReturnsUnderFinally(OVERTAKEN)
    ensures RunFunction(OVERTAKEN, OVERTAKING).out == Result(Data(1))
    ensures GoCall(EmitFunction(MaybeFn, OVERTAKEN, 0).code, OVERTAKING).out == Result(Data(2))
  {
    OvertakenIsWellFormed();
    var r := SlotBlock(Mode(false, false, true), OVERTAKEN, OVERTAKING, Undefined);
    OvertakenRuns();
    SlotBlockIsRun(Mode(false, false, true), OVERTAKEN, OVERTAKING, Undefined);
    assert RunBlock(OVERTAKEN, OVERTAKING).c == r.c;
    EmittedIsCompiled(MaybeFn, OVERTAKEN, 0, OVERTAKING);
  }
}
