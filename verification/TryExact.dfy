/**
  When a compiled function returns what JavaScript's does: exactly when no
  path through it lets a pending return be overtaken. A try inside a finally
  stores its return in the slot the pending one waits in
  (backend/emit_try.go:80-88); if the finally then discards its own return
  and falls off its end, the pending return goes on with the other's value.

  CanBlock says which ways out a block has, read from its text alone.
*/
module TryExact {
  import opened Options
  import opened TryLanguage
  import opened TryTarget
  import opened TryEmit
  import opened TrySlot
  import opened TryCorrect

  datatype Kind = KNormal | KBreak | KContinue | KReturn | KThrow

  // A way out: its kind, whether a return was stored on the way, and, for a
  // return, whether the slot may hold another's value.
  datatype Way = Way(kind: Kind, stored: bool, stale: bool)

  function Clean(kind: Kind): Way { Way(kind, false, false) }

  ghost predicate CanStmt(s: Stmt, literal: bool, way: Way)
    decreases s, 1
  {
    match s
    case Eval(_) => way == Clean(KNormal) || way == Clean(KThrow)
    case Throw(_) => way == Clean(KThrow)
    case Return(Some(_)) => way == Clean(KThrow) || way == Way(KReturn, literal, false)
    case Return(None) => way == Way(KReturn, literal, false)
    case Break => way == Clean(KBreak)
    case Continue => way == Clean(KContinue)
    case If(_, thn, els) => way == Clean(KThrow) || CanBlock(thn, literal, way) || CanBlock(els, literal, way)
    case Loop(init, test, post, body) =>
      || (init != [] && way == Clean(KThrow))
      || CanLoop(test, post, body, literal, way)
    case TryCatch(_, _) => CanHandled(s, literal, way)
    case TryFinally(body, f) => exists a: Way :: CanBlock(body, true, a) && CanFinish(a, f, literal, way)
    case TryCatchFinally(_, _, f) => exists a: Way :: CanHandled(s, true, a) && CanFinish(a, f, literal, way)
  }

  // One thing after another: a store in either is a store on the way.
  ghost predicate CanAfter(stored: bool, b: Block, literal: bool, way: Way)
    decreases b, 1
  {
    exists st: bool :: CanBlock(b, literal, Way(way.kind, st, way.stale)) && way.stored == (stored || st)
  }

  // A try's literal and its catch, where the catch may be a literal too.
  ghost predicate CanHandled(s: Stmt, literal: bool, way: Way)
    requires s.TryCatch? || s.TryCatchFinally?
    decreases s, 0
  {
    || (way.kind != KThrow && CanBlock(s.body, true, way))
    || (exists st: bool :: CanBlock(s.body, true, Way(KThrow, st, false)) && CanAfter(st, s.handler.body, literal, way))
  }

  ghost predicate CanFinish(a: Way, f: Block, literal: bool, way: Way)
    decreases f, 1
  {
    exists st: bool ::
      && way.stored == (a.stored || st)
      && (|| (CanBlock(f, literal, Way(KNormal, st, false))
              && way.kind == a.kind && way.stale == (a.stale || (a.kind == KReturn && st)))
          || (way.kind != KNormal && CanBlock(f, literal, Way(way.kind, st, way.stale))))
  }

  // Turns of a loop that come round again having stored a return.
  ghost predicate CanComeRound(body: Block, literal: bool)
    decreases body, 1
  {
    CanBlock(body, literal, Way(KNormal, true, false)) || CanBlock(body, literal, Way(KContinue, true, false))
  }

  ghost predicate CanLoop(test: Test, post: seq<nat>, body: Block, literal: bool, way: Way)
    decreases body, 3
  {
    exists before: bool :: (before ==> CanComeRound(body, literal)) && CanTurn(before, test, post, body, literal, way)
  }

  // The turn in which the loop ends, with a store before it or not.
  ghost predicate CanTurn(before: bool, test: Test, post: seq<nat>, body: Block, literal: bool, way: Way)
    decreases body, 2
  {
    || (test.Ask? && (way == Way(KNormal, before, false) || way == Way(KThrow, before, false)))
    || (exists st: bool ::
          && way.stored == (before || st)
          && (|| (CanBlock(body, literal, Way(KBreak, st, false)) && way.kind == KNormal && !way.stale)
              || ((way.kind == KReturn || way.kind == KThrow) && CanBlock(body, literal, Way(way.kind, st, way.stale)))
              || (post != [] && way.kind == KThrow && !way.stale
                  && (CanBlock(body, literal, Way(KNormal, st, false)) || CanBlock(body, literal, Way(KContinue, st, false))))))
  }

  ghost predicate CanBlock(b: Block, literal: bool, way: Way)
    decreases b, 0
  {
    match b
    case Done => way == Clean(KNormal)
    case Then(s, rest) =>
      || (way.kind != KNormal && CanStmt(s, literal, way))
      || (exists st: bool :: CanStmt(s, literal, Way(KNormal, st, false)) && CanAfter(st, rest, literal, way))
  }

  /** The whole condition: no path overtakes a pending return, and none
      reaches an end TypeScript lets be reached only where undefined fits. */
  ghost predicate Faithful(ret: Returns, body: Block) {
    && (Carries(ret) ==> forall st: bool :: !CanBlock(body, false, Way(KReturn, st, true)))
    && (ret.PlainFn? ==> forall st: bool :: !CanBlock(body, false, Way(KNormal, st, false)))
  }

  // Every run goes by one of the ways.

  function KindOf(c: Completion): Kind
    requires !c.Crashed? && !c.Cut?
  {
    match c
    case Normal => KNormal
    case Broke => KBreak
    case Continued => KContinue
    case Returned(_) => KReturn
    case Threw(_) => KThrow
  }

  predicate Ends(c: Completion) { !c.Crashed? && !c.Cut? }

  // What a way says of a run from slot that ended as r.
  predicate Tells(m: Mode, way: Way, slot: Value, r: SlotRun) {
    Ends(r.c) ==>
      && way.kind == KindOf(r.c)
      && (m.owned && !way.stored ==> r.slot == slot)
      && (r.c.Returned? && !way.stale ==> (if m.literal then r.slot else r.got) == r.c.v)
      && (way.stale ==> r.c.Returned?)
  }

  // Returns in a literal have somewhere to be stored.
  predicate Stored(m: Mode, exits: set<int>) {
    m.carries && (m.literal && CODE_RETURN in exits ==> m.owned)
  }

  lemma {:induction false} SoundBlock(m: Mode, b: Block, w: World, slot: Value) returns (way: Way)
    requires Stored(m, Exits(b, false)) && Typed(b, true)
    ensures Tells(m, way, slot, SlotBlock(m, b, w, slot))
    ensures Ends(SlotBlock(m, b, w, slot).c) ==> CanBlock(b, m.literal, way)
    decreases |w.tape|, b, 0
  {
    way := Clean(KNormal);
    if b.Then? {
      var first := SlotStmt(m, b.head, w, slot);
      var a := SoundStmt(m, b.head, w, slot);
      if first.c.Normal? {
        var z := SoundBlock(m, b.tail, first.w, first.slot);
        way := Way(z.kind, a.stored || z.stored, z.stale);
        if Ends(SlotBlock(m, b, w, slot).c) {
          assert a == Way(KNormal, a.stored, false);
          assert z == Way(way.kind, z.stored, way.stale);
          assert CanAfter(a.stored, b.tail, m.literal, way);
        }
      } else {
        way := a;
      }
    }
  }

  lemma {:induction false} SoundStmt(m: Mode, s: Stmt, w: World, slot: Value) returns (way: Way)
    requires Stored(m, StmtExits(s, false)) && StmtTyped(s, true)
    ensures Tells(m, way, slot, SlotStmt(m, s, w, slot))
    ensures Ends(SlotStmt(m, s, w, slot).c) ==> CanStmt(s, m.literal, way)
    decreases |w.tape|, s, 2
  {
    match s
    case If(site, thn, els) =>
      way := Clean(KThrow);
      var reply := Evaluate(site, w);
      if reply.Got? {
        if Truthy(reply.v) {
          way := SoundBlock(m, thn, reply.w, slot);
        } else {
          way := SoundBlock(m, els, reply.w, slot);
        }
      }
    case Loop(init, test, post, body) =>
      way := Clean(KThrow);
      var first := EvaluateAll(init, w);
      if first.c.Normal? {
        ReturnsExitLoops(body);
        way := SoundLoop(m, test, post, body, first.w, slot, slot, false);
      }
    case TryCatch(_, _) => way := SoundTry(m, s, w, slot);
    case TryFinally(_, _) => way := SoundTry(m, s, w, slot);
    case TryCatchFinally(_, _, _) => way := SoundTry(m, s, w, slot);
    case _ => way := SoundSimple(m, s, w, slot);
  }

  lemma SoundSimple(m: Mode, s: Stmt, w: World, slot: Value) returns (way: Way)
    requires s.Eval? || s.Throw? || s.Return? || s.Break? || s.Continue?
    requires StmtTyped(s, true)
    ensures Tells(m, way, slot, SlotStmt(m, s, w, slot))
    ensures Ends(SlotStmt(m, s, w, slot).c) ==> CanStmt(s, m.literal, way)
  {
    var r := SlotStmt(m, s, w, slot);
    way := Clean(KNormal);
    if Ends(r.c) { way := Way(KindOf(r.c), r.c.Returned? && m.literal, false); }
  }

  // start is the slot as the loop was first entered, stored whether a turn since has stored a return.
  lemma {:induction false} SoundLoop(m: Mode, test: Test, post: seq<nat>, body: Block, w: World, slot: Value, start: Value, stored: bool)
    returns (way: Way)
    requires Stored(m, Exits(body, false)) && Typed(body, true)
    requires stored ==> CanComeRound(body, m.literal)
    requires m.owned && !stored ==> slot == start
    ensures Tells(m, way, start, SlotLoop(m, test, post, body, w, slot))
    ensures Ends(SlotLoop(m, test, post, body, w, slot).c) ==> CanLoop(test, post, body, m.literal, way)
    decreases |w.tape|, body, 2
  {
    var r := SlotLoop(m, test, post, body, w, slot);
    var reply := Check(test, w);
    if reply.Abrupt? || !Truthy(reply.v) {
      way := Way(if r.c.Normal? then KNormal else KThrow, stored, false);
      if Ends(r.c) { assert CanTurn(stored, test, post, body, m.literal, way); }
    } else {
      var a := SoundBlock(m, body, reply.w, slot);
      var turn := SlotBlock(m, body, reply.w, slot);
      var step := EvaluateAll(post, turn.w);
      if (turn.c.Normal? || turn.c.Continued?) && step.c.Normal? {
        way := SoundLoop(m, test, post, body, step.w, turn.slot, start, stored || a.stored);
        assert r == SlotNext(m, test, post, body, turn);
        assert r == SlotLoop(m, test, post, body, step.w, turn.slot);
      } else {
        way := SoundLastTurn(m, test, post, body, stored, start, a, turn);
        assert r == SlotNext(m, test, post, body, turn);
      }
    }
  }

  lemma SoundLastTurn(m: Mode, test: Test, post: seq<nat>, body: Block, stored: bool, start: Value, a: Way, turn: SlotRun)
    returns (way: Way)
    requires stored ==> CanComeRound(body, m.literal)
    requires Ends(turn.c) ==> CanBlock(body, m.literal, a)
    requires exists slot :: Tells(m, a, slot, turn) && (m.owned && !stored ==> slot == start)
    requires (turn.c.Normal? || turn.c.Continued?) ==> !EvaluateAll(post, turn.w).c.Normal?
    ensures Tells(m, way, start, SlotNext(m, test, post, body, turn))
    ensures Ends(SlotNext(m, test, post, body, turn).c) ==> CanLoop(test, post, body, m.literal, way)
  {
    var kind := if turn.c.Broke? then KNormal else if turn.c.Normal? || turn.c.Continued? then KThrow else a.kind;
    way := Way(kind, stored || a.stored, a.stale);
    if Ends(SlotNext(m, test, post, body, turn).c) {
      assert a == Way(a.kind, a.stored, a.stale);
      assert way.stored == (stored || a.stored);
      assert CanTurn(stored, test, post, body, m.literal, way);
    }
  }

  lemma {:induction false} SoundTry(m: Mode, s: Stmt, w: World, slot: Value) returns (way: Way)
    requires s.TryCatch? || s.TryFinally? || s.TryCatchFinally?
    requires Stored(m, StmtExits(s, false)) && StmtTyped(s, true)
    ensures Tells(m, way, slot, SlotStmt(m, s, w, slot))
    ensures Ends(SlotStmt(m, s, w, slot).c) ==> CanStmt(s, m.literal, way)
    decreases |w.tape|, s, 1
  {
    hide SlotBlock, CanBlock, Exits, Typed;
    var own := m.(owned := m.owned || Declares(m, s));
    var slot0 := if Declares(m, s) then Undefined else slot;
    var r := SlotHead(m, s, w, slot);
    var a := SoundBlock(Inside(own), s.body, w, slot0);
    SlotParts(m, s, w, slot);
    SlotBlockIsRun(Inside(own), s.body, w, slot0);
    LeavesByExits(s.body, w);
    way := a;
    if Ends(r.c) {
      match s
      case TryCatch(_, _) =>
        way := SoundHandled(own, own, s, a, slot0, r);
      case TryFinally(_, f) =>
        way := SoundFinish(own, f, a, slot0, r);
      case TryCatchFinally(_, h, f) =>
        var r2 := if r.c.Threw? then SlotHandler(Inside(own), h, r) else r;
        if r.c.Threw? {
          SlotBlockIsRun(Inside(own), h.body, Bind(h, r.c.v, r.w), r.slot);
          LeavesByExits(h.body, Bind(h, r.c.v, r.w));
        }
        var z := SoundHandled(own, Inside(own), s, a, slot0, r);
        way := z;
        if Ends(r2.c) { way := SoundFinish(own, f, z, slot0, r2); }
    }
  }

  // A try's literal and its catch, emitted in place (at == own) or as a literal too.
  lemma {:induction false} SoundHandled(own: Mode, at: Mode, s: Stmt, a: Way, slot: Value, r: SlotRun) returns (way: Way)
    requires s.TryCatch? || s.TryCatchFinally?
    requires at == own || at == Inside(own)
    requires Ends(r.c) && Tells(Inside(own), a, slot, r) && CanBlock(s.body, true, a)
    requires Stored(at, Exits(s.handler.body, false)) && Typed(s.handler.body, true)
    ensures var after := if r.c.Threw? then SlotHandler(at, s.handler, r) else if at == own then Settle(own, r) else r;
            && Tells(at, way, slot, after)
            && (Ends(after.c) ==> CanHandled(s, at.literal, way))
    decreases |r.w.tape|, s.handler, 1
  {
    var h := s.handler;
    way := a;
    if r.c.Threw? {
      var after := SlotHandler(at, h, r);
      var z := SoundBlock(at, h.body, Bind(h, r.c.v, r.w), r.slot);
      way := Way(z.kind, a.stored || z.stored, z.stale);
      if Ends(after.c) {
        assert a == Way(KThrow, a.stored, false);
        assert z == Way(way.kind, z.stored, way.stale);
        assert CanAfter(a.stored, h.body, at.literal, way);
      }
    }
  }

  lemma {:induction false} SoundFinish(own: Mode, f: Block, a: Way, slot: Value, r: SlotRun) returns (way: Way)
    requires Ends(r.c) && Tells(Inside(own), a, slot, r)
    requires r.c.Returned? ==> own.owned
    requires Stored(own, Exits(f, false)) && Typed(f, true)
    ensures Tells(own, way, slot, SlotFinalizer(own, f, r))
    ensures Ends(SlotFinalizer(own, f, r).c) ==> CanFinish(a, f, own.literal, way)
    decreases |r.w.tape|, f, 1
  {
    var z := SoundBlock(own, f, r.w, r.slot);
    var done := SlotBlock(own, f, r.w, r.slot);
    if done.c.Normal? {
      way := Way(a.kind, a.stored || z.stored, a.stale || (a.kind == KReturn && z.stored));
      assert z == Way(KNormal, z.stored, false);
    } else {
      way := Way(z.kind, a.stored || z.stored, z.stale);
      if Ends(done.c) { assert z == Way(way.kind, z.stored, way.stale); }
    }
  }

  // Every way is gone by some run.

  lemma {:induction false} CanFacts(b: Block, literal: bool, way: Way)
    requires CanBlock(b, literal, way)
    ensures way.kind == KReturn ==> CODE_RETURN in Exits(b, false)
    ensures way.kind == KReturn && literal ==> way.stored
    ensures way.stale ==> way.kind == KReturn
    decreases b, 0
  {
    if b.Then? {
      if way.kind != KNormal && CanStmt(b.head, literal, way) {
        CanStmtFacts(b.head, literal, way);
      } else {
        var st :| CanStmt(b.head, literal, Way(KNormal, st, false)) && CanAfter(st, b.tail, literal, way);
        var st2 :| CanBlock(b.tail, literal, Way(way.kind, st2, way.stale)) && way.stored == (st || st2);
        CanFacts(b.tail, literal, Way(way.kind, st2, way.stale));
      }
    }
  }

  lemma {:induction false} CanStmtFacts(s: Stmt, literal: bool, way: Way)
    requires CanStmt(s, literal, way)
    ensures way.kind == KReturn ==> CODE_RETURN in StmtExits(s, false)
    ensures way.kind == KReturn && literal ==> way.stored
    ensures way.stale ==> way.kind == KReturn
    decreases s, 1
  {
    match s
    case If(_, thn, els) =>
      if CanBlock(thn, literal, way) { CanFacts(thn, literal, way); }
      else if CanBlock(els, literal, way) { CanFacts(els, literal, way); }
    case Loop(init, test, post, body) =>
      if CanLoop(test, post, body, literal, way) { CanLoopFacts(test, post, body, literal, way); }
    case TryCatch(_, _) => CanHandledFacts(s, literal, way);
    case TryFinally(body, f) =>
      var a: Way :| CanBlock(body, true, a) && CanFinish(a, f, literal, way);
      CanFacts(body, true, a);
      CanFinishFacts(a, f, literal, way);
    case TryCatchFinally(_, _, f) =>
      var a: Way :| CanHandled(s, true, a) && CanFinish(a, f, literal, way);
      CanHandledFacts(s, true, a);
      CanFinishFacts(a, f, literal, way);
    case _ =>
  }

  lemma {:induction false} CanHandledFacts(s: Stmt, literal: bool, way: Way)
    requires s.TryCatch? || s.TryCatchFinally?
    requires CanHandled(s, literal, way)
    ensures way.kind == KReturn ==> CODE_RETURN in Exits(s.body, false) + Exits(s.handler.body, false)
    ensures way.kind == KReturn && literal ==> way.stored
    ensures way.stale ==> way.kind == KReturn
    decreases s, 0
  {
    if way.kind != KThrow && CanBlock(s.body, true, way) {
      CanFacts(s.body, true, way);
    } else {
      var st :| CanBlock(s.body, true, Way(KThrow, st, false)) && CanAfter(st, s.handler.body, literal, way);
      var st2 :| CanBlock(s.handler.body, literal, Way(way.kind, st2, way.stale)) && way.stored == (st || st2);
      CanFacts(s.handler.body, literal, Way(way.kind, st2, way.stale));
    }
  }

  lemma {:induction false} CanFinishFacts(a: Way, f: Block, literal: bool, way: Way)
    requires CanFinish(a, f, literal, way)
    requires a.kind == KReturn ==> a.stored
    requires a.stale ==> a.kind == KReturn
    ensures way.kind == KReturn ==> a.kind == KReturn || CODE_RETURN in Exits(f, false)
    ensures way.kind == KReturn && literal ==> way.stored
    ensures way.stale ==> way.kind == KReturn
    decreases f, 1
  {
    var st :|
      && way.stored == (a.stored || st)
      && (|| (CanBlock(f, literal, Way(KNormal, st, false))
              && way.kind == a.kind && way.stale == (a.stale || (a.kind == KReturn && st)))
          || (way.kind != KNormal && CanBlock(f, literal, Way(way.kind, st, way.stale))));
    if way.kind != KNormal && CanBlock(f, literal, Way(way.kind, st, way.stale)) {
      CanFacts(f, literal, Way(way.kind, st, way.stale));
    }
  }

  lemma {:induction false} CanLoopFacts(test: Test, post: seq<nat>, body: Block, literal: bool, way: Way)
    requires CanLoop(test, post, body, literal, way)
    ensures way.kind == KReturn ==> CODE_RETURN in Exits(body, true)
    ensures way.kind == KReturn && literal ==> way.stored
    ensures way.stale ==> way.kind == KReturn
    decreases body, 3
  {
    ReturnsExitLoops(body);
    if way.kind == KReturn || way.stale {
      var before :| (before ==> CanComeRound(body, literal)) && CanTurn(before, test, post, body, literal, way);
      var st: bool :| way.stored == (before || st) && CanBlock(body, literal, Way(way.kind, st, way.stale));
      CanFacts(body, literal, Way(way.kind, st, way.stale));
    }
  }

  // What is claimed of a run chosen to go by way, returning v and leaving x in
  // the slot: from a slot sl, it leaves rest of its tape.
  predicate Goes(m: Mode, way: Way, v: Value, x: Value, rest: seq<Answer>, sl: Value, r: SlotRun) {
    && r.w.tape == rest
    && Ends(r.c) && KindOf(r.c) == way.kind
    && (r.c.Returned? ==> r.c.v == v)
    && (m.owned && (way.kind != KReturn || m.literal) ==> r.slot == if way.stored then x else sl)
    && (r.c.Returned? && !m.literal ==> r.got == if way.stale then x else v)
  }

  predicate Choosable(m: Mode, way: Way, v: Value, x: Value) {
    way.kind == KReturn && m.literal && !way.stale ==> x == v
  }

  lemma Take(a: Answer, rest: seq<Answer>)
    ensures ([a] + rest)[1..] == rest && ([a] + rest)[0] == a && [a] + rest != []
  {
  }

  lemma {:induction false} AllGive(sites: seq<nat>, rest: seq<Answer>) returns (tape: seq<Answer>)
    ensures forall tr :: EvaluateAll(sites, World(tape, tr)).c.Normal? && EvaluateAll(sites, World(tape, tr)).w.tape == rest
    decreases |sites|
  {
    if sites == [] {
      tape := rest;
    } else {
      var others := AllGive(sites[1..], rest);
      tape := [Gives(Undefined)] + others;
      Take(Gives(Undefined), others);
    }
  }

  lemma {:induction false} RealizeBlock(m: Mode, b: Block, way: Way, v: Value, x: Value, rest: seq<Answer>) returns (tape: seq<Answer>)
    requires CanBlock(b, m.literal, way) && Choosable(m, way, v, x)
    requires Stored(m, Exits(b, false)) && Typed(b, true)
    ensures forall tr, sl :: Goes(m, way, v, x, rest, sl, SlotBlock(m, b, World(tape, tr), sl))
    decreases b, 0
  {
    hide SlotStmt, CanStmt;
    if b.Done? {
      tape := rest;
    } else if way.kind != KNormal && CanStmt(b.head, m.literal, way) {
      tape := RealizeStmt(m, b.head, way, v, x, rest);
    } else {
      var st :| CanStmt(b.head, m.literal, Way(KNormal, st, false)) && CanAfter(st, b.tail, m.literal, way);
      var st2 :| CanBlock(b.tail, m.literal, Way(way.kind, st2, way.stale)) && way.stored == (st || st2);
      CanFacts(b.tail, m.literal, Way(way.kind, st2, way.stale));
      var after := RealizeBlock(m, b.tail, Way(way.kind, st2, way.stale), v, x, rest);
      tape := RealizeStmt(m, b.head, Way(KNormal, st, false), v, x, after);
      forall tr, sl
        ensures Goes(m, way, v, x, rest, sl, SlotBlock(m, b, World(tape, tr), sl))
      {
        var first := SlotStmt(m, b.head, World(tape, tr), sl);
        assert Goes(m, Way(KNormal, st, false), v, x, after, sl, first);
        assert first.w == World(after, first.w.trace);
        assert Goes(m, Way(way.kind, st2, way.stale), v, x, rest, first.slot, SlotBlock(m, b.tail, World(after, first.w.trace), first.slot));
      }
    }
  }

  lemma {:induction false} RealizeStmt(m: Mode, s: Stmt, way: Way, v: Value, x: Value, rest: seq<Answer>) returns (tape: seq<Answer>)
    requires CanStmt(s, m.literal, way) && Choosable(m, way, v, x)
    requires Stored(m, StmtExits(s, false)) && StmtTyped(s, true)
    ensures forall tr, sl :: Goes(m, way, v, x, rest, sl, SlotStmt(m, s, World(tape, tr), sl))
    decreases s, 3
  {
    match s
    case If(_, _, _) => tape := RealizeIf(m, s, way, v, x, rest);
    case Loop(init, test, post, body) =>
      if init != [] && way == Clean(KThrow) {
        tape := [Throws(Undefined)] + rest;
        Take(Throws(Undefined), rest);
      } else {
        ReturnsExitLoops(body);
        var turns := RealizeLoop(m, test, post, body, way, v, x, rest);
        tape := AllGive(init, turns);
        forall tr, sl
          ensures Goes(m, way, v, x, rest, sl, SlotStmt(m, s, World(tape, tr), sl))
        {
          var first := EvaluateAll(init, World(tape, tr));
          assert first.w == World(turns, first.w.trace);
        }
      }
    case TryCatch(_, _) => tape := RealizeCatch(m, s, way, v, x, rest);
    case TryFinally(_, _) => tape := RealizeFinally(m, s, way, v, x, rest);
    case TryCatchFinally(_, _, _) => tape := RealizeFinally(m, s, way, v, x, rest);
    case _ => tape := RealizeSimple(m, s, way, v, x, rest);
  }

  lemma RealizeSimple(m: Mode, s: Stmt, way: Way, v: Value, x: Value, rest: seq<Answer>) returns (tape: seq<Answer>)
    requires s.Eval? || s.Throw? || s.Return? || s.Break? || s.Continue?
    requires CanStmt(s, m.literal, way) && Choosable(m, way, v, x) && StmtTyped(s, true)
    ensures forall tr, sl :: Goes(m, way, v, x, rest, sl, SlotStmt(m, s, World(tape, tr), sl))
  {
    if s.Break? || s.Continue? {
      tape := rest;
    } else {
      var a := if way.kind == KThrow && !s.Throw? then Throws(Undefined) else Gives(v);
      tape := [a] + rest;
      Take(a, rest);
    }
  }

  lemma {:induction false} RealizeIf(m: Mode, s: Stmt, way: Way, v: Value, x: Value, rest: seq<Answer>) returns (tape: seq<Answer>)
    requires s.If?
    requires CanStmt(s, m.literal, way) && Choosable(m, way, v, x)
    requires Stored(m, StmtExits(s, false)) && StmtTyped(s, true)
    ensures forall tr, sl :: Goes(m, way, v, x, rest, sl, SlotStmt(m, s, World(tape, tr), sl))
    decreases s, 1
  {
    if way == Clean(KThrow) {
      tape := [Throws(Undefined)] + rest;
      Take(Throws(Undefined), rest);
    } else if CanBlock(s.thn, m.literal, way) {
      var branch := RealizeBlock(m, s.thn, way, v, x, rest);
      tape := [Gives(Data(1))] + branch;
      Take(Gives(Data(1)), branch);
    } else {
      var branch := RealizeBlock(m, s.els, way, v, x, rest);
      tape := [Gives(Data(0))] + branch;
      Take(Gives(Data(0)), branch);
    }
  }

  lemma {:induction false} RealizeLoop(m: Mode, test: Test, post: seq<nat>, body: Block, way: Way, v: Value, x: Value, rest: seq<Answer>)
    returns (tape: seq<Answer>)
    requires CanLoop(test, post, body, m.literal, way) && Choosable(m, way, v, x)
    requires Stored(m, Exits(body, false)) && Typed(body, true)
    ensures forall tr, sl :: Goes(m, way, v, x, rest, sl, SlotLoop(m, test, post, body, World(tape, tr), sl))
    decreases body, 3
  {
    var before :| (before ==> CanComeRound(body, m.literal)) && CanTurn(before, test, post, body, m.literal, way);
    var st, last := RealizeTurn(m, before, test, post, body, way, v, x, rest);
    if !before {
      tape := last;
    } else {
      var round := if CanBlock(body, m.literal, Way(KNormal, true, false)) then Way(KNormal, true, false) else Way(KContinue, true, false);
      var again := AllGive(post, last);
      var turn := RealizeBlock(m, body, round, v, x, again);
      tape := [Gives(Data(1))] + turn;
      Take(Gives(Data(1)), turn);
      forall tr, sl
        ensures Goes(m, way, v, x, rest, sl, SlotLoop(m, test, post, body, World(tape, tr), sl))
      {
        LoopAgain(m, test, post, body, World(tape, tr), sl, round, v, x, turn, again, last);
      }
    }
  }

  // A turn that comes round: the loop goes on from what it left.
  lemma LoopAgain(m: Mode, test: Test, post: seq<nat>, body: Block, w: World, sl: Value,
                  round: Way, v: Value, x: Value, turn: seq<Answer>, again: seq<Answer>, last: seq<Answer>)
    requires w.tape != [] && w.tape[1..] == turn && w.tape[0] == Gives(Data(1))
    requires round.kind == KNormal || round.kind == KContinue
    requires forall tr :: Goes(m, round, v, x, again, sl, SlotBlock(m, body, World(turn, tr), sl))
    requires forall tr :: EvaluateAll(post, World(again, tr)).c.Normal? && EvaluateAll(post, World(again, tr)).w.tape == last
    ensures exists tr, next ::
              && SlotLoop(m, test, post, body, w, sl) == SlotLoop(m, test, post, body, World(last, tr), next)
              && (m.owned ==> next == if round.stored then x else sl)
  {
    var reply := Check(test, w);
    assert reply.Got? && Truthy(reply.v) && reply.w == World(turn, reply.w.trace);
    var r := SlotBlock(m, body, World(turn, reply.w.trace), sl);
    assert Goes(m, round, v, x, again, sl, r);
    assert r.w == World(again, r.w.trace);
    var step := EvaluateAll(post, r.w);
    assert step.w == World(last, step.w.trace);
    assert SlotLoop(m, test, post, body, w, sl) == SlotNext(m, test, post, body, r);
    assert SlotNext(m, test, post, body, r) == SlotLoop(m, test, post, body, World(last, step.w.trace), r.slot);
  }

  // The loop's last turn, which stores st.
  lemma {:induction false} RealizeTurn(m: Mode, before: bool, test: Test, post: seq<nat>, body: Block, way: Way, v: Value, x: Value, rest: seq<Answer>)
    returns (st: bool, tape: seq<Answer>)
    requires CanTurn(before, test, post, body, m.literal, way) && Choosable(m, way, v, x)
    requires Stored(m, Exits(body, false)) && Typed(body, true)
    ensures way.stored == (before || st)
    ensures forall tr, sl :: Goes(m, Way(way.kind, st, way.stale), v, x, rest, sl, SlotLoop(m, test, post, body, World(tape, tr), sl))
    decreases body, 2
  {
    if test.Ask? && (way == Way(KNormal, before, false) || way == Way(KThrow, before, false)) {
      st := false;
      var a := if way.kind == KNormal then Gives(Data(0)) else Throws(Undefined);
      tape := [a] + rest;
      Take(a, rest);
    } else {
      st :|
        && way.stored == (before || st)
        && (|| (CanBlock(body, m.literal, Way(KBreak, st, false)) && way.kind == KNormal && !way.stale)
            || ((way.kind == KReturn || way.kind == KThrow) && CanBlock(body, m.literal, Way(way.kind, st, way.stale)))
            || (post != [] && way.kind == KThrow && !way.stale
                && (CanBlock(body, m.literal, Way(KNormal, st, false)) || CanBlock(body, m.literal, Way(KContinue, st, false)))));
      var inner, ending := Way(way.kind, st, way.stale), rest;
      if way.kind == KNormal {
        inner := Way(KBreak, st, false);
      } else if !CanBlock(body, m.literal, inner) {
        inner := if CanBlock(body, m.literal, Way(KNormal, st, false)) then Way(KNormal, st, false) else Way(KContinue, st, false);
        ending := [Throws(Undefined)] + rest;
        Take(Throws(Undefined), rest);
      }
      var turn := RealizeBlock(m, body, inner, v, x, ending);
      tape := [Gives(Data(1))] + turn;
      Take(Gives(Data(1)), turn);
      forall tr, sl
        ensures Goes(m, Way(way.kind, st, way.stale), v, x, rest, sl, SlotLoop(m, test, post, body, World(tape, tr), sl))
      {
        LoopEnds(m, test, post, body, World(tape, tr), sl, inner, Way(way.kind, st, way.stale), v, x, turn, ending, rest);
      }
    }
  }

  lemma LoopEnds(m: Mode, test: Test, post: seq<nat>, body: Block, w: World, sl: Value,
                 inner: Way, way: Way, v: Value, x: Value, turn: seq<Answer>, ending: seq<Answer>, rest: seq<Answer>)
    requires w.tape != [] && w.tape[1..] == turn && w.tape[0] == Gives(Data(1))
    requires forall tr :: Goes(m, inner, v, x, ending, sl, SlotBlock(m, body, World(turn, tr), sl))
    requires inner.stored == way.stored
    requires || (inner.kind == KBreak && way.kind == KNormal && ending == rest)
             || (inner == way && (way.kind == KReturn || way.kind == KThrow) && ending == rest)
             || ((inner.kind == KNormal || inner.kind == KContinue) && way.kind == KThrow && post != []
                 && ending == [Throws(Undefined)] + rest)
    ensures Goes(m, way, v, x, rest, sl, SlotLoop(m, test, post, body, w, sl))
  {
    var reply := Check(test, w);
    assert reply.Got? && Truthy(reply.v) && reply.w == World(turn, reply.w.trace);
    var r := SlotBlock(m, body, World(turn, reply.w.trace), sl);
    assert Goes(m, inner, v, x, ending, sl, r);
    assert SlotLoop(m, test, post, body, w, sl) == SlotNext(m, test, post, body, r);
    if inner.kind == KNormal || inner.kind == KContinue {
      Take(Throws(Undefined), rest);
      assert EvaluateAll(post, r.w).w.tape == rest;
    }
  }

  // A try's literal and its catch.
  function SlotHandled(own: Mode, at: Mode, s: Stmt, w: World, sl: Value): SlotRun
    requires s.TryCatch? || s.TryCatchFinally?
  {
    var r := SlotBlock(Inside(own), s.body, w, sl);
    if r.c.Threw? then SlotHandler(at, s.handler, r) else if at == own then Settle(own, r) else r
  }

  predicate Owned(own: Mode, s: Stmt)
    requires s.TryCatch? || s.TryFinally? || s.TryCatchFinally?
  {
    own.carries && (CODE_RETURN in LiteralCodes(s) ==> own.owned)
  }

  lemma {:induction false} RealizeHandled(own: Mode, at: Mode, s: Stmt, way: Way, v: Value, x: Value, rest: seq<Answer>)
    returns (tape: seq<Answer>)
    requires s.TryCatch? || s.TryCatchFinally?
    requires at == own || at == Inside(own)
    requires CanHandled(s, at.literal, way) && Choosable(at, way, v, x)
    requires Owned(own, s) && Stored(at, Exits(s.handler.body, false)) && StmtTyped(s, true)
    ensures forall tr, sl :: Goes(at, way, v, x, rest, sl, SlotHandled(own, at, s, World(tape, tr), sl))
    decreases s, 1
  {
    if way.kind != KThrow && CanBlock(s.body, true, way) {
      CanFacts(s.body, true, way);
      var x' := if way.kind == KReturn && !way.stale then v else x;
      tape := RealizeBlock(Inside(own), s.body, way, v, x', rest);
      forall tr, sl
        ensures Goes(at, way, v, x, rest, sl, SlotHandled(own, at, s, World(tape, tr), sl))
      {
        var r := SlotBlock(Inside(own), s.body, World(tape, tr), sl);
        assert Goes(Inside(own), way, v, x', rest, sl, r);
        PassedBy(own, at, s, way, v, x, x', rest, sl, World(tape, tr), r);
      }
    } else {
      var st :| CanBlock(s.body, true, Way(KThrow, st, false)) && CanAfter(st, s.handler.body, at.literal, way);
      tape := RealizeThrow(own, at, s, st, way, v, x, rest);
    }
  }

  // A throw from the literal, and a way out of the catch.
  lemma {:induction false} RealizeThrow(own: Mode, at: Mode, s: Stmt, st: bool, way: Way, v: Value, x: Value, rest: seq<Answer>)
    returns (tape: seq<Answer>)
    requires s.TryCatch? || s.TryCatchFinally?
    requires at == own || at == Inside(own)
    requires CanBlock(s.body, true, Way(KThrow, st, false)) && CanAfter(st, s.handler.body, at.literal, way)
    requires Choosable(at, way, v, x)
    requires Owned(own, s) && Stored(at, Exits(s.handler.body, false)) && StmtTyped(s, true)
    ensures forall tr, sl :: Goes(at, way, v, x, rest, sl, SlotHandled(own, at, s, World(tape, tr), sl))
    decreases s, 0
  {
    hide SlotBlock, CanBlock;
    var h := s.handler.body;
    var st2 :| CanBlock(h, at.literal, Way(way.kind, st2, way.stale)) && way.stored == (st || st2);
    var inner := Way(way.kind, st2, way.stale);
    CanFacts(h, at.literal, inner);
    var after := RealizeBlock(at, h, inner, v, x, rest);
    tape := RealizeBlock(Inside(own), s.body, Way(KThrow, st, false), v, x, after);
    forall tr, sl
      ensures Goes(at, way, v, x, rest, sl, SlotHandled(own, at, s, World(tape, tr), sl))
    {
      var r := SlotBlock(Inside(own), s.body, World(tape, tr), sl);
      assert Goes(Inside(own), Way(KThrow, st, false), v, x, after, sl, r);
      var w := Bind(s.handler, r.c.v, r.w);
      assert w == World(after, w.trace);
      var end := SlotBlock(at, h, World(after, w.trace), r.slot);
      assert Goes(at, inner, v, x, rest, r.slot, end);
      CaughtAndGone(own, at, way, inner, st, v, x, rest, sl, r, after, end);
      assert SlotHandled(own, at, s, World(tape, tr), sl) == end;
    }
  }

  // A completion the catch has no part in.
  lemma PassedBy(own: Mode, at: Mode, s: Stmt, way: Way, v: Value, x: Value, x': Value, rest: seq<Answer>, sl: Value, w: World, r: SlotRun)
    requires s.TryCatch? || s.TryCatchFinally?
    requires at == own || at == Inside(own)
    requires r == SlotBlock(Inside(own), s.body, w, sl) && way.kind != KThrow
    requires Goes(Inside(own), way, v, x', rest, sl, r) && Choosable(at, way, v, x)
    requires x' == if way.kind == KReturn && !way.stale then v else x
    requires way.kind == KReturn ==> way.stored && own.owned && own.carries
    ensures Goes(at, way, v, x, rest, sl, SlotHandled(own, at, s, w, sl))
  {
  }

  // A throw, and the catch that follows it.
  lemma CaughtAndGone(own: Mode, at: Mode, way: Way, inner: Way, st: bool, v: Value, x: Value, rest: seq<Answer>, sl: Value,
                      r: SlotRun, after: seq<Answer>, end: SlotRun)
    requires at == own || at == Inside(own)
    requires Goes(Inside(own), Way(KThrow, st, false), v, x, after, sl, r)
    requires Goes(at, inner, v, x, rest, r.slot, end)
    requires inner.kind == way.kind && inner.stale == way.stale && way.stored == (st || inner.stored)
    ensures Goes(at, way, v, x, rest, sl, end)
  {
  }

  // The values the pending completion must have for the finally to leave v and x.
  lemma {:induction false} RealizeFinish(own: Mode, f: Block, a: Way, way: Way, v: Value, x: Value, rest: seq<Answer>)
    returns (tape: seq<Answer>, av: Value, ax: Value)
    requires CanFinish(a, f, own.literal, way) && Choosable(own, way, v, x)
    requires a.kind == KReturn ==> own.owned && a.stored
    requires a.stale ==> a.kind == KReturn
    requires Stored(own, Exits(f, false)) && Typed(f, true)
    ensures Choosable(Inside(own), a, av, ax)
    ensures forall r, sl :: Goes(Inside(own), a, av, ax, tape, sl, r) ==> Goes(own, way, v, x, rest, sl, SlotFinalizer(own, f, r))
    decreases f, 1
  {
    var st :|
      && way.stored == (a.stored || st)
      && (|| (CanBlock(f, own.literal, Way(KNormal, st, false))
              && way.kind == a.kind && way.stale == (a.stale || (a.kind == KReturn && st)))
          || (way.kind != KNormal && CanBlock(f, own.literal, Way(way.kind, st, way.stale))));
    var falls := CanBlock(f, own.literal, Way(KNormal, st, false))
              && way.kind == a.kind && way.stale == (a.stale || (a.kind == KReturn && st));
    var inner := if falls then Way(KNormal, st, false) else Way(way.kind, st, way.stale);
    CanFacts(f, own.literal, inner);
    av := if falls then v else x;
    ax := if falls && a.kind == KReturn && !a.stale then v else x;
    tape := RealizeBlock(own, f, inner, v, x, rest);
    forall r, sl | Goes(Inside(own), a, av, ax, tape, sl, r)
      ensures Goes(own, way, v, x, rest, sl, SlotFinalizer(own, f, r))
    {
      assert r.w == World(tape, r.w.trace);
      var end := SlotBlock(own, f, World(tape, r.w.trace), r.slot);
      assert Goes(own, inner, v, x, rest, r.slot, end);
      FinalizedAndGone(own, f, falls, st, a, way, inner, v, x, av, ax, tape, rest, sl, r, end);
    }
  }

  // A pending completion, and the finally that lets it go on or replaces it.
  lemma FinalizedAndGone(own: Mode, f: Block, falls: bool, st: bool, a: Way, way: Way, inner: Way, v: Value, x: Value, av: Value, ax: Value,
                         tape: seq<Answer>, rest: seq<Answer>, sl: Value, r: SlotRun, end: SlotRun)
    requires own.carries && Choosable(own, way, v, x)
    requires a.kind == KReturn ==> own.owned && a.stored
    requires a.stale ==> a.kind == KReturn
    requires way.stored == (a.stored || st)
    requires falls ==> way.kind == a.kind && way.stale == (a.stale || (a.kind == KReturn && st)) && inner == Way(KNormal, st, false)
    requires !falls ==> way.kind != KNormal && inner == Way(way.kind, st, way.stale)
    requires av == (if falls then v else x) && ax == (if falls && a.kind == KReturn && !a.stale then v else x)
    requires Goes(Inside(own), a, av, ax, tape, sl, r)
    requires end == SlotBlock(own, f, r.w, r.slot) && Goes(own, inner, v, x, rest, r.slot, end)
    ensures Goes(own, way, v, x, rest, sl, SlotFinalizer(own, f, r))
  {
  }

  lemma {:induction false} RealizeCatch(m: Mode, s: Stmt, way: Way, v: Value, x: Value, rest: seq<Answer>) returns (tape: seq<Answer>)
    requires s.TryCatch?
    requires CanStmt(s, m.literal, way) && Choosable(m, way, v, x)
    requires Stored(m, StmtExits(s, false)) && StmtTyped(s, true)
    ensures forall tr, sl :: Goes(m, way, v, x, rest, sl, SlotStmt(m, s, World(tape, tr), sl))
    decreases s, 2
  {
    var own := m.(owned := m.owned || Declares(m, s));
    tape := RealizeHandled(own, own, s, way, v, x, rest);
    forall tr, sl
      ensures Goes(m, way, v, x, rest, sl, SlotStmt(m, s, World(tape, tr), sl))
    {
      var sl0 := if Declares(m, s) then Undefined else sl;
      assert Goes(own, way, v, x, rest, sl0, SlotHandled(own, own, s, World(tape, tr), sl0));
      assert SlotStmt(m, s, World(tape, tr), sl) == SlotHandled(own, own, s, World(tape, tr), sl0);
    }
  }

  lemma {:induction false} RealizeFinally(m: Mode, s: Stmt, way: Way, v: Value, x: Value, rest: seq<Answer>) returns (tape: seq<Answer>)
    requires s.TryFinally? || s.TryCatchFinally?
    requires CanStmt(s, m.literal, way) && Choosable(m, way, v, x)
    requires Stored(m, StmtExits(s, false)) && StmtTyped(s, true)
    ensures forall tr, sl :: Goes(m, way, v, x, rest, sl, SlotStmt(m, s, World(tape, tr), sl))
    decreases s, 2
  {
    var own := m.(owned := m.owned || Declares(m, s));
    var a: Way :| (if s.TryFinally? then CanBlock(s.body, true, a) else CanHandled(s, true, a))
                  && CanFinish(a, s.finalizer, own.literal, way);
    if s.TryFinally? { CanFacts(s.body, true, a); } else { CanHandledFacts(s, true, a); }
    var after, av, ax := RealizeFinish(own, s.finalizer, a, way, v, x, rest);
    if s.TryFinally? {
      tape := RealizeBlock(Inside(own), s.body, a, av, ax, after);
    } else {
      tape := RealizeHandled(own, Inside(own), s, a, av, ax, after);
    }
    forall tr, sl
      ensures Goes(m, way, v, x, rest, sl, SlotStmt(m, s, World(tape, tr), sl))
    {
      var sl0 := if Declares(m, s) then Undefined else sl;
      var r := if s.TryFinally? then SlotBlock(Inside(own), s.body, World(tape, tr), sl0)
               else SlotHandled(own, Inside(own), s, World(tape, tr), sl0);
      assert Goes(Inside(own), a, av, ax, after, sl0, r);
      assert Goes(own, way, v, x, rest, sl0, SlotFinalizer(own, s.finalizer, r));
      FinalizedParts(m, s, World(tape, tr), sl);
    }
  }

  lemma FinalizedParts(m: Mode, s: Stmt, w: World, sl: Value)
    requires s.TryFinally? || s.TryCatchFinally?
    ensures var own := m.(owned := m.owned || Declares(m, s));
            var sl0 := if Declares(m, s) then Undefined else sl;
            var r := if s.TryFinally? then SlotBlock(Inside(own), s.body, w, sl0) else SlotHandled(own, Inside(own), s, w, sl0);
            SlotStmt(m, s, w, sl) == SlotFinalizer(own, s.finalizer, r)
  {
  }
}
