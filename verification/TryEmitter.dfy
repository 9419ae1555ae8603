/**
  The emitter itself (backend/emit_try.go, backend/emit.go): it writes lines
  to a buffer as it walks the statements, pushing and popping its own state,
  and writes exactly the text of TryEmit's translation.
*/
module TryEmitter {
  import opened Options
  import opened TryLanguage
  import opened TryTarget
  import opened TryEmit
  import opened TryCorrect
  import opened TryExact
  import opened TryLines
  import opened TryText

  // A statement writes something, so an else with statements has lines.
  lemma {:induction false} StmtIsWritten(c: Ctx, s: Stmt, tries: nat)
    ensures !EmitStmt(c, s, tries).code.GoDone?
  {
  }

  lemma {:induction false} BlockIsWritten(c: Ctx, b: Block, tries: nat)
    ensures EmitBlock(c, b, tries).code.GoDone? <==> b.Done?
  {
    if b.Then? { StmtIsWritten(c, b.head, tries); }
  }

  lemma WriteTail(c: Ctx, b: Block, tries: nat, buf: seq<Line>)
    requires b.Then?
    ensures var first := EmitStmt(c, b.head, tries);
            var rest := EmitBlock(c, b.tail, first.tries);
            && EmitBlock(c, b, tries).tries == rest.tries
            && Write(EmitBlock(c, b, tries).code, buf) == Write(rest.code, Write(first.code, buf))
  {
    var first := EmitStmt(c, b.head, tries);
    WriteAppend(first.code, EmitBlock(c, b.tail, first.tries).code, buf);
  }

  class Emitter {
    var buf: seq<Line>
    var frames: seq<nat>
    var loops: nat
    var ret: Returns
    var retVar: Option<nat>
    var tries: nat

    constructor ()
      ensures buf == [] && tries == 0 && Context() == Start(VoidFn)
    {
      buf, frames, loops, ret, retVar, tries := [], [], 0, VoidFn, None, 0;
    }

    function Context(): Ctx
      reads this
    {
      Ctx(frames, loops, ret, retVar)
    }

    // stmts
    method Stmts(b: Block)
      modifies this
      ensures Context() == old(Context())
      ensures tries == EmitBlock(old(Context()), b, old(tries)).tries
      ensures buf == Write(EmitBlock(old(Context()), b, old(tries)).code, old(buf))
      ensures Wrote(old(buf), EmitBlock(old(Context()), b, old(tries)).code, buf)
      decreases b, 3
    {
      var rest := b;
      while rest.Then?
        invariant Context() == old(Context())
        invariant rest == b || rest < b
        invariant EmitBlock(old(Context()), b, old(tries)).tries == EmitBlock(Context(), rest, tries).tries
        invariant Write(EmitBlock(old(Context()), b, old(tries)).code, old(buf)) == Write(EmitBlock(Context(), rest, tries).code, buf)
        decreases rest
      {
        WriteTail(Context(), rest, tries, buf);
        Stmt(rest.head);
        rest := rest.tail;
      }
      WroteWritten(EmitBlock(old(Context()), b, old(tries)).code, old(buf));
    }

    // stmt
    method Stmt(s: Stmt)
      modifies this
      ensures Context() == old(Context())
      ensures tries == EmitStmt(old(Context()), s, old(tries)).tries
      ensures buf == Write(EmitStmt(old(Context()), s, old(tries)).code, old(buf))
      ensures Wrote(old(buf), EmitStmt(old(Context()), s, old(tries)).code, buf)
      decreases s, 2
    {
      WroteWritten(EmitStmt(Context(), s, tries).code, buf);
      var left := Leaves(s);
      if left { return; }
      if s.If? {
        IfStmt(s);
      } else if s.Loop? {
        LoopStmt(s);
      } else if s.TryCatch? || s.TryFinally? || s.TryCatchFinally? {
        TryStmt(s);
      } else {
        Simple(s);
      }
    }

    method Simple(s: Stmt)
      requires s.Eval? || s.Throw? || s.Return? || s.Break? || s.Continue?
      requires frames != [] ==> !s.Return? && ((s.Break? || s.Continue?) ==> !Outside(Context()))
      modifies this`buf
      ensures buf == Write(EmitStmt(Context(), s, tries).code, old(buf))
    {
      ghost var was := buf;
      match s {
        case Eval(site) => buf := buf + [EvalLine(site)]; WriteOne(GoEval(site), was);
        case Throw(site) => buf := buf + [ThrowLine(site)]; WriteOne(GoThrow(site), was);
        case Return(None) =>
          var e := if ret.AsyncVoidFn? then Struct else Nothing;
          buf := buf + [ReturnLine(e)];
          WriteOne(GoReturn(e), was);
        case Return(Some(site)) => buf := buf + [ReturnLine(Fresh(site))]; WriteOne(GoReturn(Fresh(site)), was);
        case Break => buf := buf + [BreakLine]; WriteOne(GoBreak, was);
        case Continue => buf := buf + [ContinueLine]; WriteOne(GoContinue, was);
      }
    }

    method LoopStmt(s: Stmt)
      requires s.Loop?
      modifies this
      ensures Context() == old(Context())
      ensures tries == EmitStmt(old(Context()), s, old(tries)).tries
      ensures buf == Write(EmitStmt(old(Context()), s, old(tries)).code, old(buf))
      decreases s, 1
    {
      ghost var turn := EmitBlock(Looping(Context()), s.body, tries).code;
      loops := loops + 1;
      buf := buf + [ForLine(s.init, s.test, s.post)];
      Stmts(s.body);
      buf := buf + [CloseLine];
      loops := loops - 1;
      WriteOne(GoFor(s.init, s.test, s.post, turn), old(buf));
    }

    method IfStmt(s: Stmt)
      requires s.If?
      modifies this
      ensures Context() == old(Context())
      ensures tries == EmitStmt(old(Context()), s, old(tries)).tries
      ensures buf == Write(EmitStmt(old(Context()), s, old(tries)).code, old(buf))
      decreases s, 1
    {
      ghost var a := EmitBlock(Context(), s.thn, tries);
      ghost var b := EmitBlock(Context(), s.els, a.tries);
      buf := buf + [IfLine(s.site)];
      Stmts(s.thn);
      if s.els != Done {
        buf := buf + [ElseLine];
        Stmts(s.els);
      }
      buf := buf + [CloseLine];
      BlockIsWritten(old(Context()), s.els, a.tries);
      WriteOne(GoIf(s.site, a.code, b.code), old(buf));
    }

    // leaves: s as a way out of the literal being emitted, if it is one.
    method Leaves(s: Stmt) returns (left: bool)
      modifies this`buf
      ensures left == (frames != [] && (s.Return? || ((s.Break? || s.Continue?) && Outside(Context()))))
      ensures buf == if left then Write(EmitStmt(Context(), s, tries).code, old(buf)) else old(buf)
    {
      if frames == [] { return false; }
      var outside := loops == frames[|frames| - 1];
      match s {
        case Return(value) =>
          if value.Some? && retVar.None? {
            buf := buf + [LostLine];
          } else if value.Some? {
            buf := buf + [StoreLine(retVar.value, value.value)];
          }
          WriteOne(GoReturn(Code(CODE_RETURN)), buf);
          buf := buf + [ReturnLine(Code(CODE_RETURN))];
        case Break =>
          if !outside { return false; }
          WriteOne(GoReturn(Code(CODE_BREAK)), buf);
          buf := buf + [ReturnLine(Code(CODE_BREAK))];
        case Continue =>
          if !outside { return false; }
          WriteOne(GoReturn(Code(CODE_CONTINUE)), buf);
          buf := buf + [ReturnLine(Code(CODE_CONTINUE))];
        case _ => return false;
      }
      return true;
    }

    // leave: acting on a code in the try's own place.
    method Leave(code: int)
      requires code in {CODE_RETURN, CODE_BREAK, CODE_CONTINUE}
      requires code == CODE_RETURN && frames == [] && Carries(ret) ==> retVar.Some?
      modifies this`buf
      ensures buf == Write(EmitLeave(Context(), code), old(buf))
    {
      if code == CODE_RETURN {
        var e := if frames != [] then Code(CODE_RETURN)
                 else if Carries(ret) then Slot(retVar.value)
                 else if ret.AsyncVoidFn? then Struct
                 else Nothing;
        WriteOne(GoReturn(e), buf);
        buf := buf + [ReturnLine(e)];
      } else if code == CODE_BREAK {
        var left := Leaves(Break);
        if !left { WriteOne(GoBreak, buf); buf := buf + [BreakLine]; }
      } else {
        var left := Leaves(Continue);
        if !left { WriteOne(GoContinue, buf); buf := buf + [ContinueLine]; }
      }
    }

    method IfCode(k: nat, codes: set<int>, code: int)
      requires code in {CODE_RETURN, CODE_BREAK, CODE_CONTINUE}
      requires CODE_RETURN in codes && Carries(ret) ==> retVar.Some?
      modifies this`buf
      ensures buf == Write(EmitIfCode(Context(), k, codes, code), old(buf))
    {
      if code in codes {
        WriteOne(GoIfCode(k, code, EmitLeave(Context(), code)), buf);
        buf := buf + [IfCodeLine(k, code)];
        Leave(code);
        buf := buf + [CloseLine];
      }
    }

    method Codes(k: nat, codes: set<int>)
      requires CODE_RETURN in codes && Carries(ret) ==> retVar.Some?
      modifies this`buf
      ensures buf == Write(EmitCodes(Context(), k, codes), old(buf))
    {
      WriteCodes(Context(), k, codes, buf);
      IfCode(k, codes, CODE_RETURN);
      IfCode(k, codes, CODE_BREAK);
      IfCode(k, codes, CODE_CONTINUE);
    }

    // bindCatch
    method BindCatch(h: Handler, t: nat)
      modifies this`buf
      ensures buf == Write(EmitBind(h, t), old(buf))
    {
      if h.name.Some? {
        WriteOne(GoBind(h.name.value, t), buf);
        buf := buf + [BindLine(h.name.value, t)];
      }
    }

    // inLiteral
    method InLiteral(body: Block, coded: bool)
      modifies this
      ensures Context() == old(Context())
      ensures tries == EmitLiteral(old(Context()), body, coded, old(tries)).tries
      ensures buf == Write(EmitLiteral(old(Context()), body, coded, old(tries)).code, old(buf))
      decreases body, 4
    {
      WriteLiteral(Context(), body, coded, tries, buf);
      frames := frames + [loops];
      Stmts(body);
      frames := frames[..|frames| - 1];
      if coded { buf := buf + [ReturnLine(Code(CODE_FELL))]; }
    }

    // The call that runs a literal: run, in tryStmt.
    method RunLiteral(body: Block, coded: bool, k: nat, declares: bool, caught: Option<Handler>)
      modifies this
      ensures Context() == old(Context())
      ensures tries == EmitLiteral(old(Context()), body, coded, old(tries)).tries
      ensures var code := EmitLiteral(old(Context()), body, coded, old(tries)).code;
              buf == WriteStep(GoTry(coded, k, declares, if caught.Some? then Binding(caught.value, k, code) else code), old(buf))
      decreases body, 5
    {
      ghost var code := EmitLiteral(Context(), body, coded, tries).code;
      buf := buf + [TryLine(coded, k, declares)];
      if caught.Some? {
        WriteAppend(EmitBind(caught.value, k), code, buf);
        BindCatch(caught.value, k);
      }
      InLiteral(body, coded);
      buf := buf + [CloseLiteralLine];
    }

    // tryStmt
    method TryStmt(s: Stmt)
      requires s.TryCatch? || s.TryFinally? || s.TryCatchFinally?
      modifies this
      ensures Context() == old(Context())
      ensures tries == EmitTry(old(Context()), s, old(tries)).tries
      ensures buf == Write(EmitTry(old(Context()), s, old(tries)).code, old(buf))
      ensures Wrote(old(buf), EmitTry(old(Context()), s, old(tries)).code, buf)
      decreases s, 1
    {
      hide EmitBlock, EmitRest, Wrote;
      WriteTry(Context(), s, tries, buf);
      WroteWritten(EmitTry(Context(), s, tries).code, buf);
      tries := tries + 1;
      var k := tries;
      var codes := Exits(s.body, false);
      if s.TryCatchFinally? { codes := codes + Exits(s.handler.body, false); }
      var owns := CODE_RETURN in codes && Carries(ret) && retVar.None?;
      if owns {
        retVar := Some(k);
        buf := buf + [DeclareLine(k)];
      }
      RunLiteral(s.body, codes != {}, k, true, None);
      Rest(s, codes, k);
      if owns { retVar := None; }
    }

    // The rest of tryStmt: the catch and the finally, in place, and the codes.
    method Rest(s: Stmt, codes: set<int>, k: nat)
      requires s.TryCatch? || s.TryFinally? || s.TryCatchFinally?
      requires CODE_RETURN in codes && Carries(ret) ==> retVar.Some?
      modifies this
      ensures Context() == old(Context())
      ensures tries == EmitRest(old(Context()), s, codes, k, old(tries)).tries
      ensures buf == Write(EmitRest(old(Context()), s, codes, k, old(tries)).code, old(buf))
      ensures Wrote(old(buf), EmitRest(old(Context()), s, codes, k, old(tries)).code, buf)
      decreases s, 0
    {
      WroteWritten(EmitRest(Context(), s, codes, k, tries).code, buf);
      match s {
        case TryCatch(_, h) =>
          buf := buf + [IfThrownLine(k)];
          WriteAppend(EmitBind(h, k), EmitBlock(Context(), h.body, tries).code, buf);
          BindCatch(h, k);
          Stmts(h.body);
          buf := buf + [CloseLine];
          Codes(k, codes);
        case TryFinally(_, f) =>
          Finally(f, codes, k);
        case TryCatchFinally(_, h, f) =>
          buf := buf + [IfThrownLine(k)];
          WriteOne(GoTry(codes != {}, k, false, Binding(h, k, EmitLiteral(Context(), h.body, codes != {}, tries).code)), buf);
          RunLiteral(h.body, codes != {}, k, false, Some(h));
          buf := buf + [CloseLine];
          Finally(f, codes, k);
      }
    }

    method Finally(f: Block, codes: set<int>, k: nat)
      requires CODE_RETURN in codes && Carries(ret) ==> retVar.Some?
      modifies this
      ensures Context() == old(Context())
      ensures tries == EmitBlock(old(Context()), f, old(tries)).tries
      ensures buf == Write(Finished(old(Context()), EmitBlock(old(Context()), f, old(tries)).code, codes, k), old(buf))
      decreases f, 4
    {
      WriteAppend(EmitBlock(Context(), f, tries).code, GoThen(GoRethrow(k), EmitCodes(Context(), k, codes)), buf);
      Stmts(f);
      buf := buf + [RethrowLine(k)];
      Codes(k, codes);
    }

    // body, between enterFunction and what it returns to restore.
    method Function(result: Returns, body: Block)
      modifies this
      ensures Context() == old(Context())
      ensures tries == EmitFunction(result, body, old(tries)).tries
      ensures buf == Write(EmitFunction(result, body, old(tries)).code, old(buf))
      ensures Wrote(old(buf), EmitFunction(result, body, old(tries)).code, buf)
      ensures WellFormed(result, body) ==> (TextIsRight(buf[|old(buf)|..], body) <==> Faithful(result, body))
    {
      WriteAppend(EmitBlock(Start(result), body, tries).code, EmitEnd(result, body), buf);
      var saved, savedLoops, savedRet, savedVar := frames, loops, ret, retVar;
      frames, loops, ret, retVar := [], 0, result, None;
      Stmts(body);
      frames, loops, ret, retVar := saved, savedLoops, savedRet, savedVar;
      End(result, body);
      WroteWritten(EmitFunction(result, body, old(tries)).code, old(buf));
      if WellFormed(result, body) { TextCompiledExactly(result, body, old(tries), buf[|old(buf)|..]); }
    }

    method End(result: Returns, body: Block)
      modifies this`buf
      ensures buf == Write(EmitEnd(result, body), old(buf))
    {
      var last := Last(body);
      if result.AsyncVoidFn? {
        WriteOne(GoReturn(Struct), buf);
        buf := buf + [ReturnLine(Struct)];
      } else if !result.VoidFn? && !(last.Some? && last.value.Return?) {
        if result.MaybeFn? {
          WriteOne(GoReturn(Zero), buf);
          buf := buf + [ReturnLine(Zero)];
        } else {
          WriteOne(GoPanic, buf);
          buf := buf + [PanicLine];
        }
      }
    }
  }

  lemma WriteCodes(c: Ctx, k: nat, codes: set<int>, buf: seq<Line>)
    ensures Write(EmitCodes(c, k, codes), buf)
         == Write(EmitIfCode(c, k, codes, CODE_CONTINUE),
                  Write(EmitIfCode(c, k, codes, CODE_BREAK), Write(EmitIfCode(c, k, codes, CODE_RETURN), buf)))
  {
    var a, b, d := EmitIfCode(c, k, codes, CODE_RETURN), EmitIfCode(c, k, codes, CODE_BREAK), EmitIfCode(c, k, codes, CODE_CONTINUE);
    WriteAppend(a, Append(b, d), buf);
    WriteAppend(b, d, Write(a, buf));
  }

  lemma WriteLiteral(c: Ctx, body: Block, coded: bool, tries: nat, buf: seq<Line>)
    ensures var inner := Write(EmitBlock(Opened(c), body, tries).code, buf);
            Write(EmitLiteral(c, body, coded, tries).code, buf) == if coded then inner + [ReturnLine(Code(CODE_FELL))] else inner
  {
    var code := EmitBlock(Opened(c), body, tries).code;
    WriteAppend(code, One(GoReturn(Code(CODE_FELL))), buf);
    WriteOne(GoReturn(Code(CODE_FELL)), Write(code, buf));
  }

  lemma WriteTry(c: Ctx, s: Stmt, tries: nat, buf: seq<Line>)
    requires s.TryCatch? || s.TryFinally? || s.TryCatchFinally?
    ensures var k := tries + 1;
            var codes := LiteralCodes(s);
            var own := Owning(c, codes, k);
            var literal := EmitLiteral(own, s.body, codes != {}, k);
            var declared := if Owns(c, codes) then buf + [DeclareLine(k)] else buf;
            var rest := EmitRest(own, s, codes, k, literal.tries);
            && EmitTry(c, s, tries).tries == rest.tries
            && Write(EmitTry(c, s, tries).code, buf) == Write(rest.code, WriteStep(GoTry(codes != {}, k, true, literal.code), declared))
  {
    var k := tries + 1;
    var codes := LiteralCodes(s);
    var own := Owning(c, codes, k);
    var literal := EmitLiteral(own, s.body, codes != {}, k);
    var one := GoTry(codes != {}, k, true, literal.code);
    var head := Append(EmitDeclare(c, codes, k), One(one));
    var rest := EmitRest(own, s, codes, k, literal.tries);
    assert EmitTry(c, s, tries) == Emitted(Append(head, rest.code), rest.tries);
    WriteAppend(head, rest.code, buf);
    WriteAppend(EmitDeclare(c, codes, k), One(one), buf);
    WriteOne(GoDeclare(k), buf);
    WriteOne(one, Write(EmitDeclare(c, codes, k), buf));
  }
}
