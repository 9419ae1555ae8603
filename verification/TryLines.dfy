/**
  Go's text, as far as the translation writes it: a line for each statement,
  and lines that open and close blocks.
*/
module TryLines {
  import opened Options
  import opened TryLanguage
  import opened TryTarget
  import opened TryEmit

  // A line of Go, as far as this translation writes it.
  datatype Line =
    | EvalLine(site: nat)
    | ThrowLine(site: nat)
    | PanicLine
    | ReturnLine(e: Carried)
    | BreakLine
    | ContinueLine
    | IfLine(site: nat)
    | ElseLine
    | ForLine(init: seq<nat>, test: Test, post: seq<nat>)
    | DeclareLine(r: nat)
    | StoreLine(r: nat, site: nat)
    | TryLine(coded: bool, k: nat, declares: bool)
    | IfThrownLine(t: nat)
    | BindLine(name: nat, t: nat)
    | RethrowLine(t: nat)
    | IfCodeLine(k: nat, code: int)
    | LostLine
    | CloseLine          // }
    | CloseLiteralLine   // })

  // The buffer once b has been written at its end.
  function Write(b: GoBlock, buf: seq<Line>): seq<Line>
    decreases b, 0
  {
    match b
    case GoDone => buf
    case GoThen(s, rest) => Write(rest, WriteStep(s, buf))
  }

  function WriteStep(s: GoStmt, buf: seq<Line>): seq<Line>
    decreases s, 0
  {
    match s
    case GoEval(site) => buf + [EvalLine(site)]
    case GoThrow(site) => buf + [ThrowLine(site)]
    case GoPanic => buf + [PanicLine]
    case GoReturn(e) => buf + [ReturnLine(e)]
    case GoBreak => buf + [BreakLine]
    case GoContinue => buf + [ContinueLine]
    case GoIf(site, thn, els) =>
      var first := Write(thn, buf + [IfLine(site)]);
      (if els.GoDone? then first else Write(els, first + [ElseLine])) + [CloseLine]
    case GoFor(init, test, post, body) => Write(body, buf + [ForLine(init, test, post)]) + [CloseLine]
    case GoDeclare(r) => buf + [DeclareLine(r)]
    case GoStore(r, site) => buf + [StoreLine(r, site)]
    case GoTry(coded, k, declares, literal) => Write(literal, buf + [TryLine(coded, k, declares)]) + [CloseLiteralLine]
    case GoIfThrown(t, then_) => Write(then_, buf + [IfThrownLine(t)]) + [CloseLine]
    case GoBind(name, t) => buf + [BindLine(name, t)]
    case GoRethrow(t) => buf + [RethrowLine(t)]
    case GoIfCode(k, code, then_) => Write(then_, buf + [IfCodeLine(k, code)]) + [CloseLine]
    case GoLost => buf + [LostLine]
  }

  lemma {:induction false} WriteAppend(a: GoBlock, b: GoBlock, buf: seq<Line>)
    ensures Write(Append(a, b), buf) == Write(b, Write(a, buf))
    decreases a
  {
    match a
    case GoDone =>
    case GoThen(s, rest) => WriteAppend(rest, b, WriteStep(s, buf));
  }

  lemma WriteOne(s: GoStmt, buf: seq<Line>)
    ensures Write(One(s), buf) == WriteStep(s, buf)
  {
    assert Write(GoDone, WriteStep(s, buf)) == WriteStep(s, buf);
  }
}
