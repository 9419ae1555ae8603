/**
  The emitter's lines read back. A reader takes lines to the statements they
  are, blocks by their braces, knowing nothing of how they were written; what
  the emitter writes for a function reads as its translation, so what is said
  of the translation's call is said of the lines.
*/
module TryText {
  import opened Options
  import opened TryLanguage
  import opened TryTarget
  import opened TryEmit
  import opened TryCorrect
  import opened TryExact
  import opened TryTheorem
  import opened TryLines

  datatype Read<T> = Read(it: T, rest: seq<Line>)

  predicate Closes(l: Line) { l.CloseLine? || l.CloseLiteralLine? || l.ElseLine? }

  // The statements up to a closing line, which is left.
  function ReadBlock(lines: seq<Line>): (r: Option<Read<GoBlock>>)
    ensures r.Some? ==> |r.value.rest| <= |lines| && (r.value.rest == [] || Closes(r.value.rest[0]))
    decreases |lines|, 1
  {
    if lines == [] || Closes(lines[0]) then Some(Read(GoDone, lines))
    else match ReadStmt(lines)
      case None => None
      case Some(first) =>
        match ReadBlock(first.rest)
        case None => None
        case Some(more) => Some(Read(GoThen(first.it, more.it), more.rest))
  }

  // A block and the line that closes it.
  function ReadBraced(lines: seq<Line>, close: Line): (r: Option<Read<GoBlock>>)
    ensures r.Some? ==> |r.value.rest| < |lines|
    decreases |lines|, 2
  {
    match ReadBlock(lines)
    case None => None
    case Some(b) => if b.rest != [] && b.rest[0] == close then Some(Read(b.it, b.rest[1..])) else None
  }

  function ReadStmt(lines: seq<Line>): (r: Option<Read<GoStmt>>)
    requires lines != [] && !Closes(lines[0])
    ensures r.Some? ==> |r.value.rest| < |lines|
    decreases |lines|, 0
  {
    var rest := lines[1..];
    match lines[0]
    case EvalLine(site) => Some(Read(GoEval(site), rest))
    case ThrowLine(site) => Some(Read(GoThrow(site), rest))
    case PanicLine => Some(Read(GoPanic, rest))
    case ReturnLine(e) => Some(Read(GoReturn(e), rest))
    case BreakLine => Some(Read(GoBreak, rest))
    case ContinueLine => Some(Read(GoContinue, rest))
    case DeclareLine(r) => Some(Read(GoDeclare(r), rest))
    case StoreLine(r, site) => Some(Read(GoStore(r, site), rest))
    case BindLine(name, t) => Some(Read(GoBind(name, t), rest))
    case RethrowLine(t) => Some(Read(GoRethrow(t), rest))
    case LostLine => Some(Read(GoLost, rest))
    case IfLine(site) => ReadIf(site, rest)
    case ForLine(init, test, post) =>
      (match ReadBraced(rest, CloseLine)
       case None => None
       case Some(b) => Some(Read(GoFor(init, test, post, b.it), b.rest)))
    case TryLine(coded, k, declares) =>
      (match ReadBraced(rest, CloseLiteralLine)
       case None => None
       case Some(b) => Some(Read(GoTry(coded, k, declares, b.it), b.rest)))
    case IfThrownLine(t) =>
      (match ReadBraced(rest, CloseLine)
       case None => None
       case Some(b) => Some(Read(GoIfThrown(t, b.it), b.rest)))
    case IfCodeLine(k, code) =>
      (match ReadBraced(rest, CloseLine)
       case None => None
       case Some(b) => Some(Read(GoIfCode(k, code, b.it), b.rest)))
  }

  // Past the test: the block, and one after an else if there is one.
  function ReadIf(site: nat, lines: seq<Line>): (r: Option<Read<GoStmt>>)
    ensures r.Some? ==> |r.value.rest| < |lines|
    decreases |lines|, 3
  {
    match ReadBlock(lines)
    case None => None
    case Some(a) =>
      if a.rest == [] then None
      else if a.rest[0].CloseLine? then Some(Read(GoIf(site, a.it, GoDone), a.rest[1..]))
      else if !a.rest[0].ElseLine? then None
      else match ReadBraced(a.rest[1..], CloseLine)
        case None => None
        case Some(b) => Some(Read(GoIf(site, a.it, b.it), b.rest))
  }

  // The program some lines are.
  function Program(lines: seq<Line>): Option<GoBlock> {
    match ReadBlock(lines)
    case None => None
    case Some(r) => if r.rest == [] then Some(r.it) else None
  }

  // What is written is read.

  predicate Ends(tail: seq<Line>) { tail == [] || Closes(tail[0]) }

  lemma {:induction false} WritesAfter(b: GoBlock, buf: seq<Line>)
    ensures Write(b, buf) == buf + Write(b, [])
    decreases b, 1
  {
    match b
    case GoDone => assert buf + [] == buf;
    case GoThen(s, rest) =>
      StepWritesAfter(s, buf);
      WritesAfter(rest, WriteStep(s, buf));
      WritesAfter(rest, WriteStep(s, []));
      assert (buf + WriteStep(s, [])) + Write(rest, []) == buf + (WriteStep(s, []) + Write(rest, []));
  }

  lemma {:induction false} StepWritesAfter(s: GoStmt, buf: seq<Line>)
    ensures WriteStep(s, buf) == buf + WriteStep(s, [])
    decreases s, 0
  {
    hide Write;
    match s
    case GoIf(site, thn, els) => IfAfter(site, thn, els, buf);
    case GoFor(init, test, post, body) => BracedAfter(body, buf, ForLine(init, test, post));
    case GoTry(coded, k, declares, literal) => BracedAfter(literal, buf, TryLine(coded, k, declares));
    case GoIfThrown(t, then_) => BracedAfter(then_, buf, IfThrownLine(t));
    case GoIfCode(k, code, then_) => BracedAfter(then_, buf, IfCodeLine(k, code));
    case _ =>
  }

  lemma {:induction false} IfAfter(site: nat, thn: GoBlock, els: GoBlock, buf: seq<Line>)
    ensures WriteStep(GoIf(site, thn, els), buf) == buf + WriteStep(GoIf(site, thn, els), [])
    decreases GoIf(site, thn, els), -1
  {
    hide Write;
    var open := IfLine(site);
    BracedAfter(thn, buf, open);
    var b := Write(thn, [open]);
    assert (buf + b) + [CloseLine] == buf + (b + [CloseLine]);
    if !els.GoDone? {
      WritesAfter(els, buf + b + [ElseLine]);
      WritesAfter(els, b + [ElseLine]);
      var c := Write(els, []);
      assert (buf + b + [ElseLine] + c) + [CloseLine] == buf + ((b + [ElseLine] + c) + [CloseLine]);
    }
  }

  lemma {:induction false} BracedAfter(b: GoBlock, buf: seq<Line>, open: Line)
    ensures Write(b, buf + [open]) == buf + Write(b, [open]) && [] + [open] == [open]
    ensures Write(b, [open]) == [open] + Write(b, [])
    decreases b, 2
  {
    WritesAfter(b, buf + [open]);
    WritesAfter(b, [open]);
    assert (buf + [open]) + Write(b, []) == buf + ([open] + Write(b, []));
  }

  // No statement begins with a closing line.
  lemma {:induction false} StepOpens(s: GoStmt)
    ensures WriteStep(s, []) != [] && !Closes(WriteStep(s, [])[0])
  {
    match s
    case GoIf(site, thn, els) =>
      assert [] + [IfLine(site)] == [IfLine(site)];
      WritesAfter(thn, [IfLine(site)]);
      if !els.GoDone? { WritesAfter(els, Write(thn, [IfLine(site)]) + [ElseLine]); }
    case GoFor(init, test, post, body) => BracedAfter(body, [], ForLine(init, test, post));
    case GoTry(coded, k, declares, literal) => BracedAfter(literal, [], TryLine(coded, k, declares));
    case GoIfThrown(t, then_) => BracedAfter(then_, [], IfThrownLine(t));
    case GoIfCode(k, code, then_) => BracedAfter(then_, [], IfCodeLine(k, code));
    case _ =>
  }

  lemma {:induction false} BlockReads(b: GoBlock, tail: seq<Line>)
    requires Ends(tail)
    ensures ReadBlock(Write(b, []) + tail) == Some(Read(b, tail))
    decreases b, 1
  {
    match b
    case GoDone => assert [] + tail == tail;
    case GoThen(s, rest) =>
      StepOpens(s);
      WritesAfter(rest, WriteStep(s, []));
      var more := Write(rest, []) + tail;
      assert Write(b, []) + tail == WriteStep(s, []) + more;
      StepReads(s, more);
      BlockReads(rest, tail);
  }

  lemma {:induction false} BracedReads(b: GoBlock, close: Line, tail: seq<Line>)
    requires Closes(close)
    ensures ReadBraced(Write(b, []) + [close] + tail, close) == Some(Read(b, tail))
    decreases b, 2
  {
    assert Write(b, []) + [close] + tail == Write(b, []) + ([close] + tail);
    BlockReads(b, [close] + tail);
    assert ([close] + tail)[1..] == tail;
  }

  lemma {:induction false} StepReads(s: GoStmt, tail: seq<Line>)
    ensures var lines := WriteStep(s, []) + tail;
      lines != [] && !Closes(lines[0]) && ReadStmt(lines) == Some(Read(s, tail))
    decreases s, 0
  {
    hide Write, ReadBlock, ReadBraced, ReadIf;
    StepOpens(s);
    var lines := WriteStep(s, []) + tail;
    match s
    case GoIf(site, thn, els) => IfReads(site, thn, els, tail);
    case GoFor(init, test, post, body) => OpenedReads(body, ForLine(init, test, post), CloseLine, tail);
    case GoTry(coded, k, declares, literal) => OpenedReads(literal, TryLine(coded, k, declares), CloseLiteralLine, tail);
    case GoIfThrown(t, then_) => OpenedReads(then_, IfThrownLine(t), CloseLine, tail);
    case GoIfCode(k, code, then_) => OpenedReads(then_, IfCodeLine(k, code), CloseLine, tail);
    case _ => assert lines[1..] == tail;
  }

  lemma {:induction false} OpenedReads(b: GoBlock, open: Line, close: Line, tail: seq<Line>)
    requires Closes(close)
    ensures var lines := (Write(b, [] + [open]) + [close]) + tail;
      lines[0] == open && ReadBraced(lines[1..], close) == Some(Read(b, tail))
    decreases b, 3
  {
    hide Write, ReadBlock, ReadStmt, ReadBraced;
    BracedAfter(b, [], open);
    BracedReads(b, close, tail);
    assert ((([open] + Write(b, [])) + [close]) + tail)[1..] == Write(b, []) + [close] + tail;
  }

  lemma IfLines(open: Line, a: seq<Line>, b: seq<Line>, tail: seq<Line>)
    ensures (([open] + a + [CloseLine]) + tail)[1..] == a + ([CloseLine] + tail)
    ensures ((([open] + a + [ElseLine] + b) + [CloseLine]) + tail)[1..] == a + ([ElseLine] + (b + [CloseLine] + tail))
    ensures forall l: Line, rest: seq<Line> :: ([l] + rest)[1..] == rest
  {
  }

  lemma {:induction false} IfReads(site: nat, thn: GoBlock, els: GoBlock, tail: seq<Line>)
    ensures var lines := WriteStep(GoIf(site, thn, els), []) + tail;
      lines[0] == IfLine(site) && ReadIf(site, lines[1..]) == Some(Read(GoIf(site, thn, els), tail))
    decreases GoIf(site, thn, els), -1
  {
    hide Write, ReadBlock, ReadBraced, ReadStmt;
    var open := IfLine(site);
    var a, b := Write(thn, []), Write(els, []);
    BracedAfter(thn, [], open);
    IfLines(open, a, b, tail);
    if els.GoDone? {
      BlockReads(thn, [CloseLine] + tail);
    } else {
      WritesAfter(els, [open] + a + [ElseLine]);
      BlockReads(thn, [ElseLine] + (b + [CloseLine] + tail));
      BracedReads(els, CloseLine, tail);
    }
  }

  /** Lines say which statements they are: those that were written. */
  lemma WrittenReads(b: GoBlock)
    ensures Program(Write(b, [])) == Some(b)
  {
    BlockReads(b, []);
    assert Write(b, []) + [] == Write(b, []);
  }

  // The lines added to a buffer are those of a block.
  predicate Wrote(before: seq<Line>, b: GoBlock, after: seq<Line>) {
    before <= after && Program(after[|before|..]) == Some(b)
  }

  lemma WroteWritten(b: GoBlock, buf: seq<Line>)
    ensures Wrote(buf, b, Write(b, buf))
  {
    WritesAfter(b, buf);
    WrittenReads(b);
    assert Write(b, buf)[|buf|..] == Write(b, []);
  }

  // A call of the function some lines are the body of is JavaScript's, on every run.
  ghost predicate TextIsRight(lines: seq<Line>, body: Block) {
    Program(lines).Some? && forall w: World :: GoCall(Program(lines).value, w) == RunFunction(body, w)
  }

  /** The theorem about compiled functions, of the lines emitted for one. */
  lemma TextCompiledExactly(ret: Returns, body: Block, tries: nat, lines: seq<Line>)
    requires WellFormed(ret, body) && Program(lines) == Some(EmitFunction(ret, body, tries).code)
    ensures TextIsRight(lines, body) <==> Faithful(ret, body)
  {
    CompiledExactly(ret, body, tries);
  }
}
