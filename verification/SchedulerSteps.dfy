/**
  Every step keeps the invariant, so every reachable state has it; and from
  each such state the next step is there to be taken.
*/
module SchedulerSteps {
  import opened Options
  import opened JobQueue
  import opened Goroutines
  import opened SchedulerInvariant
  import opened SchedulerStack

  lemma InvariantIsSane(m: Machine)
    requires Invariant(m)
    ensures Sane(m)
  {
    if m.pcs[0].Draining? && m.store.micro != [] {
      assert !Ending(m.pcs[0]);
      var job := JobsLeft(m)[0];
      assert WaitsOn(m.pcs, job.c, job.p);
    }
    if m.pcs[0].Resuming? {
      assert !Ending(m.pcs[0]);
      assert JobsLeft(m)[0] == m.pcs[0].job;
    }
  }

  // The stack.

  // The stack a step leaves.
  function StackAfter(prog: Program, m: Machine, stack: seq<nat>, v: Move): seq<nat>
    requires Chain(m, stack) && Enabled(m, v)
  {
    match v
    case Execute(g) => StackExecuted(m, stack, prog.next(g, m.store.log))
    case HandBack(_) => stack[..|stack| - 1]
    case HandOver => [0, m.pcs[0].job.c]
    case AbortOver => [0, m.pcs[0].c]
    case _ => stack
  }

  function StackExecuted(m: Machine, stack: seq<nat>, i: Instr): seq<nat> {
    if i.Call? then stack + [|m.pcs|] else stack
  }

  lemma ChainCall(m: Machine, stack: seq<nat>, g: nat)
    requires Chain(m, stack) && Sane(m) && g < |m.pcs| && m.pcs[g].Code? && g == Top(stack)
    ensures Chain(ExecuteBy(m, g, Call), stack + [|m.pcs|])
  {
    PushNew(m.pcs, stack);
    var m' := ExecuteBy(m, g, Call);
    assert (stack + [|m.pcs|])[0] == 0;
    assert m'.pcs[0] == if g == 0 then BeforeWait(|m.pcs|, ToCode) else m.pcs[0];
  }

  // What a step of the code, other than a call, makes of its goroutine.
  lemma ExecutedPc(m: Machine, g: nat, i: Instr)
    requires Sane(m) && g < |m.pcs| && m.pcs[g].Code? && !i.Call?
    ensures var m' := ExecuteBy(m, g, i);
      && m'.pcs == m.pcs[g := m'.pcs[g]] && HoldsToken(m'.pcs[g])
      && (if g == 0
          then m'.pcs[0].Code? || m'.pcs[0].Draining? || m'.pcs[0].Aborting?
          else m'.pcs[g].Code? || m'.pcs[g].Yielding? || m'.pcs[g].Exiting?)
      && (m.failure.None? ==> (m'.failure.Some? <==> g == 0 && m'.pcs[0].Aborting?))
      && (g != 0 ==> m'.failure == m.failure)
  {
  }

  lemma ChainExecute(m: Machine, stack: seq<nat>, g: nat, i: Instr)
    requires Chain(m, stack) && Sane(m) && g < |m.pcs| && m.pcs[g].Code?
    ensures g == Top(stack) && Chain(ExecuteBy(m, g, i), StackExecuted(m, stack, i))
  {
    HolderIsTop(m.pcs, stack, g);
    if i.Call? {
      ChainCall(m, stack, g);
    } else {
      ExecutedPc(m, g, i);
      ChainTop(m, ExecuteBy(m, g, i), stack);
    }
  }

  lemma ChainTop(m: Machine, m': Machine, stack: seq<nat>)
    requires Chain(m, stack) && m.pcs[Top(stack)].Code? && |m'.pcs| == |m.pcs|
    requires m'.pcs == m.pcs[Top(stack) := m'.pcs[Top(stack)]] && HoldsToken(m'.pcs[Top(stack)])
    requires Top(stack) == 0 ==> m'.pcs[0].Code? || m'.pcs[0].Draining? || m'.pcs[0].Aborting?
    requires Top(stack) != 0 ==> m'.pcs[Top(stack)].Code? || m'.pcs[Top(stack)].Yielding? || m'.pcs[Top(stack)].Exiting?
    requires m.failure.None? ==> (m'.failure.Some? <==> Top(stack) == 0 && m'.pcs[0].Aborting?)
    requires Top(stack) != 0 ==> m'.failure == m.failure
    ensures Chain(m', stack)
  {
    SetTop(m.pcs, stack, m'.pcs[Top(stack)]);
  }

  lemma ChainHandBack(m: Machine, stack: seq<nat>, g: nat)
    requires Chain(m, stack) && Enabled(m, HandBack(g))
    ensures |stack| > 1 && m.pcs[g].c == Top(stack) && g == stack[|stack| - 2]
    ensures Chain(TakeBack(m, g, m.pcs[g].c), stack[..|stack| - 1])
  {
    var m' := TakeBack(m, g, m.pcs[g].c);
    WaiterIsNext(m.pcs, stack, g);
    var c := m.pcs[g].c;
    assert m'.pcs == m.pcs[c := m'.pcs[c]][g := m'.pcs[g]];
    Pop(m.pcs, stack, m'.pcs[c], m'.pcs[g]);
    assert Top(stack[..|stack| - 1]) == g;
  }

  lemma ChainStartWait(m: Machine, stack: seq<nat>, g: nat)
    requires Chain(m, stack) && Enabled(m, StartWait(g))
    ensures Chain(m.(pcs := m.pcs[g := Waiting(m.pcs[g].c, m.pcs[g].back)]), stack)
  {
    SetWaiter(m.pcs, stack, g);
    var i := WaiterIsBelow(m.pcs, stack, g);
    assert stack[|stack| - 1] != g;
  }

  lemma ChainStartBlock(m: Machine, stack: seq<nat>, c: nat)
    requires Chain(m, stack) && Enabled(m, StartBlock(c))
    ensures Chain(m.(pcs := m.pcs[c := AtResume(m.pcs[c].p)]), stack)
  {
    SetOutside(m.pcs, stack, c, AtResume(m.pcs[c].p));
    assert stack[0] != c && Top(stack) != c;
  }

  lemma ChainBetween(prog: Program, m: Machine, stack: seq<nat>, v: Move)
    requires Chain(m, stack) && Sane(m) && Enabled(m, v) && (v.TaskBegins? || v.LeaveDomain?)
    ensures stack == [0] && Chain(Apply(prog, m, v), stack)
  {
    HolderIsTop(m.pcs, stack, 0);
    SetTop(m.pcs, stack, Apply(prog, m, v).pcs[0]);
  }

  lemma ChainNextJob(m: Machine, stack: seq<nat>)
    requires Chain(m, stack) && Sane(m) && Registered(m) && m.pcs[0].Draining?
    ensures stack == [0]
    ensures m.store.micro != [] ==> Chain(BeginJob(m), stack)
    ensures m.store.micro == [] ==> Chain(CheckRejections(m), stack)
  {
    HolderIsTop(m.pcs, stack, 0);
    if m.store.micro != [] {
      var c := m.store.micro[0].c;
      assert Awaiting(m.pcs[c]);
      assert c !in stack;
      SetTop(m.pcs, stack, Resuming(m.store.micro[0]));
    } else {
      SetTop(m.pcs, stack, CheckRejections(m).pcs[0]);
    }
  }

  lemma ChainNextAbort(m: Machine, stack: seq<nat>, prog: Program)
    requires Chain(m, stack) && Sane(m) && Registered(m) && m.pcs[0].Aborting?
    ensures stack == [0] && Chain(Apply(prog, m, NextAbort), stack)
  {
    HolderIsTop(m.pcs, stack, 0);
    SetTop(m.pcs, stack, Apply(prog, m, NextAbort).pcs[0]);
    if m.registry.parked != [] {
      var c := m.registry.parked[|m.registry.parked| - 1];
      assert c in m.registry.parked && Awaiting(m.pcs[c]);
      assert c !in stack;
    }
  }

  lemma ChainResumed(m: Machine, stack: seq<nat>, v: Move, prog: Program)
    requires Chain(m, stack) && Sane(m) && Enabled(m, v) && (v.HandOver? || v.AbortOver?)
    ensures stack == [0]
    ensures Chain(Apply(prog, m, v), [0, if v.HandOver? then m.pcs[0].job.c else m.pcs[0].c])
  {
    HolderIsTop(m.pcs, stack, 0);
    if v.HandOver? { PushOld(m.pcs, stack, m.pcs[0].job.c, Code, ToDrain); }
    else { PushOld(m.pcs, stack, m.pcs[0].c, Exiting(false), ToAbort); }
  }

  lemma ChainStep(prog: Program, m: Machine, stack: seq<nat>, v: Move)
    requires Chain(m, stack) && Registered(m) && Sane(m) && Enabled(m, v)
    ensures Chain(Apply(prog, m, v), StackAfter(prog, m, stack, v))
  {
    match v
    case Execute(g) => ChainExecute(m, stack, g, prog.next(g, m.store.log));
    case HandBack(g) => ChainHandBack(m, stack, g);
    case StartWait(g) => ChainStartWait(m, stack, g);
    case StartBlock(c) => ChainStartBlock(m, stack, c);
    case NextJob => ChainNextJob(m, stack);
    case NextAbort => ChainNextAbort(m, stack, prog);
    case HandOver => ChainResumed(m, stack, v, prog);
    case AbortOver => ChainResumed(m, stack, v, prog);
    case _ => ChainBetween(prog, m, stack, v);
  }

  // The registry.

  // A step that leaves the registry, and which calls are in an Await.
  lemma RegisteredSame(m: Machine, m': Machine)
    requires Registered(m) && m'.registry == m.registry && |m'.pcs| == |m.pcs| && !m'.pcs[0].Stopped?
    requires forall x :: 0 <= x < |m.pcs| ==>
      (Awaiting(m'.pcs[x]) && !Leaving(m', x) <==> Awaiting(m.pcs[x]) && !Leaving(m, x))
    ensures Registered(m')
  {
  }

  lemma RegisteredExecute(m: Machine, stack: seq<nat>, g: nat, i: Instr)
    requires Chain(m, stack) && Registered(m) && Sane(m) && g < |m.pcs| && m.pcs[g].Code?
    ensures Registered(ExecuteBy(m, g, i))
  {
    hide SettleP, ThenResume;
    HolderIsTop(m.pcs, stack, g);
    var s := Note(m.store, Did(g, i));
    if Legal(s, g, i) && i.Await? {
      ParkIndexes(m.registry, g);
    } else if Legal(s, g, i) && i.Call? {
      var m' := ExecuteBy(m, g, i);
      assert |m.pcs| !in m.registry.parked;
      forall c | 0 <= c < |m'.pcs|
        ensures c in m'.registry.parked <==> Awaiting(m'.pcs[c]) && !Leaving(m', c)
      {
        if c < |m.pcs| { assert c in m.registry.parked <==> Awaiting(m.pcs[c]) && !Leaving(m, c); }
      }
    }
  }

  lemma RegisteredNextJob(m: Machine, stack: seq<nat>)
    requires Chain(m, stack) && Registered(m) && Sane(m) && m.pcs[0].Draining?
    ensures m.store.micro != [] ==> Registered(BeginJob(m))
    ensures m.store.micro == [] ==> Registered(CheckRejections(m))
  {
    HolderIsTop(m.pcs, stack, 0);
    if m.store.micro != [] {
      UnparkIndexes(m.registry, m.store.micro[0].c);
    } else {
      RegisteredSame(m, CheckRejections(m));
    }
  }

  lemma RegisteredNextAbort(prog: Program, m: Machine, stack: seq<nat>)
    requires Chain(m, stack) && Registered(m) && Sane(m) && m.pcs[0].Aborting?
    ensures Registered(Apply(prog, m, NextAbort))
  {
    HolderIsTop(m.pcs, stack, 0);
    if m.registry.parked != [] {
      var c := m.registry.parked[|m.registry.parked| - 1];
      assert c in m.registry.parked;
      PopIndexes(m.registry);
    }
  }

  lemma RegisteredResumed(prog: Program, m: Machine, stack: seq<nat>, v: Move)
    requires Chain(m, stack) && Registered(m) && Sane(m) && Enabled(m, v)
    requires v.HandOver? || v.AbortOver?
    ensures Registered(Apply(prog, m, v))
  {
    HolderIsTop(m.pcs, stack, 0);
    var c := if v.HandOver? then m.pcs[0].job.c else m.pcs[0].c;
    assert ResumesOne(m.pcs, c) && Leaving(m, c);
    var m' := Apply(prog, m, v);
    forall x | 0 <= x < |m'.pcs|
      ensures x in m'.registry.parked <==> Awaiting(m'.pcs[x]) && !Leaving(m', x)
    {
      assert x in m.registry.parked <==> Awaiting(m.pcs[x]) && !Leaving(m, x);
    }
  }

  lemma RegisteredHandBack(m: Machine, stack: seq<nat>, g: nat)
    requires Chain(m, stack) && Registered(m) && Sane(m) && Enabled(m, HandBack(g))
    ensures Registered(TakeBack(m, g, m.pcs[g].c))
  {
    WaiterIsNext(m.pcs, stack, g);
    assert stack[0] == 0 && stack[0] != Top(stack);
    RegisteredSame(m, TakeBack(m, g, m.pcs[g].c));
  }

  lemma RegisteredQuiet(prog: Program, m: Machine, stack: seq<nat>, v: Move)
    requires Chain(m, stack) && Registered(m) && Sane(m) && Enabled(m, v)
    requires v.StartWait? || v.StartBlock? || v.TaskBegins? || v.LeaveDomain?
    ensures Registered(Apply(prog, m, v))
  {
    if v.TaskBegins? || v.LeaveDomain? { HolderIsTop(m.pcs, stack, 0); }
    if v.StartBlock? { assert v.c !in stack; }
    RegisteredSame(m, Apply(prog, m, v));
  }

  lemma RegisteredStep(prog: Program, m: Machine, stack: seq<nat>, v: Move)
    requires Chain(m, stack) && Registered(m) && Sane(m) && Enabled(m, v)
    ensures Registered(Apply(prog, m, v))
  {
    if v.Execute? { RegisteredExecute(m, stack, v.g, prog.next(v.g, m.store.log)); }
    else if v.NextJob? { RegisteredNextJob(m, stack); }
    else if v.NextAbort? { RegisteredNextAbort(prog, m, stack); }
    else if v.HandOver? || v.AbortOver? { RegisteredResumed(prog, m, stack, v); }
    else if v.HandBack? { RegisteredHandBack(m, stack, v.g); }
    else { RegisteredQuiet(prog, m, stack, v); }
  }

  // What each waiting call is due.

  lemma QueuedSettle(m: Machine, s: Store, p: nat, reason: Option<int>, m': Machine)
    requires Due(m.pcs, s.promises, s.micro) && p < |s.promises| && m'.pcs != [] && !m'.pcs[0].Resuming?
    requires m'.store == SettleP(s, p, reason) && SameAwaits(m.pcs, m'.pcs)
    ensures Queued(m')
  {
    assert [] + s.micro == s.micro && [] + m'.store.micro == m'.store.micro;
    DueSettle(m.pcs, s, p, reason, []);
    DueElsewhere(m.pcs, m'.pcs, m'.store.promises, m'.store.micro);
  }

  lemma QueuedInstr(m: Machine, g: nat, i: Instr)
    requires Due(m.pcs, m.store.promises, m.store.micro) && Noted(m) && Sane(m) && g < |m.pcs| && m.pcs[g].Code?
    requires !m.pcs[0].Resuming? && m.failure.None? && Legal(Note(m.store, Did(g, i)), g, i)
    ensures Queued(ExecuteBy(m, g, i))
  {
    var s := Note(m.store, Did(g, i));
    var m' := ExecuteBy(m, g, i);
    match i
    case Act(_) =>
    case Panic =>
    case NewPromise => DueMake(m.pcs, s, s.micro);
    case Settle(p, reason) => QueuedSettle(m, s, p, reason, m');
    case Call =>
      DueMake(m.pcs, s, s.micro);
      DueElsewhere(m.pcs, m'.pcs, Make(s).promises, s.micro);
    case Await(p) => DueThen(m.pcs, m'.pcs, s, p, g);
    case Finish(reason) =>
      if g != 0 { QueuedSettle(m, s, s.own[g], reason, m'); }
      else { DueElsewhere(m.pcs, m'.pcs, m'.store.promises, m'.store.micro); }
  }

  lemma QueuedExecute(m: Machine, stack: seq<nat>, g: nat, i: Instr)
    requires Chain(m, stack) && Queued(m) && Noted(m) && Sane(m) && g < |m.pcs| && m.pcs[g].Code?
    ensures Queued(ExecuteBy(m, g, i))
  {
    HolderIsTop(m.pcs, stack, g);
    assert m.failure.None? && !m.pcs[0].Resuming?;
    if Legal(Note(m.store, Did(g, i)), g, i) {
      QueuedInstr(m, g, i);
    } else if g != 0 {
      DueElsewhere(m.pcs, ExecuteBy(m, g, i).pcs, m.store.promises, m.store.micro);
    }
  }

  // A step that changes neither the promises nor what is left of the queue.
  lemma QueuedSame(m: Machine, m': Machine)
    requires Queued(m) && m.failure.None? && m'.pcs != []
    requires SameAwaits(m.pcs, m'.pcs) && m'.store.promises == m.store.promises && JobsLeft(m') == JobsLeft(m)
    ensures Queued(m')
  {
    DueElsewhere(m.pcs, m'.pcs, m.store.promises, JobsLeft(m));
  }

  lemma QueuedHandBack(m: Machine, stack: seq<nat>, g: nat)
    requires Chain(m, stack) && Queued(m) && Enabled(m, HandBack(g)) && m.failure.None?
    requires TakeBack(m, g, m.pcs[g].c).failure.None?
    ensures Queued(TakeBack(m, g, m.pcs[g].c))
  {
    WaiterIsNext(m.pcs, stack, g);
    assert !m.pcs[0].Resuming? by { var i := WaiterIsBelow(m.pcs, stack, g); }
    var m' := TakeBack(m, g, m.pcs[g].c);
    QueuedSame(m, m');
  }

  lemma QueuedNextJob(m: Machine, stack: seq<nat>)
    requires Chain(m, stack) && Queued(m) && Sane(m) && m.pcs[0].Draining? && m.failure.None?
    ensures m.store.micro != [] ==> Queued(BeginJob(m))
    ensures m.store.micro == [] && CheckRejections(m).failure.None? ==> Queued(CheckRejections(m))
  {
    if m.store.micro != [] {
      assert [m.store.micro[0]] + m.store.micro[1..] == m.store.micro;
      QueuedSame(m, BeginJob(m));
    } else if CheckRejections(m).failure.None? {
      QueuedSame(m, CheckRejections(m));
    }
  }

  lemma QueuedQuiet(prog: Program, m: Machine, stack: seq<nat>, v: Move)
    requires Chain(m, stack) && Queued(m) && Sane(m) && Enabled(m, v)
    requires v.StartWait? || v.StartBlock? || v.TaskBegins?
    requires m.failure.None?
    ensures Queued(Apply(prog, m, v))
  {
    if v.TaskBegins? { HolderIsTop(m.pcs, stack, 0); }
    QueuedSame(m, Apply(prog, m, v));
  }

  lemma QueuedHandOver(prog: Program, m: Machine, stack: seq<nat>)
    requires Chain(m, stack) && Queued(m) && Sane(m) && Enabled(m, HandOver) && m.failure.None?
    ensures Queued(Apply(prog, m, HandOver))
  {
    HolderIsTop(m.pcs, stack, 0);
    var job := m.pcs[0].job;
    assert JobsLeft(m)[0] == job && WaitsOn(m.pcs, job.c, job.p);
    DueResume(m.pcs, Apply(prog, m, HandOver).pcs, m.store.promises, job, m.store.micro);
  }

  lemma QueuedStep(prog: Program, m: Machine, stack: seq<nat>, v: Move)
    requires Chain(m, stack) && Registered(m) && Queued(m) && Noted(m) && Sane(m) && Enabled(m, v)
    ensures Queued(Apply(prog, m, v))
  {
    var m' := Apply(prog, m, v);
    if v.Execute? {
      QueuedExecute(m, stack, v.g, prog.next(v.g, m.store.log));
    } else if m.failure.None? && m'.failure.None? {
      match v
      case HandOver => QueuedHandOver(prog, m, stack);
      case HandBack(g) => QueuedHandBack(m, stack, g);
      case NextJob => QueuedNextJob(m, stack);
      case NextAbort => assert false;
      case AbortOver => assert false;
      case _ => QueuedQuiet(prog, m, stack, v);
    }
  }

  // The rejections noted.

  lemma NoneUnhandled(s: Store, noted: seq<nat>)
    requires Known(s, noted)
    ensures FirstUnhandled(s, noted).None? <==> forall i :: 0 <= i < |noted| ==> s.promises[noted[i]].handled
  {
    if noted != [] {
      assert Known(s, noted[1..]);
      NoneUnhandled(s, noted[1..]);
      assert noted == [noted[0]] + noted[1..];
    }
  }

  lemma NotedExecute(m: Machine, g: nat, i: Instr)
    requires Noted(m) && Sane(m) && g < |m.pcs| && m.pcs[g].Code? && m.failure.None?
    ensures Noted(ExecuteBy(m, g, i))
  {
    var s := Note(m.store, Did(g, i));
    assert NotedIn(s);
    if Legal(s, g, i) {
      match i
      case NewPromise => NotedMake(s);
      case Call => NotedMake(s);
      case Settle(p, reason) => NotedSettle(s, p, reason);
      case Await(p) => NotedThen(s, p, g);
      case Finish(reason) => if g != 0 { NotedSettle(s, s.own[g], reason); }
      case _ =>
    }
  }

  lemma NotedCheck(m: Machine)
    requires Noted(m) && Sane(m) && m.failure.None?
    ensures Noted(CheckRejections(m))
  {
    NoneUnhandled(m.store, m.store.rejected);
    forall p | 0 <= p < |m.store.promises| && m.store.promises[p].reason.Some? && !m.store.promises[p].handled
      ensures FirstUnhandled(m.store, m.store.rejected).Some?
    {
      var i :| 0 <= i < |m.store.rejected| && m.store.rejected[i] == p;
    }
  }

  lemma NotedStep(prog: Program, m: Machine, stack: seq<nat>, v: Move)
    requires Chain(m, stack) && Noted(m) && Sane(m) && Enabled(m, v)
    ensures Noted(Apply(prog, m, v))
  {
    if v.Execute? {
      HolderIsTop(m.pcs, stack, v.g);
      NotedExecute(m, v.g, prog.next(v.g, m.store.log));
    } else if v.NextJob? && m.store.micro == [] {
      NotedCheck(m);
    }
  }

  lemma InvariantStep(prog: Program, m: Machine, v: Move)
    requires Invariant(m) && Sane(m) && Enabled(m, v)
    ensures Invariant(Apply(prog, m, v))
  {
    var stack :| Chain(m, stack);
    ChainStep(prog, m, stack, v);
    RegisteredStep(prog, m, stack, v);
    QueuedStep(prog, m, stack, v);
    NotedStep(prog, m, stack, v);
  }

  lemma InvariantStarts()
    ensures Invariant(Start())
  {
    assert Chain(Start(), [0]) by { assert [0][0] == 0; }
  }
}
