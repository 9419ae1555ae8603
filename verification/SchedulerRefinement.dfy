/**
  The goroutines of a domain do what the one-threaded machine does. Rel says
  which state of that machine a state of the goroutines stands for. A silent
  move stands for the same one as before it; every other move takes one step
  of the thread's.
*/
module SchedulerRefinement {
  import opened Options
  import opened JobQueue
  import opened Goroutines
  import opened SchedulerInvariant
  import opened SchedulerStack
  import opened SchedulerSteps

  // What the thread does in one move: a step, or the start of a task, or the
  // domain's end, which is the driver's to choose.
  datatype Tick = Steps | Begins(task: nat) | Leaves

  predicate CanTick(r: Thread, t: Tick) {
    match t
    case Steps =>
      && r.mode.Running? && Known(r.store, r.store.rejected)
      && (r.stack == [] && r.store.micro != [] ==> r.store.micro[0].p < |r.store.promises|)
    case _ => r.mode.Idle?
  }

  function TickOf(prog: Program, r: Thread, t: Tick): Thread
    requires CanTick(r, t)
  {
    match t
    case Steps => Step(prog, r)
    case Begins(task) => BeginTask(r, task)
    case Leaves => Leave(r)
  }

  // The contexts still running: not the driver's when it only drains, nor a
  // call's that is handing the token back.
  function Live(pcs: seq<Pc>, stack: seq<nat>): seq<nat>
    requires Stacked(pcs, stack)
  {
    var lo := if DriversOwn(pcs[0]) || (Waits(pcs[0]) && !pcs[0].back.ToCode?) then 1 else 0;
    var leaving := pcs[Top(stack)].Yielding? || pcs[Top(stack)].Exiting?;
    if leaving && lo < |stack| then stack[lo..|stack| - 1] else stack[lo..]
  }

  function ModeOf(m: Machine, stack: seq<nat>): Mode
    requires Stacked(m.pcs, stack)
  {
    if m.failure.Some? then Ended(m.failure.value)
    else if m.pcs[Top(stack)] == Exiting(true) then Ended(Panicked)
    else if m.pcs[0].Between? then Idle
    else Running
  }

  predicate Rel(m: Machine, stack: seq<nat>, r: Thread)
    requires Stacked(m.pcs, stack)
  {
    && r.store == m.store.(micro := JobsLeft(m))
    && r.mode == ModeOf(m, stack)
    && (r.mode.Running? ==> r.stack == Live(m.pcs, stack))
  }

  predicate Silent(m: Machine, v: Move) {
    || v.StartWait? || v.HandBack? || v.StartBlock? || v.NextAbort? || v.AbortOver?
    || (v.NextJob? && m.store.micro != [])
  }

  function TickFor(v: Move): Tick {
    match v
    case TaskBegins(task) => Begins(task)
    case LeaveDomain => Leaves
    case _ => Steps
  }

  // The program's own steps.

  lemma CodeIsLive(m: Machine, stack: seq<nat>, r: Thread)
    requires Chain(m, stack) && m.pcs[Top(stack)].Code? && Rel(m, stack, r)
    ensures r.mode.Running? && r.store == m.store && r.stack != [] && r.stack[|r.stack| - 1] == Top(stack)
  {
    if |stack| > 1 { assert Waits(m.pcs[stack[0]]); }
  }

  lemma SimExecute(prog: Program, m: Machine, stack: seq<nat>, g: nat, r: Thread)
    requires Chain(m, stack) && Sane(m) && Enabled(m, Execute(g)) && Rel(m, stack, r)
    ensures CanTick(r, Steps) && Chain(Apply(prog, m, Execute(g)), StackAfter(prog, m, stack, Execute(g)))
    ensures Rel(Apply(prog, m, Execute(g)), StackAfter(prog, m, stack, Execute(g)), Step(prog, r))
  {
    var i := prog.next(g, m.store.log);
    ChainExecute(m, stack, g, i);
    CodeIsLive(m, stack, r);
    SimInstr(m, stack, g, i, r);
  }

  lemma SimInstr(m: Machine, stack: seq<nat>, g: nat, i: Instr, r: Thread)
    requires Chain(m, stack) && Sane(m) && g < |m.pcs| && m.pcs[g].Code? && g == Top(stack) && Rel(m, stack, r)
    requires r.mode.Running? && r.stack != [] && r.stack[|r.stack| - 1] == g
    requires Chain(ExecuteBy(m, g, i), StackExecuted(m, stack, i))
    ensures Rel(ExecuteBy(m, g, i), StackExecuted(m, stack, i), JobQueue.Execute(r, g, i))
  {
    var s := Note(m.store, Did(g, i));
    if Legal(s, g, i) {
      match i
      case Call => SimCall(m, stack, g, r);
      case Await(p) => SimAwait(m, stack, g, p, r);
      case Finish(reason) => SimFinish(m, stack, g, reason, r);
      case _ =>
    }
  }

  lemma LiveCall(pcs: seq<Pc>, stack: seq<nat>)
    requires Stacked(pcs, stack) && pcs[Top(stack)].Code?
    ensures var after := pcs[Top(stack) := BeforeWait(|pcs|, ToCode)] + [Code];
      Stacked(after, stack + [|pcs|]) && Live(after, stack + [|pcs|]) == Live(pcs, stack) + [|pcs|]
  {
    hide Stacked, Live;
    PushNew(pcs, stack);
    TopIsOther(pcs, stack);
    LiveTop(pcs[Top(stack) := BeforeWait(|pcs|, ToCode)] + [Code], stack + [|pcs|]);
    LiveTop(pcs, stack);
    assert (stack + [|pcs|])[1..] == stack[1..] + [|pcs|] && (stack + [|pcs|])[0..] == stack[0..] + [|pcs|];
  }

  lemma TopIsOther(pcs: seq<Pc>, stack: seq<nat>)
    requires Stacked(pcs, stack)
    ensures stack != [] && Top(stack) < |pcs| && (Top(stack) == 0 <==> |stack| == 1)
  {
    assert |stack| > 1 ==> stack[0] != stack[|stack| - 1];
  }

  // While code runs, the driver's is live unless it drains.
  lemma LiveTop(pcs: seq<Pc>, stack: seq<nat>)
    requires Stacked(pcs, stack) && pcs[Top(stack)].Code?
    ensures |stack| > 1 ==> Waits(pcs[0])
    ensures Live(pcs, stack) == if |stack| > 1 && !pcs[0].back.ToCode? then stack[1..] else stack[0..]
  {
    if |stack| > 1 { assert Waits(pcs[stack[0]]) && pcs[stack[0]].c == stack[0 + 1]; }
  }

  lemma SimCall(m: Machine, stack: seq<nat>, g: nat, r: Thread)
    requires Chain(m, stack) && Sane(m) && g < |m.pcs| && m.pcs[g].Code? && g == Top(stack) && Rel(m, stack, r)
    requires r.mode.Running? && r.stack != [] && Chain(ExecuteBy(m, g, Call), stack + [|m.pcs|])
    ensures Rel(ExecuteBy(m, g, Call), stack + [|m.pcs|], JobQueue.Execute(r, g, Call))
  {
    var m' := ExecuteBy(m, g, Call);
    assert Top(stack + [|m.pcs|]) == |m.pcs|;
    LiveCall(m.pcs, stack);
  }

  lemma SimAwait(m: Machine, stack: seq<nat>, g: nat, p: nat, r: Thread)
    requires Chain(m, stack) && Sane(m) && 0 < g < |m.pcs| && m.pcs[g].Code? && g == Top(stack) && Rel(m, stack, r)
    requires r.mode.Running? && r.stack != [] && p < |m.store.promises| && Chain(ExecuteBy(m, g, Await(p)), stack)
    ensures Rel(ExecuteBy(m, g, Await(p)), stack, JobQueue.Execute(r, g, Await(p)))
  {
    hide SettleP;
    assert Live(ExecuteBy(m, g, Await(p)).pcs, stack) == r.stack[..|r.stack| - 1];
  }

  lemma SimFinish(m: Machine, stack: seq<nat>, g: nat, reason: Option<int>, r: Thread)
    requires Chain(m, stack) && Sane(m) && g < |m.pcs| && m.pcs[g].Code? && g == Top(stack) && Rel(m, stack, r)
    requires r.mode.Running? && r.stack != [] && Legal(m.store, g, Finish(reason)) && Chain(ExecuteBy(m, g, Finish(reason)), stack)
    ensures Rel(ExecuteBy(m, g, Finish(reason)), stack, JobQueue.Execute(r, g, Finish(reason)))
  {
    var m' := ExecuteBy(m, g, Finish(reason));
    if g != 0 || reason.None? {
      assert Live(m'.pcs, stack) == r.stack[..|r.stack| - 1];
    }
  }

  // The driver's.

  lemma SimHandOver(prog: Program, m: Machine, stack: seq<nat>, r: Thread)
    requires Chain(m, stack) && Sane(m) && Enabled(m, HandOver) && Rel(m, stack, r)
    ensures CanTick(r, Steps) && Chain(Apply(prog, m, HandOver), StackAfter(prog, m, stack, HandOver))
    ensures Rel(Apply(prog, m, HandOver), StackAfter(prog, m, stack, HandOver), Step(prog, r))
  {
    ChainResumed(m, stack, HandOver, prog);
    var job := m.pcs[0].job;
    assert r.store.micro == [job] + m.store.micro;
    assert r.store.micro[1..] == m.store.micro;
    assert Live(Apply(prog, m, HandOver).pcs, [0, job.c]) == [job.c];
  }

  lemma SimEndDrain(prog: Program, m: Machine, stack: seq<nat>, r: Thread)
    requires Chain(m, stack) && Sane(m) && Registered(m) && Enabled(m, NextJob) && m.store.micro == [] && Rel(m, stack, r)
    ensures CanTick(r, Steps) && Chain(Apply(prog, m, NextJob), stack)
    ensures Rel(Apply(prog, m, NextJob), stack, Step(prog, r))
  {
    ChainNextJob(m, stack);
  }

  lemma SimBetween(prog: Program, m: Machine, stack: seq<nat>, v: Move, r: Thread)
    requires Chain(m, stack) && Sane(m) && Enabled(m, v) && (v.TaskBegins? || v.LeaveDomain?) && Rel(m, stack, r)
    ensures CanTick(r, TickFor(v)) && Chain(Apply(prog, m, v), stack)
    ensures Rel(Apply(prog, m, v), stack, TickOf(prog, r, TickFor(v)))
  {
    ChainBetween(prog, m, stack, v);
  }

  // The silent ones.

  lemma SimHandBack(m: Machine, stack: seq<nat>, g: nat, r: Thread)
    requires Chain(m, stack) && Enabled(m, HandBack(g)) && Rel(m, stack, r)
    ensures |stack| > 1 && m.pcs[g].c == Top(stack)
    ensures Chain(TakeBack(m, g, Top(stack)), stack[..|stack| - 1])
    ensures Rel(TakeBack(m, g, Top(stack)), stack[..|stack| - 1], r)
  {
    ChainHandBack(m, stack, g);
    var m' := TakeBack(m, g, Top(stack));
    var below := stack[..|stack| - 1];
    assert Top(below) == g;
    assert m.pcs[0].Resuming? <==> m'.pcs[0].Resuming?;
    if r.mode.Running? {
      assert Live(m'.pcs, below) == Live(m.pcs, stack);
    }
  }

  lemma SimStartWait(m: Machine, stack: seq<nat>, g: nat, r: Thread)
    requires Chain(m, stack) && Enabled(m, StartWait(g)) && Rel(m, stack, r)
    ensures Chain(m.(pcs := m.pcs[g := Waiting(m.pcs[g].c, m.pcs[g].back)]), stack)
    ensures Rel(m.(pcs := m.pcs[g := Waiting(m.pcs[g].c, m.pcs[g].back)]), stack, r)
  {
    ChainStartWait(m, stack, g);
  }

  lemma SimStartBlock(m: Machine, stack: seq<nat>, c: nat, r: Thread)
    requires Chain(m, stack) && Enabled(m, StartBlock(c)) && Rel(m, stack, r)
    ensures Chain(m.(pcs := m.pcs[c := AtResume(m.pcs[c].p)]), stack)
    ensures Rel(m.(pcs := m.pcs[c := AtResume(m.pcs[c].p)]), stack, r)
  {
    ChainStartBlock(m, stack, c);
    assert c != 0 && c != Top(stack);
  }

  lemma SimBeginJob(m: Machine, stack: seq<nat>, r: Thread)
    requires Chain(m, stack) && Sane(m) && Registered(m) && m.pcs[0].Draining? && m.store.micro != [] && Rel(m, stack, r)
    ensures Chain(BeginJob(m), stack) && Rel(BeginJob(m), stack, r)
  {
    ChainNextJob(m, stack);
    assert [m.store.micro[0]] + m.store.micro[1..] == m.store.micro;
  }

  lemma SimAbort(prog: Program, m: Machine, stack: seq<nat>, v: Move, r: Thread)
    requires Chain(m, stack) && Sane(m) && Registered(m) && Enabled(m, v) && (v.NextAbort? || v.AbortOver?) && Rel(m, stack, r)
    ensures Chain(Apply(prog, m, v), StackAfter(prog, m, stack, v)) && Rel(Apply(prog, m, v), StackAfter(prog, m, stack, v), r)
  {
    if v.NextAbort? { ChainNextAbort(m, stack, prog); } else { ChainResumed(m, stack, v, prog); }
  }

  lemma SimSilent(prog: Program, m: Machine, stack: seq<nat>, v: Move, r: Thread)
    requires Chain(m, stack) && Sane(m) && Registered(m) && Enabled(m, v) && Silent(m, v) && Rel(m, stack, r)
    ensures Chain(Apply(prog, m, v), StackAfter(prog, m, stack, v)) && Rel(Apply(prog, m, v), StackAfter(prog, m, stack, v), r)
  {
    match v
    case StartWait(g) => SimStartWait(m, stack, g, r);
    case HandBack(g) => SimHandBack(m, stack, g, r);
    case StartBlock(c) => SimStartBlock(m, stack, c, r);
    case NextJob => SimBeginJob(m, stack, r);
    case _ => SimAbort(prog, m, stack, v, r);
  }

  lemma SimLoud(prog: Program, m: Machine, stack: seq<nat>, v: Move, r: Thread)
    requires Chain(m, stack) && Sane(m) && Registered(m) && Enabled(m, v) && !Silent(m, v) && Rel(m, stack, r)
    ensures CanTick(r, TickFor(v)) && Chain(Apply(prog, m, v), StackAfter(prog, m, stack, v))
    ensures Rel(Apply(prog, m, v), StackAfter(prog, m, stack, v), TickOf(prog, r, TickFor(v)))
  {
    match v
    case Execute(g) => SimExecute(prog, m, stack, g, r);
    case HandOver => SimHandOver(prog, m, stack, r);
    case NextJob => SimEndDrain(prog, m, stack, r);
    case _ => SimBetween(prog, m, stack, v, r);
  }
}
