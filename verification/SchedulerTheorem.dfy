/**
  What holds of every run of a domain's goroutines.
*/
module SchedulerTheorem {
  import opened Options
  import opened JobQueue
  import opened Goroutines
  import opened SchedulerInvariant
  import opened SchedulerStack
  import opened SchedulerSteps
  import opened SchedulerRefinement

  predicate Possible(prog: Program, m: Machine, moves: seq<Move>)
    decreases |moves|
  {
    moves == [] || (Sane(m) && Enabled(m, moves[0]) && Possible(prog, Apply(prog, m, moves[0]), moves[1..]))
  }

  function After(prog: Program, m: Machine, moves: seq<Move>): Machine
    requires Possible(prog, m, moves)
    decreases |moves|
  {
    if moves == [] then m else After(prog, Apply(prog, m, moves[0]), moves[1..])
  }

  predicate CanRun(prog: Program, r: Thread, ticks: seq<Tick>)
    decreases |ticks|
  {
    ticks == [] || (CanTick(r, ticks[0]) && CanRun(prog, TickOf(prog, r, ticks[0]), ticks[1..]))
  }

  function Ran(prog: Program, r: Thread, ticks: seq<Tick>): Thread
    requires CanRun(prog, r, ticks)
    decreases |ticks|
  {
    if ticks == [] then r else Ran(prog, TickOf(prog, r, ticks[0]), ticks[1..])
  }

  // The thread's part of a run: all but its silent moves.
  function Loud(prog: Program, m: Machine, moves: seq<Move>): seq<Tick>
    requires Possible(prog, m, moves)
    decreases |moves|
  {
    if moves == [] then [] else
    (if Silent(m, moves[0]) then [] else [TickFor(moves[0])]) + Loud(prog, Apply(prog, m, moves[0]), moves[1..])
  }

  /** Every reachable state has the invariant. */
  lemma {:induction false} RunsKeepTheInvariant(prog: Program, m: Machine, moves: seq<Move>)
    requires Invariant(m) && Possible(prog, m, moves)
    ensures Invariant(After(prog, m, moves)) && Sane(After(prog, m, moves))
    decreases |moves|
  {
    InvariantIsSane(m);
    if moves != [] {
      InvariantStep(prog, m, moves[0]);
      RunsKeepTheInvariant(prog, Apply(prog, m, moves[0]), moves[1..]);
    }
  }

  // One goroutine holds the token.

  /** In every reachable state one goroutine holds the token, and the ones
      waiting for it back form a stack from the driver to it. */
  lemma OneHolder(prog: Program, moves: seq<Move>)
    requires Possible(prog, Start(), moves)
    ensures var m := After(prog, Start(), moves);
      exists stack :: Stacked(m.pcs, stack)
        && (forall g :: 0 <= g < |m.pcs| ==> (HoldsToken(m.pcs[g]) <==> g == Top(stack)))
        && (forall g :: 0 <= g < |m.pcs| ==> (Waits(m.pcs[g]) <==> g in stack && g != Top(stack)))
  {
    hide Apply, Sane, Registered, Queued, Noted, Possible, After;
    InvariantStarts();
    RunsKeepTheInvariant(prog, Start(), moves);
    var m := After(prog, Start(), moves);
    var stack :| Chain(m, stack);
    forall g | 0 <= g < |m.pcs|
      ensures HoldsToken(m.pcs[g]) <==> g == Top(stack)
      ensures Waits(m.pcs[g]) <==> g in stack && g != Top(stack)
    {
      HeldOrWaits(m.pcs, stack, g);
    }
  }

  lemma HeldOrWaits(pcs: seq<Pc>, stack: seq<nat>, g: nat)
    requires Stacked(pcs, stack) && g < |pcs|
    ensures HoldsToken(pcs[g]) <==> g == Top(stack)
    ensures Waits(pcs[g]) <==> g in stack && g != Top(stack)
  {
    if HoldsToken(pcs[g]) { HolderIsTop(pcs, stack, g); }
    if g in stack {
      var i :| 0 <= i < |stack| && stack[i] == g;
      assert i == |stack| - 1 || Waits(pcs[stack[i]]);
    }
  }

  // No state deadlocks, and silent moves come to an end.

  function NextMove(m: Machine, stack: seq<nat>): Move
    requires Chain(m, stack) && !m.pcs[0].Stopped?
  {
    var g := Top(stack);
    match m.pcs[g]
    case Code => Move.Execute(g)
    case Draining => NextJob
    case Resuming(job) => if m.pcs[job.c].BeforeResume? then StartBlock(job.c) else HandOver
    case Aborting => NextAbort
    case AbortResuming(c) => if m.pcs[c].BeforeResume? then StartBlock(c) else AbortOver
    case Between => LeaveDomain
    case _ =>
      if |stack| == 1 then LeaveDomain else
      var w := stack[|stack| - 2];
      if m.pcs[w].BeforeWait? then StartWait(w) else HandBack(w)
  }

  lemma NextIsEnabled(m: Machine, stack: seq<nat>)
    requires Chain(m, stack) && !m.pcs[0].Stopped?
    ensures Enabled(m, NextMove(m, stack))
    ensures (NextMove(m, stack).LeaveDomain? || NextMove(m, stack).TaskBegins?) ==> m.pcs[0].Between?
  {
    if |stack| == 1 {
      assert stack[0] == 0;
    } else {
      var w := stack[|stack| - 2];
      assert Waits(m.pcs[w]) && m.pcs[w].c == stack[|stack| - 2 + 1];
    }
  }

  /** In every reachable state some goroutine has a step to take, until the
      driver has stopped; between tasks alone is it the driver's to choose. */
  lemma NoDeadlock(prog: Program, moves: seq<Move>)
    requires Possible(prog, Start(), moves)
    ensures var m := After(prog, Start(), moves);
      m.pcs != [] && (m.pcs[0].Stopped? || exists v :: Enabled(m, v) && (v.LeaveDomain? || v.TaskBegins? ==> m.pcs[0].Between?))
  {
    InvariantStarts();
    RunsKeepTheInvariant(prog, Start(), moves);
    var m := After(prog, Start(), moves);
    if !m.pcs[0].Stopped? {
      var stack :| Chain(m, stack);
      NextIsEnabled(m, stack);
    }
  }

  function Befores(pcs: seq<Pc>): nat {
    if pcs == [] then 0
    else (if pcs[|pcs| - 1].BeforeWait? || pcs[|pcs| - 1].BeforeResume? then 1 else 0) + Befores(pcs[..|pcs| - 1])
  }

  lemma {:induction false} FewerBefores(pcs: seq<Pc>, g: nat, pc: Pc)
    requires g < |pcs| && (pcs[g].BeforeWait? || pcs[g].BeforeResume?) && !pc.BeforeWait? && !pc.BeforeResume?
    ensures Befores(pcs[g := pc]) == Befores(pcs) - 1
  {
    var n := |pcs| - 1;
    if g < n {
      FewerBefores(pcs[..n], g, pc);
      assert pcs[g := pc][..n] == pcs[..n][g := pc];
    } else {
      assert pcs[g := pc][..n] == pcs[..n];
    }
  }

  function DriverRank(pc: Pc): nat {
    if pc.AbortResuming? then 3
    else if Waits(pc) && pc.back.ToAbort? then 2
    else if pc.Aborting? then 1
    else if pc.Stopped? then 0
    else 4
  }

  predicate Lower(m: Machine, stack: seq<nat>, m': Machine, stack': seq<nat>)
    requires m.pcs != [] && m'.pcs != []
  {
    var p, p' := |m.registry.parked|, |m'.registry.parked|;
    var d, d' := DriverRank(m.pcs[0]), DriverRank(m'.pcs[0]);
    p' < p || (p' == p && (d' < d || (d' == d && (|stack'| < |stack| || (|stack'| == |stack| && Befores(m'.pcs) < Befores(m.pcs))))))
  }

  lemma HandBackIsLower(m: Machine, stack: seq<nat>, g: nat)
    requires Chain(m, stack) && Enabled(m, HandBack(g))
    ensures Lower(m, stack, TakeBack(m, g, m.pcs[g].c), stack[..|stack| - 1])
  {
    ChainHandBack(m, stack, g);
    assert stack[0] != stack[|stack| - 1];
  }

  lemma JobIsLower(m: Machine, stack: seq<nat>)
    requires Sane(m) && m.pcs[0].Draining? && m.store.micro != []
    ensures Lower(m, stack, BeginJob(m), stack)
  {
    assert m.store.micro[0].c in m.registry.parked;
  }

  lemma PastIsLower(m: Machine, stack: seq<nat>, g: nat)
    requires Chain(m, stack) && (Enabled(m, StartWait(g)) || Enabled(m, StartBlock(g)))
    ensures var pc := if m.pcs[g].BeforeWait? then Waiting(m.pcs[g].c, m.pcs[g].back) else AtResume(m.pcs[g].p);
      Lower(m, stack, m.(pcs := m.pcs[g := pc]), stack)
  {
    var pc := if m.pcs[g].BeforeWait? then Waiting(m.pcs[g].c, m.pcs[g].back) else AtResume(m.pcs[g].p);
    FewerBefores(m.pcs, g, pc);
    if m.pcs[g].BeforeResume? { SetOutside(m.pcs, stack, g, pc); }
  }

  /** A silent move leads to a lower state. */
  lemma SilentIsLower(prog: Program, m: Machine, stack: seq<nat>, v: Move)
    requires Chain(m, stack) && Sane(m) && Registered(m) && Enabled(m, v) && Silent(m, v)
    ensures Lower(m, stack, Apply(prog, m, v), StackAfter(prog, m, stack, v))
  {
    match v
    case StartWait(g) => PastIsLower(m, stack, g);
    case StartBlock(c) => PastIsLower(m, stack, c);
    case HandBack(g) => HandBackIsLower(m, stack, g);
    case NextJob => JobIsLower(m, stack);
    case _ =>
  }

  // Refinement, both ways.

  ghost predicate StandsFor(m: Machine, r: Thread) {
    exists stack :: Chain(m, stack) && Rel(m, stack, r)
  }

  lemma {:induction false} RunIsARunOfTheThread(prog: Program, m: Machine, moves: seq<Move>, r: Thread)
    requires Invariant(m) && Possible(prog, m, moves) && StandsFor(m, r)
    ensures CanRun(prog, r, Loud(prog, m, moves))
    ensures StandsFor(After(prog, m, moves), Ran(prog, r, Loud(prog, m, moves)))
    decreases |moves|
  {
    if moves != [] {
      var stack :| Chain(m, stack) && Rel(m, stack, r);
      var v, m' := moves[0], Apply(prog, m, moves[0]);
      InvariantStep(prog, m, v);
      if Silent(m, v) {
        SimSilent(prog, m, stack, v, r);
        RunIsARunOfTheThread(prog, m', moves[1..], r);
        assert Loud(prog, m, moves) == Loud(prog, m', moves[1..]);
      } else {
        SimLoud(prog, m, stack, v, r);
        RunIsARunOfTheThread(prog, m', moves[1..], TickOf(prog, r, TickFor(v)));
        assert Loud(prog, m, moves)[1..] == Loud(prog, m', moves[1..]);
      }
    }
  }

  lemma BootStandsFor()
    ensures StandsFor(Start(), Boot())
  {
    assert [0][0] == 0;
    assert Chain(Start(), [0]) && Rel(Start(), [0], Boot());
  }

  predicate SameOutcome(m: Machine, r: Thread) {
    && m.store.log == r.store.log && m.store.promises == r.store.promises && m.store.rejected == r.store.rejected
    && (m.failure.Some? ==> r.mode == Ended(m.failure.value))
    && (m.pcs != [] && m.pcs[0].Between? ==> r.mode == Idle && m.store == r.store)
  }

  lemma StandsForIsSame(m: Machine, r: Thread)
    requires StandsFor(m, r)
    ensures SameOutcome(m, r)
  {
    var stack :| Chain(m, stack) && Rel(m, stack, r);
    if m.pcs[0].Between? { HolderIsTop(m.pcs, stack, 0); }
  }

  /** Whatever the goroutines do, the thread does in the same order, with the
      same promises, and it ends as they do. */
  lemma Refines(prog: Program, moves: seq<Move>)
    requires Possible(prog, Start(), moves)
    ensures CanRun(prog, Boot(), Loud(prog, Start(), moves))
    ensures SameOutcome(After(prog, Start(), moves), Ran(prog, Boot(), Loud(prog, Start(), moves)))
  {
    InvariantStarts();
    BootStandsFor();
    RunIsARunOfTheThread(prog, Start(), moves, Boot());
    StandsForIsSame(After(prog, Start(), moves), Ran(prog, Boot(), Loud(prog, Start(), moves)));
  }

  // The next move on the way to the thread's tick.
  lemma TowardsTick(prog: Program, m: Machine, stack: seq<nat>, r: Thread, t: Tick) returns (v: Move)
    requires Chain(m, stack) && Sane(m) && Registered(m) && Rel(m, stack, r) && CanTick(r, t)
    ensures Enabled(m, v) && (Silent(m, v) || TickFor(v) == t)
  {
    match t
    case Begins(task) => v := TaskBegins(task);
    case Leaves => v := LeaveDomain;
    case Steps =>
      NextIsEnabled(m, stack);
      v := NextMove(m, stack);
  }

  lemma {:induction false} ThreadIsFollowed(prog: Program, m: Machine, stack: seq<nat>, r: Thread, ticks: seq<Tick>) returns (moves: seq<Move>)
    requires Invariant(m) && Sane(m) && Chain(m, stack) && Rel(m, stack, r) && CanRun(prog, r, ticks)
    ensures Possible(prog, m, moves) && StandsFor(After(prog, m, moves), Ran(prog, r, ticks))
    decreases |ticks|, |m.registry.parked|, DriverRank(m.pcs[0]), |stack|, Befores(m.pcs)
  {
    moves := [];
    if ticks != [] {
      var v := TowardsTick(prog, m, stack, r, ticks[0]);
      var m', stack' := Apply(prog, m, v), StackAfter(prog, m, stack, v);
      InvariantStep(prog, m, v);
      InvariantIsSane(m');
      var rest: seq<Move>;
      if Silent(m, v) {
        SimSilent(prog, m, stack, v, r);
        SilentIsLower(prog, m, stack, v);
        rest := ThreadIsFollowed(prog, m', stack', r, ticks);
      } else {
        SimLoud(prog, m, stack, v, r);
        rest := ThreadIsFollowed(prog, m', stack', TickOf(prog, r, ticks[0]), ticks[1..]);
      }
      moves := [v] + rest;
      assert moves[1..] == rest;
    }
  }

  /** And whatever the thread does, the goroutines can. */
  lemma Realizes(prog: Program, ticks: seq<Tick>)
    requires CanRun(prog, Boot(), ticks)
    ensures exists moves :: Possible(prog, Start(), moves) && SameOutcome(After(prog, Start(), moves), Ran(prog, Boot(), ticks))
  {
    InvariantStarts();
    BootStandsFor();
    InvariantIsSane(Start());
    var stack :| Chain(Start(), stack) && Rel(Start(), stack, Boot());
    var moves := ThreadIsFollowed(prog, Start(), stack, Boot(), ticks);
    StandsForIsSame(After(prog, Start(), moves), Ran(prog, Boot(), ticks));
  }

  // The order is forced.

  // What was chosen outside: the tasks begun, and whether the domain is left.
  function Choices(ticks: seq<Tick>): seq<Tick> {
    if ticks == [] then [] else (if ticks[0].Steps? then [] else [ticks[0]]) + Choices(ticks[1..])
  }

  predicate Agree<T(==)>(a: seq<T>, b: seq<T>) { a <= b || b <= a }

  lemma {:induction false} TicksAgree(prog: Program, r: Thread, a: seq<Tick>, b: seq<Tick>)
    requires CanRun(prog, r, a) && CanRun(prog, r, b) && Agree(Choices(a), Choices(b))
    ensures Agree(a, b)
    decreases |a|
  {
    if a != [] && b != [] {
      var ca, cb := Choices(a[1..]), Choices(b[1..]);
      if !a[0].Steps? {
        assert Choices(a)[0] == a[0] && Choices(b)[0] == b[0];
        assert Choices(a)[1..] == ca && Choices(b)[1..] == cb;
      } else {
        assert Choices(a) == ca && Choices(b) == cb;
      }
      TicksAgree(prog, TickOf(prog, r, a[0]), a[1..], b[1..]);
      assert a == [a[0]] + a[1..] && b == [b[0]] + b[1..];
    }
  }

  lemma StepAppends(prog: Program, r: Thread, t: Tick)
    requires CanTick(r, t)
    ensures r.store.log <= TickOf(prog, r, t).store.log
  {
  }

  lemma {:induction false} LongerRunLogsMore(prog: Program, r: Thread, a: seq<Tick>, b: seq<Tick>)
    requires CanRun(prog, r, a) && CanRun(prog, r, b) && a <= b
    ensures Ran(prog, r, a).store.log <= Ran(prog, r, b).store.log
    decreases |b|
  {
    if b != [] {
      var r' := TickOf(prog, r, b[0]);
      StepAppends(prog, r, b[0]);
      LongerRunLogsMore(prog, r', if a == [] then [] else a[1..], b[1..]);
    }
  }

  /** Two runs of one program that differ only in how their goroutines were
      scheduled do the same things in the same order: one's log is the start of
      the other's. */
  lemma OrderIsForced(prog: Program, a: seq<Move>, b: seq<Move>)
    requires Possible(prog, Start(), a) && Possible(prog, Start(), b)
    requires Agree(Choices(Loud(prog, Start(), a)), Choices(Loud(prog, Start(), b)))
    ensures Agree(After(prog, Start(), a).store.log, After(prog, Start(), b).store.log)
  {
    Refines(prog, a);
    Refines(prog, b);
    var ta, tb := Loud(prog, Start(), a), Loud(prog, Start(), b);
    TicksAgree(prog, Boot(), ta, tb);
    if ta <= tb { LongerRunLogsMore(prog, Boot(), ta, tb); } else { LongerRunLogsMore(prog, Boot(), tb, ta); }
  }
}
