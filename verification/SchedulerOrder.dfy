/**
  A domain's goroutines make exactly the logs EventOrder allows, and end for
  exactly the reasons it allows: whatever queue or list the runtime keeps, the
  order of a program's events is ECMA-262's.
*/
module SchedulerOrder {
  import opened Options
  import opened JobQueue
  import opened EventOrder
  import opened Goroutines
  import opened SchedulerRefinement
  import opened SchedulerTheorem
  import opened SchedulerLog

  // The thread, first.

  lemma ThreadFollows(prog: Program, ticks: seq<Tick>) returns (queue: seq<nat>, waits: seq<seq<nat>>)
    requires CanRun(prog, Boot(), ticks)
    ensures Follows(prog, Ran(prog, Boot(), ticks), queue, waits)
  {
    BootFollows(prog);
    queue, waits := RanFollows(prog, Boot(), ticks, [], []);
  }

  lemma {:induction false} RanOn(prog: Program, r: Thread, a: seq<Tick>, t: Tick)
    requires CanRun(prog, r, a) && CanTick(Ran(prog, r, a), t)
    ensures CanRun(prog, r, a + [t]) && Ran(prog, r, a + [t]) == TickOf(prog, Ran(prog, r, a), t)
    decreases |a|
  {
    hide TickOf, CanTick;
    if a == [] {
      assert CanRun(prog, TickOf(prog, r, t), []);
      assert (a + [t])[1..] == [];
    } else {
      RanOn(prog, TickOf(prog, r, a[0]), a[1..], t);
      assert (a + [t])[1..] == a[1..] + [t];
    }
  }

  // A step the thread can take while it runs.
  lemma RunningTicks(prog: Program, r: Thread, queue: seq<nat>, waits: seq<seq<nat>>)
    requires Follows(prog, r, queue, waits) && r.mode.Running?
    ensures CanTick(r, Steps)
  {
    hide Agrees, Conforms, ModeAgrees;
    RejectedAreKnown(r.store, queue, waits);
    if r.store.micro != [] { FirstJobIsNext(r.store, queue, waits); }
  }

  lemma OneNext(log: seq<Event>, i: nat, c: nat, p: nat, j: nat, d: nat, q: nat)
    requires IsNext(log, i, c, p) && IsNext(log, j, d, q)
    ensures i == j && c == d && p == q
  {
    hide SettledAt;
    assert Ready(log, i, c, p) && Ready(log, j, d, q);
    assert i != j ==> Before(log, j, q, i, p);
    NextIsFirst(log, i, c, p, j, d, q);
  }

  lemma CodeGoesOn(prog: Program, r: Thread, queue: seq<nat>, waits: seq<seq<nat>>)
    requires Follows(prog, r, queue, waits) && r.mode.Running? && r.stack != [] && GoesOn(Executed(prog, r).store.log)
    ensures Executed(prog, r).mode.Running?
  {
    hide Agrees, Conforms, AllDone, FirstLeftAlone, NoneReady, Active, JobQueue.Execute;
    var g := r.stack[|r.stack| - 1];
    ExecutedLeaves(r, g, prog.next(g, r.store.log));
    var q, w := ExecuteFollows(prog, r, queue, waits);
  }

  // From a running state the thread makes whichever event may follow.
  lemma ThreadMakes(prog: Program, r: Thread, queue: seq<nat>, waits: seq<seq<nat>>, e: Event) returns (more: seq<Tick>)
    requires Follows(prog, r, queue, waits) && r.mode.Running? && MayFollow(prog, r.store.log, e)
    ensures CanRun(prog, r, more) && Ran(prog, r, more).store.log == r.store.log + [e]
    ensures GoesOn(r.store.log + [e]) ==> Ran(prog, r, more).mode.Running?
  {
    hide Agrees, Conforms, Open, SettledAt, NoneReady, NoneLeftAlone, JobQueue.Execute, FirstUnhandled, GoesOn;
    RunningTicks(prog, r, queue, waits);
    RanOn(prog, r, [], Steps);
    more := [] + [Steps];
    match e
    case Did(g, i) =>
      var q, w := ExecuteFollows(prog, r, queue, waits);
      if GoesOn(r.store.log + [e]) { CodeGoesOn(prog, r, queue, waits); }
    case Resumed(c, reason) =>
      var i, p :| IsNext(r.store.log, i, c, p) && reason == ReasonOf(r.store.log, p);
      NextIsReady(r.store.log, i, c, p);
      ReadyIsQueued(r.store, queue, waits, i, c, p);
      var j := JobFollows(prog, r, queue, waits);
      OneNext(r.store.log, i, c, p, j, r.store.micro[0].c, r.store.micro[0].p);
    case Began(task) =>
      NoJobToTake(r, queue, waits);
      CheckFollows(prog, r, queue, waits);
      RanOn(prog, r, more, Begins(task));
      more := more + [Begins(task)];
  }

  lemma NoJobToTake(r: Thread, queue: seq<nat>, waits: seq<seq<nat>>)
    requires Agrees(r.store, queue, waits) && NoneReady(r.store.log)
    ensures r.store.micro == []
  {
    if r.store.micro != [] { FirstJobIsReady(r.store, queue, waits); }
  }

  lemma FirstJobIsReady(s: Store, queue: seq<nat>, waits: seq<seq<nat>>)
    requires Agrees(s, queue, waits) && s.micro != []
    ensures !NoneReady(s.log)
  {
    hide Agrees, IsNext;
    FirstJobIsNext(s, queue, waits);
    NextIsReady(s.log, queue[0], s.micro[0].c, s.micro[0].p);
  }

  lemma {:induction false} RanAppend(prog: Program, r: Thread, a: seq<Tick>, b: seq<Tick>)
    requires CanRun(prog, r, a) && CanRun(prog, Ran(prog, r, a), b)
    ensures CanRun(prog, r, a + b) && Ran(prog, r, a + b) == Ran(prog, Ran(prog, r, a), b)
    decreases |a|
  {
    hide TickOf, CanTick;
    if a == [] {
      assert a + b == b;
    } else {
      RanAppend(prog, TickOf(prog, r, a[0]), a[1..], b);
      assert (a + b)[1..] == a[1..] + b;
    }
  }

  // A conforming log's events, made one after another.
  lemma {:induction false} ThreadMakesAll(prog: Program, log: seq<Event>) returns (ticks: seq<Tick>)
    requires Conforms(prog, log)
    ensures CanRun(prog, Boot(), ticks) && Ran(prog, Boot(), ticks).store.log == log
    ensures GoesOn(log) ==> Ran(prog, Boot(), ticks).mode.Running?
    decreases |log|
  {
    hide Follows, MayFollow, GoesOn;
    if log == [] {
      ticks := [];
    } else {
      var front, e := Front(log), Latest(log);
      FollowsGoesOn(prog, front, e);
      var first := ThreadMakesAll(prog, front);
      var queue, waits := ThreadFollows(prog, first);
      var more := ThreadMakes(prog, Ran(prog, Boot(), first), queue, waits, e);
      RanAppend(prog, Boot(), first, more);
      ticks := first + more;
      assert front + [e] == log;
    }
  }

  lemma FollowsGoesOn(prog: Program, log: seq<Event>, e: Event)
    requires MayFollow(prog, log, e)
    ensures GoesOn(log)
  {
  }

  /** The thread makes a log if and only if it conforms. */
  lemma ThreadMakesConforming(prog: Program, log: seq<Event>)
    ensures (exists ticks :: CanRun(prog, Boot(), ticks) && Ran(prog, Boot(), ticks).store.log == log) <==> Conforms(prog, log)
  {
    hide Agrees, ModeAgrees, MayFollow, Ran, CanRun;
    forall ticks | CanRun(prog, Boot(), ticks) && Ran(prog, Boot(), ticks).store.log == log
      ensures Conforms(prog, log)
    {
      var queue, waits := ThreadFollows(prog, ticks);
    }
    if Conforms(prog, log) { var ticks := ThreadMakesAll(prog, log); }
  }

  // And the goroutines with it.

  /** What the goroutines have done conforms, and they end only as it allows. */
  lemma GoroutinesConform(prog: Program, moves: seq<Move>)
    requires Possible(prog, Start(), moves)
    ensures var m := After(prog, Start(), moves);
      && Conforms(prog, m.store.log)
      && (m.failure.Some? ==> MayEnd(m.store.log, m.failure.value))
      && (m.pcs != [] && m.pcs[0].Between? ==> AllDone(m.store.log))
  {
    hide Agrees, Conforms, MayEnd, AllDone, Ran, CanRun, Possible, After;
    Refines(prog, moves);
    var queue, waits := ThreadFollows(prog, Loud(prog, Start(), moves));
  }

  /** The goroutines make a log if and only if it conforms. */
  lemma GoroutinesMakeConforming(prog: Program, log: seq<Event>)
    ensures (exists moves :: Possible(prog, Start(), moves) && After(prog, Start(), moves).store.log == log) <==> Conforms(prog, log)
  {
    hide Conforms, Ran, CanRun, Possible, After, MayEnd, AllDone;
    forall moves | Possible(prog, Start(), moves) && After(prog, Start(), moves).store.log == log
      ensures Conforms(prog, log)
    {
      GoroutinesConform(prog, moves);
    }
    if Conforms(prog, log) {
      var ticks := ThreadMakesAll(prog, log);
      Realizes(prog, ticks);
    }
  }

  /** Of two awaits of one promise, settled or not, the one made first goes on
      first, on every run of the goroutines. */
  lemma AwaitsGoOnInOrder(prog: Program, moves: seq<Move>, i: nat, c: nat, j: nat, d: nat, p: nat, k: nat) returns (l: nat)
    requires Possible(prog, Start(), moves)
    requires var log := After(prog, Start(), moves).store.log;
      Awaits(log, i, c, p) && Awaits(log, j, d, p) && i < j && Resumes(log, k, j, d, p)
    ensures l < k && Resumes(After(prog, Start(), moves).store.log, l, i, c, p)
  {
    hide Conforms, Possible, After, Awaits, Resumes;
    GoroutinesConform(prog, moves);
    l := FirstComeFirstServed(prog, After(prog, Start(), moves).store.log, i, c, j, d, p, k);
  }
}
