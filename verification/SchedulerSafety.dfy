/**
  Promises settle once, each waiting call is resumed once, a drain leaves no
  rejection unhandled, and abort ends every parked call with one handoff each
  and none of the program's code.
*/
module SchedulerSafety {
  import opened Options
  import opened JobQueue
  import opened Goroutines
  import opened SchedulerInvariant
  import opened SchedulerStack
  import opened SchedulerSteps
  import opened SchedulerRefinement
  import opened SchedulerTheorem

  // Promises.

  predicate Kept(s: Store, t: Store) {
    && |s.promises| <= |t.promises|
    && (forall p :: 0 <= p < |s.promises| && s.promises[p].settled ==>
          t.promises[p].settled && t.promises[p].reason == s.promises[p].reason)
    && (forall p :: 0 <= p < |s.promises| && s.promises[p].handled ==> t.promises[p].handled)
  }

  lemma StepKeeps(prog: Program, m: Machine, v: Move)
    requires Sane(m) && Enabled(m, v)
    ensures Kept(m.store, Apply(prog, m, v).store)
  {
  }

  /** A promise once settled keeps what it settled to, whatever else runs. */
  lemma {:induction false} SettledForever(prog: Program, m: Machine, moves: seq<Move>)
    requires Possible(prog, m, moves)
    ensures Kept(m.store, After(prog, m, moves).store)
    decreases |moves|
  {
    if moves != [] {
      StepKeeps(prog, m, moves[0]);
      SettledForever(prog, Apply(prog, m, moves[0]), moves[1..]);
    }
  }

  // A call in an Await of p is due one resume: one job once p has settled, and
  // before that one of p's reactions; no other promise and no other job has it.
  predicate DueExactlyOne(m: Machine, c: nat)
    requires c < |m.pcs| && Awaiting(m.pcs[c])
  {
    var p, jobs, promises := AwaitedBy(m.pcs[c]), JobsLeft(m), m.store.promises;
    && p < |promises|
    && (if promises[p].settled
        then exists i :: 0 <= i < |jobs| && jobs[i] == Job(c, p)
        else exists i :: 0 <= i < |promises[p].reactions| && promises[p].reactions[i] == c)
    && (!promises[p].settled ==> forall i :: 0 <= i < |jobs| ==> jobs[i].c != c)
    && (forall i, j :: 0 <= i < |jobs| && 0 <= j < |jobs| && jobs[i].c == c == jobs[j].c ==> i == j)
    && (forall q, i :: 0 <= q < |promises| && 0 <= i < |promises[q].reactions| && promises[q].reactions[i] == c ==>
          q == p && !promises[q].settled)
    && (forall i, j :: 0 <= i < j < |promises[p].reactions| ==> promises[p].reactions[i] != promises[p].reactions[j])
  }

  /** In every reachable state of a domain that has not failed, each call in an
      Await is due exactly one resume. */
  lemma DueOnce(prog: Program, moves: seq<Move>, c: nat)
    requires Possible(prog, Start(), moves) && After(prog, Start(), moves).failure.None?
    requires c < |After(prog, Start(), moves).pcs| && Awaiting(After(prog, Start(), moves).pcs[c])
    ensures DueExactlyOne(After(prog, Start(), moves), c)
  {
    InvariantStarts();
    RunsKeepTheInvariant(prog, Start(), moves);
    DueInState(After(prog, Start(), moves), c);
  }

  lemma DueInState(m: Machine, c: nat)
    requires Queued(m) && m.failure.None? && c < |m.pcs| && Awaiting(m.pcs[c])
    ensures DueExactlyOne(m, c)
  {
    var jobs := JobsLeft(m);
    assert IsDue(m.pcs, m.store.promises, jobs, c);
    forall q, i | 0 <= q < |m.store.promises| && 0 <= i < |m.store.promises[q].reactions| && m.store.promises[q].reactions[i] == c
      ensures q == AwaitedBy(m.pcs[c])
    {
      assert WaitsOn(m.pcs, m.store.promises[q].reactions[i], q);
    }
    forall i | 0 <= i < |jobs| && jobs[i].c == c
      ensures jobs[i].p == AwaitedBy(m.pcs[c])
    {
      assert WaitsOn(m.pcs, jobs[i].c, jobs[i].p);
    }
  }

  // Rejections.

  predicate LeftUnhandled(s: Store, p: nat) {
    p < |s.promises| && s.promises[p].settled && s.promises[p].reason.Some? && !s.promises[p].handled
  }

  lemma {:induction false} FirstIsFirst(s: Store, noted: seq<nat>) returns (k: nat)
    requires Known(s, noted) && FirstUnhandled(s, noted).Some?
    ensures k < |noted| && FirstUnhandled(s, noted) == Some(noted[k]) && !s.promises[noted[k]].handled
    ensures forall i :: 0 <= i < k ==> s.promises[noted[i]].handled
  {
    if !s.promises[noted[0]].handled { k := 0; }
    else {
      var rest := FirstIsFirst(s, noted[1..]);
      k := rest + 1;
    }
  }

  /** The end of a drain fails the domain exactly when a promise is rejected
      and unhandled, and with the first that was noted; if it does not fail,
      there is none, and none is left noted. */
  lemma DrainEnds(m: Machine, prog: Program)
    requires Invariant(m) && Sane(m) && m.pcs[0].Draining? && m.store.micro == []
    ensures var m' := Apply(prog, m, NextJob);
      && (m'.pcs[0].Between? <==> forall p :: 0 <= p < |m.store.promises| ==> !LeftUnhandled(m.store, p))
      && (m'.pcs[0].Between? || exists k ::
            && 0 <= k < |m.store.rejected| && m'.failure == Some(Unhandled(m.store.rejected[k]))
            && LeftUnhandled(m.store, m.store.rejected[k])
            && forall i :: 0 <= i < k ==> !LeftUnhandled(m.store, m.store.rejected[i]))
      && m'.store == m.store.(rejected := [])
  {
    var s := m.store;
    assert !Ending(m.pcs[0]);
    assert NotedIn(s);
    if FirstUnhandled(s, s.rejected).Some? {
      var k := FirstIsFirst(s, s.rejected);
      assert LeftUnhandled(s, s.rejected[k]);
    } else {
      NoneUnhandled(s, s.rejected);
      forall p | 0 <= p < |s.promises|
        ensures !LeftUnhandled(s, p)
      {
        assert p in s.rejected || !LeftUnhandled(s, p);
      }
    }
  }

  // Abort.

  // The handoffs abort still owes.
  function Owed(m: Machine): nat
    requires m.pcs != []
  {
    |m.registry.parked| + if m.pcs[0].AbortResuming? then 1 else 0
  }

  function Handoffs(moves: seq<Move>): nat {
    if moves == [] then 0 else (if moves[0].AbortOver? then 1 else 0) + Handoffs(moves[1..])
  }

  lemma AbortStep(prog: Program, m: Machine, stack: seq<nat>, v: Move)
    requires Chain(m, stack) && Sane(m) && Registered(m) && Enabled(m, v) && m.failure.Some?
    ensures Silent(m, v)
    ensures var m' := Apply(prog, m, v);
      && m'.failure == m.failure && m'.store == m.store
      && Owed(m) == Owed(m') + if v.AbortOver? then 1 else 0
  {
    assert Ending(m.pcs[0]);
    if v.HandBack? { ChainHandBack(m, stack, v.g); assert stack[|stack| - 2] == 0; }
    if v.Execute? { HolderIsTop(m.pcs, stack, v.g); }
  }

  /** A domain that has failed does nothing more of the program's, and hands
      the token to each call still parked once. */
  lemma {:induction false} AbortIsExact(prog: Program, m: Machine, moves: seq<Move>)
    requires Invariant(m) && m.failure.Some? && Possible(prog, m, moves)
    ensures var m' := After(prog, m, moves);
      && m'.failure == m.failure && m'.store == m.store && m'.pcs != []
      && Owed(m) == Handoffs(moves) + Owed(m')
    decreases |moves|
  {
    InvariantIsSane(m);
    if moves != [] {
      var stack :| Chain(m, stack);
      AbortStep(prog, m, stack, moves[0]);
      InvariantStep(prog, m, moves[0]);
      AbortIsExact(prog, Apply(prog, m, moves[0]), moves[1..]);
    }
  }

  /** When a domain has stopped, the registry is empty and every call is gone. */
  lemma StoppedIsOver(prog: Program, moves: seq<Move>)
    requires Possible(prog, Start(), moves)
    ensures var m := After(prog, Start(), moves);
      m.pcs != [] && (m.pcs[0].Stopped? ==>
        m.registry.parked == [] && Owed(m) == 0 && forall c :: 0 < c < |m.pcs| ==> m.pcs[c].Gone?)
  {
    InvariantStarts();
    RunsKeepTheInvariant(prog, Start(), moves);
    var m := After(prog, Start(), moves);
    if m.pcs[0].Stopped? { StoppedState(m); }
  }

  lemma StoppedState(m: Machine)
    requires Invariant(m) && Sane(m) && m.pcs[0].Stopped?
    ensures m.registry.parked == [] && Owed(m) == 0
    ensures forall c :: 0 < c < |m.pcs| ==> m.pcs[c].Gone?
  {
    var stack :| Chain(m, stack);
    HolderIsTop(m.pcs, stack, 0);
    forall c | 0 < c < |m.pcs|
      ensures m.pcs[c].Gone?
    {
      assert c !in stack;
      assert c !in m.registry.parked;
    }
  }

  /** Abort ends: from any failed state the domain stops. */
  lemma {:induction false} AbortEnds(prog: Program, m: Machine, stack: seq<nat>) returns (moves: seq<Move>)
    requires Invariant(m) && Chain(m, stack) && m.failure.Some?
    ensures Possible(prog, m, moves) && m.pcs != [] && After(prog, m, moves).pcs != [] && After(prog, m, moves).pcs[0].Stopped?
    decreases |m.registry.parked|, DriverRank(m.pcs[0]), |stack|, Befores(m.pcs)
  {
    InvariantIsSane(m);
    moves := [];
    if !m.pcs[0].Stopped? {
      NextIsEnabled(m, stack);
      var v := NextMove(m, stack);
      AbortStep(prog, m, stack, v);
      SilentIsLower(prog, m, stack, v);
      InvariantStep(prog, m, v);
      ChainStep(prog, m, stack, v);
      var rest := AbortEnds(prog, Apply(prog, m, v), StackAfter(prog, m, stack, v));
      moves := [v] + rest;
      assert moves[1..] == rest;
    }
  }
}
