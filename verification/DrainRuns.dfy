/**
  A drain (backend/runtime/domain.go): microtasks run until there are none,
  the ones they queue included, with a failure due on the next tick raised
  before each. A script is what each microtask run does, in turn.
*/
module DrainRuns {
  import opened Options
  import opened JobQueue

  datatype Effect = Queues(job: Job) | Settles(p: nat, reason: Option<int>) | Awaits(p: nat, c: nat) | FailsNext(t: int)

  datatype Drain = Drain(store: Store, tick: Option<int>)

  // How a drain ends: quiet, with a failure of the next tick, or a rejection
  // left unhandled; or it is still going on.
  datatype End = Quiet | Ticked(t: int) | Left(p: nat) | Unfinished

  predicate Fits(n: nat, e: Effect) { (e.Settles? || e.Awaits? ==> e.p < n) }

  predicate AllFit(n: nat, effects: seq<Effect>) { forall k :: 0 <= k < |effects| ==> Fits(n, effects[k]) }

  predicate ScriptFits(n: nat, script: seq<seq<Effect>>) { forall k :: 0 <= k < |script| ==> AllFit(n, script[k]) }

  function Affected(d: Drain, e: Effect): (r: Drain)
    requires Fits(|d.store.promises|, e)
    ensures |r.store.promises| == |d.store.promises|
  {
    match e
    case Queues(job) => d.(store := d.store.(micro := d.store.micro + [job]))
    case Settles(p, reason) => d.(store := SettleP(d.store, p, reason))
    case Awaits(p, c) => d.(store := ThenResume(d.store, p, c))
    case FailsNext(t) => d.(tick := Some(t))
  }

  function AffectedAll(d: Drain, effects: seq<Effect>): (r: Drain)
    requires AllFit(|d.store.promises|, effects)
    ensures |r.store.promises| == |d.store.promises|
    decreases |effects|
  {
    if effects == [] then d else AffectedAll(Affected(d, effects[0]), effects[1..])
  }

  // One microtask taken and run.
  function Turn(d: Drain, effects: seq<Effect>): (r: Drain)
    requires d.store.micro != [] && AllFit(|d.store.promises|, effects)
    ensures |r.store.promises| == |d.store.promises|
  {
    AffectedAll(d.(store := d.store.(micro := d.store.micro[1..])), effects)
  }

  predicate GoesOn(d: Drain, script: seq<seq<Effect>>) { d.tick.None? && d.store.micro != [] && script != [] }

  // The whole of a drain, and how it ends.
  function After(d: Drain, script: seq<seq<Effect>>): (r: Drain)
    requires ScriptFits(|d.store.promises|, script)
    ensures |r.store.promises| == |d.store.promises|
    decreases |script|
  {
    if GoesOn(d, script) then After(Turn(d, script[0]), script[1..])
    else if d.tick.Some? then d.(tick := None)
    else if d.store.micro != [] then d
    else d.(store := d.store.(rejected := []))
  }

  function EndOf(d: Drain, script: seq<seq<Effect>>): End
    requires ScriptFits(|d.store.promises|, script)
    decreases |script|
  {
    if GoesOn(d, script) then EndOf(Turn(d, script[0]), script[1..])
    else if d.tick.Some? then Ticked(d.tick.value)
    else if d.store.micro != [] then Unfinished
    else if Known(d.store, d.store.rejected) && FirstUnhandled(d.store, d.store.rejected).Some?
    then Left(FirstUnhandled(d.store, d.store.rejected).value)
    else Quiet
  }

  // The microtasks a drain runs, and the ones queued meanwhile.

  function Ran(d: Drain, script: seq<seq<Effect>>): seq<Job>
    requires ScriptFits(|d.store.promises|, script)
    decreases |script|
  {
    if GoesOn(d, script) then [d.store.micro[0]] + Ran(Turn(d, script[0]), script[1..]) else []
  }

  function QueuedBy(d: Drain, e: Effect): seq<Job>
    requires Fits(|d.store.promises|, e)
  {
    match e
    case Queues(job) => [job]
    case Settles(p, _) => if d.store.promises[p].settled then [] else JobsOf(d.store.promises[p].reactions, p)
    case Awaits(p, c) => if d.store.promises[p].settled then [Job(c, p)] else []
    case FailsNext(_) => []
  }

  function QueuedByAll(d: Drain, effects: seq<Effect>): seq<Job>
    requires AllFit(|d.store.promises|, effects)
    decreases |effects|
  {
    if effects == [] then [] else QueuedBy(d, effects[0]) + QueuedByAll(Affected(d, effects[0]), effects[1..])
  }

  function Queued(d: Drain, script: seq<seq<Effect>>): seq<Job>
    requires ScriptFits(|d.store.promises|, script)
    decreases |script|
  {
    if GoesOn(d, script)
    then QueuedByAll(d.(store := d.store.(micro := d.store.micro[1..])), script[0]) + Queued(Turn(d, script[0]), script[1..])
    else []
  }

  lemma {:induction false} EffectsAppend(d: Drain, effects: seq<Effect>)
    requires AllFit(|d.store.promises|, effects)
    ensures AffectedAll(d, effects).store.micro == d.store.micro + QueuedByAll(d, effects)
    decreases |effects|
  {
    if effects != [] { EffectsAppend(Affected(d, effects[0]), effects[1..]); }
  }

  /** First in, first out: the microtasks run and those left are the ones there
      were and the ones queued on the way, in order, each once. */
  lemma {:induction false} RunsInOrder(d: Drain, script: seq<seq<Effect>>)
    requires ScriptFits(|d.store.promises|, script)
    ensures Ran(d, script) + After(d, script).store.micro == d.store.micro + Queued(d, script)
    decreases |script|
  {
    if GoesOn(d, script) {
      var rest := d.(store := d.store.(micro := d.store.micro[1..]));
      EffectsAppend(rest, script[0]);
      RunsInOrder(Turn(d, script[0]), script[1..]);
      OneBefore(d.store.micro, Ran(Turn(d, script[0]), script[1..]), After(d, script).store.micro,
                QueuedByAll(rest, script[0]), Queued(Turn(d, script[0]), script[1..]));
    }
  }

  lemma OneBefore(jobs: seq<Job>, ran: seq<Job>, left: seq<Job>, queued: seq<Job>, later: seq<Job>)
    requires jobs != [] && ran + left == (jobs[1..] + queued) + later
    ensures ([jobs[0]] + ran) + left == jobs + (queued + later)
  {
    assert ([jobs[0]] + ran) + left == [jobs[0]] + (ran + left);
    assert jobs + (queued + later) == [jobs[0]] + ((jobs[1..] + queued) + later);
  }

  lemma OneTurn(d: Drain, script: seq<seq<Effect>>)
    requires ScriptFits(|d.store.promises|, script) && GoesOn(d, script)
    ensures var next, rest := Turn(d, script[0]), script[1..];
      After(d, script) == After(next, rest) && EndOf(d, script) == EndOf(next, rest) && Ran(d, script) != []
  {
  }

  predicate Settled(s: Store) { forall i :: 0 <= i < |s.rejected| ==> s.rejected[i] < |s.promises| && s.promises[s.rejected[i]].handled }

  lemma {:induction false} NoneLeft(s: Store, noted: seq<nat>)
    requires Known(s, noted) && FirstUnhandled(s, noted).None?
    ensures forall i :: 0 <= i < |noted| ==> s.promises[noted[i]].handled
    decreases |noted|
  {
    if noted != [] { NoneLeft(s, noted[1..]); }
  }

  // The state at the check that ends a drain.
  function AtEnd(d: Drain, script: seq<seq<Effect>>): Drain
    requires ScriptFits(|d.store.promises|, script)
    decreases |script|
  {
    if GoesOn(d, script) then AtEnd(Turn(d, script[0]), script[1..]) else d
  }

  lemma {:induction false} EffectsKeepKnown(d: Drain, effects: seq<Effect>)
    requires AllFit(|d.store.promises|, effects) && Known(d.store, d.store.rejected)
    ensures Known(AffectedAll(d, effects).store, AffectedAll(d, effects).store.rejected)
    decreases |effects|
  {
    if effects != [] { EffectsKeepKnown(Affected(d, effects[0]), effects[1..]); }
  }

  /** A drain that ends quiet has run every microtask there was or came, has no
      failure waiting, and has seen every rejection it noted handled. */
  lemma {:induction false} QuietIsOver(d: Drain, script: seq<seq<Effect>>)
    requires ScriptFits(|d.store.promises|, script) && Known(d.store, d.store.rejected) && EndOf(d, script) == Quiet
    ensures Ran(d, script) == d.store.micro + Queued(d, script)
    ensures After(d, script).tick.None? && After(d, script).store.micro == [] && After(d, script).store.rejected == []
    ensures Settled(AtEnd(d, script).store)
    decreases |script|
  {
    RunsInOrder(d, script);
    QuietEnd(d, script);
  }

  lemma {:induction false} QuietEnd(d: Drain, script: seq<seq<Effect>>)
    requires ScriptFits(|d.store.promises|, script) && Known(d.store, d.store.rejected) && EndOf(d, script) == Quiet
    ensures After(d, script).tick.None? && After(d, script).store.micro == [] && After(d, script).store.rejected == []
    ensures Settled(AtEnd(d, script).store)
    decreases |script|
  {
    if GoesOn(d, script) {
      EffectsKeepKnown(d.(store := d.store.(micro := d.store.micro[1..])), script[0]);
      QuietEnd(Turn(d, script[0]), script[1..]);
    } else {
      NoneLeft(d.store, d.store.rejected);
    }
  }
}
