/**
  A domain's fields, updated in place as the runtime updates them
  (backend/runtime/promise.go, domain.go, parked.go, rejection.go). Each method
  is proved to do what the transition system's function does to the state the
  fields stand for.
*/
module DomainObjects {
  import opened Options
  import opened JobQueue
  import opened Goroutines
  import opened Runs = DrainRuns

  class Co {
    const id: nat
    var parkedAt: nat

    constructor (id: nat)
      ensures this.id == id && parkedAt == 0
    {
      this.id, parkedAt := id, 0;
    }
  }

  class Settlement {
    const id: nat
    var settled: bool
    var reason: Option<int>
    var handled: bool
    var reactions: seq<nat>
    var value: int          // Promise's own, what it was fulfilled with

    constructor (id: nat)
      ensures this.id == id && Value() == PENDING
    {
      this.id, settled, reason, handled, reactions, value := id, false, None, false, [], 0;
    }

    function Value(): Promise
      reads this
    {
      Promise(settled, reason, handled, reactions)
    }
  }

  // What a microtask's code does to its domain, a step at a time.
  datatype Act =
    | Queue(job: Job)
    | Fulfil(p: Settlement, v: int)
    | Refuse(p: Settlement, v: int)
    | React(p: Settlement, co: Co)
    | FailNext(t: int)

  function EffectOf(a: Act): Effect {
    match a
    case Queue(job) => Queues(job)
    case Fulfil(p, _) => Settles(p.id, None)
    case Refuse(p, v) => Settles(p.id, Some(v))
    case React(p, co) => Awaits(p.id, co.id)
    case FailNext(t) => FailsNext(t)
  }

  function EffectsOf(acts: seq<Act>): seq<Effect> { seq(|acts|, k requires 0 <= k < |acts| => EffectOf(acts[k])) }

  function Scripted(script: seq<seq<Act>>): seq<seq<Effect>> {
    seq(|script|, k requires 0 <= k < |script| => EffectsOf(script[k]))
  }

  // What the driver is running, for the report of an uncaught error.
  datatype Phase = InCode | InCallback | InTimer | InMicrotask

  class Domain {
    // micro[microHead..] are still to run; a slot is cleared as its job is taken.
    var micro: seq<Option<Job>>
    var microHead: nat
    var rejected: seq<Settlement>
    var parked: seq<Co>
    var tick: Option<int>
    var running: Phase

    // Every promise and call the domain has made, each at its id.
    ghost var promises: seq<Settlement>
    ghost var calls: seq<Co>

    ghost predicate Valid()
      reads this, promises, calls
    {
      && microHead <= |micro|
      && (forall i :: microHead <= i < |micro| ==> micro[i].Some?)
      && (forall i :: 0 <= i < |promises| ==> promises[i].id == i)
      && (forall i :: 0 <= i < |calls| ==> calls[i].id == i)
      && (forall i :: 0 <= i < |rejected| ==> Mine(rejected[i]))
      && (forall i :: 0 <= i < |parked| ==> parked[i].id < |calls| && calls[parked[i].id] == parked[i] && parked[i].parkedAt == i)
    }

    ghost predicate Mine(p: Settlement)
      reads this, promises
    {
      p.id < |promises| && promises[p.id] == p
    }

    ghost predicate Made(co: Co)
      reads this, calls
    {
      co.id < |calls| && calls[co.id] == co
    }

    ghost function Promises(): seq<Promise>
      reads this, promises
    {
      seq(|promises|, i requires 0 <= i < |promises| reads this, promises => promises[i].Value())
    }

    ghost function Jobs(): seq<Job>
      requires microHead <= |micro| && forall i :: microHead <= i < |micro| ==> micro[i].Some?
      reads this
    {
      seq(|micro| - microHead, i requires 0 <= i < |micro| - microHead reads this =>
        if microHead + i < |micro| && micro[microHead + i].Some? then micro[microHead + i].value else Job(0, 0))
    }

    ghost function Noted(): seq<nat>
      reads this
    {
      seq(|rejected|, i requires 0 <= i < |rejected| reads this => if i < |rejected| then rejected[i].id else 0)
    }

    /** The state of the transition system the fields stand for. */
    ghost function Contents(): Store
      requires Valid()
      reads this, promises, calls
    {
      EMPTY.(promises := Promises(), micro := Jobs(), rejected := Noted())
    }

    ghost function Parked(): Registry
      reads this, calls
    {
      Registry(seq(|parked|, i requires 0 <= i < |parked| reads this => if i < |parked| then parked[i].id else 0),
               seq(|calls|, i requires 0 <= i < |calls| reads this, calls => calls[i].parkedAt))
    }

    constructor ()
      ensures Valid() && Contents() == EMPTY.(own := [0]) && Parked() == Registry([], [])
      ensures promises == [] && calls == []
    {
      micro, microHead, rejected, parked, promises, calls := [], 0, [], [], [], [];
      tick, running := None, InCode;
    }

    method QueueMicrotask(job: Job)
      requires Valid()
      modifies this`micro
      ensures Valid() && Contents() == old(Contents()).(micro := old(Contents()).micro + [job])
    {
      micro := micro + [Some(job)];
      assert Jobs() == old(Jobs()) + [job];
    }

    method Resolve(p: Settlement, v: int)
      requires Valid() && Mine(p)
      modifies this`micro, p
      ensures Valid() && Contents() == SettleP(old(Contents()), p.id, None)
      ensures p.value == if old(p.settled) then old(p.value) else v
    {
      assert Promises()[p.id] == p.Value();
      if p.settled { return; }
      p.value := v;
      assert Promises() == old(Promises());
      Settle(p, None);
    }

    method Reject(p: Settlement, v: int)
      requires Valid() && Mine(p)
      modifies this`micro, this`rejected, p
      ensures Valid() && Contents() == SettleP(old(Contents()), p.id, Some(v)) && p.value == old(p.value)
    {
      assert Promises()[p.id] == p.Value();
      if p.settled { return; }
      if !p.handled {
        rejected := rejected + [p];
        assert Noted() == old(Noted()) + [p.id];
      }
      assert Promises() == old(Promises());
      Settle(p, Some(v));
    }

    method Settle(p: Settlement, reason: Option<int>)
      requires Valid() && Mine(p) && !p.settled
      modifies this`micro, p
      ensures Valid() && Contents() == old(Contents()).(
        promises := old(Contents()).promises[p.id := Promise(true, reason, old(p.handled), [])],
        micro := old(Contents()).micro + JobsOf(old(p.reactions), p.id))
      ensures p.value == old(p.value)
    {
      p.settled, p.reason := true, reason;
      for k := 0 to |p.reactions|
        invariant Valid() && p.reactions == old(p.reactions) && p.handled == old(p.handled) && p.settled && p.reason == reason
        invariant p.value == old(p.value)
        invariant Jobs() == old(Jobs()) + JobsOf(old(p.reactions)[..k], p.id)
        invariant forall i :: 0 <= i < |promises| && i != p.id ==> promises[i].Value() == old(promises[i].Value())
      {
        QueueMicrotask(Job(p.reactions[k], p.id));
        assert old(p.reactions)[..k + 1] == old(p.reactions)[..k] + [old(p.reactions)[k]];
        assert JobsOf(old(p.reactions)[..k + 1], p.id) == JobsOf(old(p.reactions)[..k], p.id) + [Job(old(p.reactions)[k], p.id)];
      }
      assert old(p.reactions)[..|p.reactions|] == old(p.reactions);
      p.reactions := [];
      assert Promises() == old(Promises())[p.id := Promise(true, reason, old(p.handled), [])];
    }

    method Then(p: Settlement, co: Co)
      requires Valid() && Mine(p)
      modifies this`micro, p
      ensures Valid() && Contents() == ThenResume(old(Contents()), p.id, co.id)
      ensures p.handled && p.reactions == if p.settled then old(p.reactions) else old(p.reactions) + [co.id]
      ensures Jobs() == if p.settled then old(Jobs()) + [Job(co.id, p.id)] else old(Jobs())
    {
      assert Promises()[p.id] == p.Value();
      p.handled := true;
      if p.settled {
        QueueMicrotask(Job(co.id, p.id));
        assert Promises() == old(Promises())[p.id := p.Value()];
        return;
      }
      p.reactions := p.reactions + [co.id];
      assert Promises() == old(Promises())[p.id := p.Value()];
    }

    ghost predicate ActsMine(acts: seq<Act>)
      reads this, promises
    {
      forall k :: 0 <= k < |acts| ==> (acts[k].Fulfil? || acts[k].Refuse? || acts[k].React? ==> Mine(acts[k].p))
    }

    ghost function Draining(): Drain
      requires Valid()
      reads this, promises, calls
    {
      Drain(Contents(), tick)
    }

    // One step of a microtask's code.
    method Perform(a: Act)
      requires Valid() && ActsMine([a])
      modifies this`micro, this`rejected, this`tick, promises
      ensures Valid() && Fits(|promises|, EffectOf(a)) && Draining() == Affected(old(Draining()), EffectOf(a))
    {
      assert [a][0] == a;
      match a
      case Queue(job) => QueueMicrotask(job);
      case Fulfil(p, v) => Resolve(p, v);
      case Refuse(p, v) => Reject(p, v);
      case React(p, co) => Then(p, co);
      case FailNext(t) => tick := Some(t); assert Promises() == old(Promises());
    }

    // A microtask's run.
    method RunJob(acts: seq<Act>)
      requires Valid() && ActsMine(acts)
      modifies this`micro, this`rejected, this`tick, promises
      ensures Valid() && AllFit(|promises|, EffectsOf(acts)) && Draining() == AffectedAll(old(Draining()), EffectsOf(acts))
    {
      assert EffectsOf(acts)[0..] == EffectsOf(acts);
      for k := 0 to |acts|
        invariant Valid() && AllFit(|promises|, EffectsOf(acts)) && |old(Draining()).store.promises| == |promises|
        invariant AffectedAll(Draining(), EffectsOf(acts)[k..]) == AffectedAll(old(Draining()), EffectsOf(acts))
      {
        assert EffectsOf(acts)[k..][0] == EffectOf(acts[k]) && EffectsOf(acts)[k..][1..] == EffectsOf(acts)[k + 1..];
        assert [acts[k]][0] == acts[k];
        Perform(acts[k]);
      }
    }

    // A turn of drain's loop.
    method TakeTurn(acts: seq<Act>)
      requires Valid() && ActsMine(acts) && tick.None? && Contents().micro != []
      modifies this`micro, this`microHead, this`rejected, this`tick, this`running, promises
      ensures Valid() && running == InMicrotask
      ensures AllFit(|promises|, EffectsOf(acts)) && |old(Draining()).store.promises| == |promises|
      ensures Draining() == Turn(old(Draining()), EffectsOf(acts))
    {
      hide AffectedAll;
      var job := NextMicrotask();
      ghost var left := Contents();
      running := InMicrotask;
      assert Promises() == left.promises && Jobs() == left.micro && Noted() == left.rejected;
      RunJob(acts);
    }

    /** drain, over a script: the queue is run down in order, the jobs queued
        on the way included, and how it ends is said. */
    method RunDrain(script: seq<seq<Act>>) returns (end: End)
      requires Valid() && forall k :: 0 <= k < |script| ==> ActsMine(script[k])
      modifies this`micro, this`microHead, this`rejected, this`tick, this`running, promises
      ensures Valid() && ScriptFits(|promises|, Scripted(script)) && |old(Draining()).store.promises| == |promises|
      ensures Draining() == Runs.After(old(Draining()), Scripted(script)) && end == EndOf(old(Draining()), Scripted(script))
      ensures running == if Ran(old(Draining()), Scripted(script)) == [] then old(running) else InMicrotask
    {
      hide Turn, AffectedAll, Affected, FirstUnhandled, EffectOf;
      ghost var was, all := Draining(), Scripted(script);
      var k := 0;
      assert all[0..] == all;
      ScriptIsMine(script);
      while tick.None? && microHead < |micro| && k < |script|
        invariant 0 <= k <= |script| && Valid() && ScriptFits(|promises|, all) && |was.store.promises| == |promises|
        invariant Runs.After(Draining(), all[k..]) == Runs.After(was, all) && EndOf(Draining(), all[k..]) == EndOf(was, all)
        invariant if k == 0 then running == old(running) && Draining() == was else running == InMicrotask && Ran(was, all) != []
        decreases |script| - k
      {
        assert all[k..][0] == EffectsOf(script[k]) && all[k..][1..] == all[k + 1..];
        OneTurn(Draining(), all[k..]);
        TakeTurn(script[k]);
        k := k + 1;
      }
      end := Finish(all[k..]);
    }

    // What drain does when no microtask is run: a failure due, or the check.
    method Finish(ghost script: seq<seq<Effect>>) returns (end: End)
      requires Valid() && ScriptFits(|promises|, script) && !GoesOn(Draining(), script)
      modifies this`micro, this`microHead, this`rejected, this`tick
      ensures Valid() && |old(Draining()).store.promises| == |promises|
      ensures Draining() == Runs.After(old(Draining()), script) && end == EndOf(old(Draining()), script)
    {
      assert Promises() == Draining().store.promises && Jobs() == Draining().store.micro;
      if tick.Some? {
        end := Ticked(tick.value);
        tick := None;
        return;
      }
      if microHead < |micro| { return Unfinished; }
      var none := NextMicrotask();
      var left := CheckRejections();
      end := if left.Some? then Left(left.value.id) else Quiet;
    }

    ghost predicate ScriptMine(script: seq<seq<Act>>)
      reads this, promises
    {
      forall k :: 0 <= k < |script| ==> ActsMine(script[k])
    }

    lemma ScriptIsMine(script: seq<seq<Act>>)
      requires ScriptMine(script)
      ensures ScriptFits(|promises|, Scripted(script))
    {
    }

    /** The drain's next job, if there is one; else the queue is emptied. */
    method NextMicrotask() returns (job: Option<Job>)
      requires Valid()
      modifies this`micro, this`microHead
      ensures Valid()
      ensures job.None? <==> old(Contents()).micro == []
      ensures Contents() == (if job.None? then old(Contents()) else old(Contents()).(micro := old(Contents()).micro[1..]))
      ensures job.Some? ==> job.value == old(Contents()).micro[0]
      ensures job.None? ==> micro == [] && microHead == 0
    {
      if microHead == |micro| {
        micro, microHead := [], 0;
        assert Jobs() == old(Jobs());
        return None;
      }
      job := micro[microHead];
      micro := micro[microHead := None];
      microHead := microHead + 1;
      assert Jobs() == old(Jobs())[1..];
    }

    /** checkRejections: the promise whose rejection ends the domain, if any. */
    method CheckRejections() returns (p: Option<Settlement>)
      requires Valid()
      modifies this`rejected
      ensures Valid() && Contents() == old(Contents()).(rejected := [])
      ensures Known(old(Contents()), old(Contents()).rejected)
      ensures p.None? <==> FirstUnhandled(old(Contents()), old(Contents()).rejected).None?
      ensures p.Some? ==> FirstUnhandled(old(Contents()), old(Contents()).rejected) == Some(p.value.id)
    {
      ghost var was := Contents();
      ghost var ids := was.rejected;
      var noted := rejected;
      rejected := [];
      assert Promises() == was.promises;
      assert ids[0..] == ids;
      for k := 0 to |noted|
        invariant Valid() && noted == old(rejected) && rejected == [] && Contents() == was.(rejected := [])
        invariant Known(was, ids[k..]) && FirstUnhandled(was, ids) == FirstUnhandled(was, ids[k..])
      {
        assert ids[k..][0] == noted[k].id && ids[k..][1..] == ids[k + 1..];
        assert was.promises[noted[k].id] == noted[k].Value();
        if !noted[k].handled { return Some(noted[k]); }
      }
      p := None;
    }

    method Park(co: Co)
      requires Valid() && Made(co) && co !in parked
      modifies this`parked, co
      ensures Valid() && co.id < |old(Parked()).parkedAt| && Parked() == Goroutines.Park(old(Parked()), co.id)
    {
      co.parkedAt := |parked|;
      parked := parked + [co];
      assert Parked().parkedAt == old(Parked()).parkedAt[co.id := |old(parked)|];
      assert Parked().parked == old(Parked()).parked + [co.id];
    }

    method Unpark(co: Co)
      requires Valid() && Made(co) && co in parked
      modifies this`parked, calls
      ensures Valid() && calls == old(calls)
      ensures co.id < |old(Parked()).parkedAt| && old(Parked()).parkedAt[co.id] < |old(Parked()).parked|
      ensures old(Parked()).parked[|old(parked)| - 1] < |old(Parked()).parkedAt|
      ensures Parked() == Goroutines.Unpark(old(Parked()), co.id)
    {
      var last := |parked| - 1;
      var moved := parked[last];
      var at := co.parkedAt;
      parked := parked[at := moved];
      moved.parkedAt := at;
      parked := parked[..last];
      assert Parked().parkedAt == old(Parked()).parkedAt[moved.id := at];
      assert Parked().parked == old(Parked()).parked[at := moved.id][..last];
    }
  }
}
