/**
  The same domain as it runs on goroutines (backend/runtime/promise.go,
  domain.go, parked.go): each async call on a goroutine of its own, and one
  token, handed over by unbuffered channels. A step here is one goroutine's,
  and any enabled step may come next.
*/
module Goroutines {
  import opened Options
  import opened JobQueue

  // Where a goroutine that waits for the token back goes on: its own code,
  // the driver's drain, or the driver's abort.
  datatype Back = ToCode | ToDrain | ToAbort

  // Where a goroutine is. The driver is goroutine 0.
  datatype Pc =
    | Code                              // in the program's code
    | BeforeWait(c: nat, back: Back)    // started or resumed c, and about to wait
    | Waiting(c: nat, back: Back)       // <-co.yield
    | Yielding(p: nat)                  // in an Await of p: co.yield <-
    | BeforeResume(p: nat)              // past that send, and about to wait
    | AtResume(p: nat)                  // <-co.resume
    | Exiting(failed: bool)             // in Async's deferred send: co.yield <-
    | Gone
    | Draining                          // the driver, in drain
    | Resuming(job: Job)                // in a reaction: co.resume <-
    | Between                           // between tasks
    | Aborting                          // in abort
    | AbortResuming(c: nat)             // in abort: co.resume <-
    | Stopped

  // Calls in an Await, from the yield to the resume.
  predicate Awaiting(pc: Pc) { pc.Yielding? || pc.BeforeResume? || pc.AtResume? }

  function AwaitedBy(pc: Pc): nat
    requires Awaiting(pc)
  {
    match pc
    case Yielding(p) => p
    case BeforeResume(p) => p
    case AtResume(p) => p
  }

  // parked is the registry, and parkedAt each goroutine's index in it.
  datatype Registry = Registry(parked: seq<nat>, parkedAt: seq<nat>)

  function Park(r: Registry, c: nat): Registry
    requires c < |r.parkedAt|
  {
    Registry(r.parked + [c], r.parkedAt[c := |r.parked|])
  }

  // The last call parked takes the place of the one that leaves.
  function Unpark(r: Registry, c: nat): Registry
    requires c < |r.parkedAt| && r.parkedAt[c] < |r.parked|
    requires r.parked[|r.parked| - 1] < |r.parkedAt|
  {
    var moved := r.parked[|r.parked| - 1];
    var at := r.parkedAt[c];
    Registry(r.parked[at := moved][..|r.parked| - 1], r.parkedAt[moved := at])
  }

  function PopParked(r: Registry): Registry
    requires r.parked != []
  {
    r.(parked := r.parked[..|r.parked| - 1])
  }

  datatype Machine = Machine(store: Store, pcs: seq<Pc>, registry: Registry, aborted: set<nat>, failure: Option<Failure>)

  datatype Move =
    | Execute(g: nat)       // a step of the program's code
    | StartWait(g: nat)     // past the go statement or the resume, into wait
    | HandBack(g: nat)      // the call g waits for yields to it
    | StartBlock(c: nat)    // past its yield, into <-co.resume
    | NextJob               // the drain's next microtask, or its end
    | HandOver              // the reaction's resume meets its call
    | TaskBegins(task: nat)
    | LeaveDomain
    | NextAbort             // abort's next call, or its end
    | AbortOver             // abort's resume meets its call

  predicate Enabled(m: Machine, v: Move) {
    match v
    case Execute(g) => g < |m.pcs| && m.pcs[g].Code?
    case StartWait(g) => g < |m.pcs| && m.pcs[g].BeforeWait?
    case HandBack(g) =>
      && g < |m.pcs| && m.pcs[g].Waiting? && m.pcs[g].c < |m.pcs|
      && (m.pcs[m.pcs[g].c].Yielding? || m.pcs[m.pcs[g].c].Exiting?)
    case StartBlock(c) => c < |m.pcs| && m.pcs[c].BeforeResume?
    case NextJob => m.pcs != [] && m.pcs[0].Draining?
    case HandOver => m.pcs != [] && m.pcs[0].Resuming? && m.pcs[0].job.c < |m.pcs| && m.pcs[m.pcs[0].job.c].AtResume?
    case TaskBegins(_) => m.pcs != [] && m.pcs[0].Between?
    case LeaveDomain => m.pcs != [] && m.pcs[0].Between?
    case NextAbort => m.pcs != [] && m.pcs[0].Aborting?
    case AbortOver => m.pcs != [] && m.pcs[0].AbortResuming? && m.pcs[0].c < |m.pcs| && m.pcs[m.pcs[0].c].AtResume?
  }

  // What the registry and the queue must be for the runtime's indexing to be
  // in range; module SchedulerInvariant proves they always are.
  predicate Sane(m: Machine) {
    && m.pcs != [] && |m.registry.parkedAt| == |m.pcs| == |m.store.own|
    && Known(m.store, m.store.rejected)
    && (forall i :: 0 <= i < |m.registry.parked| ==>
          m.registry.parked[i] < |m.pcs| && m.registry.parkedAt[m.registry.parked[i]] == i)
    && (m.pcs[0].Draining? && m.store.micro != [] ==>
          var c := m.store.micro[0].c;
          c < |m.pcs| && c in m.registry.parked)
    && (m.pcs[0].Resuming? ==> m.pcs[0].job.p < |m.store.promises|)
  }

  function Apply(prog: Program, m: Machine, v: Move): Machine
    requires Sane(m) && Enabled(m, v)
  {
    match v
    case Execute(g) => ExecuteBy(m, g, prog.next(g, m.store.log))
    case StartWait(g) => m.(pcs := m.pcs[g := Waiting(m.pcs[g].c, m.pcs[g].back)])
    case HandBack(g) => TakeBack(m, g, m.pcs[g].c)
    case StartBlock(c) => m.(pcs := m.pcs[c := AtResume(m.pcs[c].p)])
    case NextJob => if m.store.micro != [] then BeginJob(m) else CheckRejections(m)
    case HandOver =>
      var job := m.pcs[0].job;
      m.(store := Note(m.store, Resumed(job.c, m.store.promises[job.p].reason)),
         pcs := m.pcs[job.c := Code][0 := BeforeWait(job.c, ToDrain)])
    case TaskBegins(task) => m.(store := Note(m.store, Began(task)), pcs := m.pcs[0 := Code])
    case LeaveDomain => m.(pcs := m.pcs[0 := Aborting], failure := Some(Closed))
    case NextAbort =>
      if m.registry.parked == [] then m.(pcs := m.pcs[0 := Stopped])
      else
        var c := m.registry.parked[|m.registry.parked| - 1];
        m.(registry := PopParked(m.registry), aborted := m.aborted + {c}, pcs := m.pcs[0 := AbortResuming(c)])
    case AbortOver => m.(pcs := m.pcs[m.pcs[0].c := Exiting(false)][0 := BeforeWait(m.pcs[0].c, ToAbort)])
  }

  // A reaction's first two steps: its call leaves the registry, and is resumed.
  function BeginJob(m: Machine): Machine
    requires Sane(m) && m.pcs[0].Draining? && m.store.micro != []
  {
    var job := m.store.micro[0];
    m.(store := m.store.(micro := m.store.micro[1..]), registry := Unpark(m.registry, job.c), pcs := m.pcs[0 := Resuming(job)])
  }

  function CheckRejections(m: Machine): Machine
    requires Sane(m)
  {
    var after := m.(store := m.store.(rejected := []));
    match FirstUnhandled(m.store, m.store.rejected)
    case None => after.(pcs := m.pcs[0 := Between])
    case Some(p) => Fail(after, Unhandled(p))
  }

  // The domain has failed on its driver, which ends the calls still parked.
  function Fail(m: Machine, why: Failure): Machine
    requires m.pcs != []
  {
    m.(pcs := m.pcs[0 := Aborting], failure := Some(why))
  }

  // wait, once the token is back: a panic in the call's body is raised again
  // here, in a call to be carried on, and on the driver to end the domain.
  function TakeBack(m: Machine, g: nat, c: nat): Machine
    requires g < |m.pcs| && m.pcs[g].Waiting? && c < |m.pcs|
    requires m.pcs[c].Yielding? || m.pcs[c].Exiting?
  {
    var left := m.pcs[c := if m.pcs[c].Yielding? then BeforeResume(m.pcs[c].p) else Gone];
    var raised := m.pcs[c].Exiting? && m.pcs[c].failed && !m.pcs[g].back.ToAbort?;
    if raised && g == 0 then Fail(m.(pcs := left), Panicked) else
    m.(pcs := left[g := if raised then Exiting(true)
                        else match m.pcs[g].back
                             case ToCode => Code
                             case ToDrain => Draining
                             case ToAbort => Aborting])
  }

  function ExecuteBy(m: Machine, g: nat, i: Instr): Machine
    requires Sane(m) && g < |m.pcs|
  {
    var s := Note(m.store, Did(g, i));
    if !Legal(s, g, i) then
      (if g == 0 then Fail(m.(store := s), Panicked) else m.(store := s, pcs := m.pcs[g := Exiting(true)]))
    else match i
    case Act(_) => m.(store := s)
    case NewPromise => m.(store := Make(s))
    case Settle(p, reason) => m.(store := SettleP(s, p, reason))
    case Call =>
      m.(store := Begin(s),
         pcs := m.pcs[g := BeforeWait(|m.pcs|, ToCode)] + [Code],
         registry := m.registry.(parkedAt := m.registry.parkedAt + [0]))
    case Await(p) =>
      m.(store := ThenResume(s, p, g), registry := Park(m.registry, g), pcs := m.pcs[g := Yielding(p)])
    case Finish(reason) =>
      if g != 0 then m.(store := SettleP(s, s.own[g], reason), pcs := m.pcs[g := Exiting(false)])
      else if reason.None? then m.(store := s, pcs := m.pcs[0 := Draining])
      else Fail(m.(store := s), Uncaught(reason.value))
  }

  /** The driver begins with the program's top-level code. */
  function Start(): Machine { Machine(EMPTY, [Code], Registry([], [0]), {}, None) }
}
