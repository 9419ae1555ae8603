/**
  A domain's promises and queue (backend/runtime/promise.go, domain.go,
  rejection.go), and the machine JavaScript runs them on: one thread, a stack
  of execution contexts, and a FIFO queue of jobs (sections 9.5, 27.2 and
  27.7.5.3 of ECMA-262).

  The program's code is a function from everything the domain has done so far
  to what the running context does next, so what is proved holds of every
  program. Context 0 is the driver's: main, a timer's callback, a callback
  posted to the domain. The others are async calls.
*/
module JobQueue {
  import opened Options

  // What running code does next. Settle is a resolve or reject function of
  // new Promise, Finish a return or an uncaught throw, Panic a Go panic.
  datatype Instr =
    | Act(a: int)
    | NewPromise
    | Settle(p: nat, reason: Option<int>)
    | Call
    | Await(p: nat)
    | Finish(reason: Option<int>)
    | Panic

  // What the domain has done: each step of the program's code, each call
  // resumed with what its promise settled to, and each task begun.
  datatype Event = Did(g: nat, i: Instr) | Resumed(c: nat, reason: Option<int>) | Began(task: nat)

  datatype Program = Program(next: (nat, seq<Event>) -> Instr)

  // settlement, in promise.go: reactions are the calls that await it.
  datatype Promise = Promise(settled: bool, reason: Option<int>, handled: bool, reactions: seq<nat>)

  // A microtask: resuming call c, which awaits promise p.
  datatype Job = Job(c: nat, p: nat)

  // own is each context's promise; the driver's is never used.
  datatype Store = Store(promises: seq<Promise>, own: seq<nat>, micro: seq<Job>, rejected: seq<nat>, log: seq<Event>)

  const PENDING := Promise(false, None, false, [])
  const EMPTY := Store([], [0], [], [], [])

  function JobsOf(calls: seq<nat>, p: nat): (jobs: seq<Job>)
    ensures |jobs| == |calls|
    ensures forall i :: 0 <= i < |jobs| ==> jobs[i] == Job(calls[i], p)
  {
    seq(|calls|, i requires 0 <= i < |calls| => Job(calls[i], p))
  }

  /** resolve and reject: once p has settled they do nothing; a rejection
      nothing awaits yet is noted, and the reactions are queued. */
  function SettleP(s: Store, p: nat, reason: Option<int>): Store
    requires p < |s.promises|
  {
    var q := s.promises[p];
    if q.settled then s else
    s.(promises := s.promises[p := Promise(true, reason, q.handled, [])],
       rejected := if reason.Some? && !q.handled then s.rejected + [p] else s.rejected,
       micro := s.micro + JobsOf(q.reactions, p))
  }

  /** then, of an await by c: queued straight away if p has settled. */
  function ThenResume(s: Store, p: nat, c: nat): Store
    requires p < |s.promises|
  {
    var q := s.promises[p].(handled := true);
    if q.settled then s.(promises := s.promises[p := q], micro := s.micro + [Job(c, p)])
    else s.(promises := s.promises[p := q.(reactions := q.reactions + [c])])
  }

  function Make(s: Store): Store { s.(promises := s.promises + [PENDING]) }

  /** An async call's own promise. */
  function Begin(s: Store): Store { Make(s).(own := s.own + [|s.promises|]) }

  function Note(s: Store, e: Event): Store { s.(log := s.log + [e]) }

  predicate Known(s: Store, noted: seq<nat>) {
    forall i :: 0 <= i < |noted| ==> noted[i] < |s.promises|
  }

  // checkRejections: the first promise noted that is still unhandled.
  function FirstUnhandled(s: Store, noted: seq<nat>): (r: Option<nat>)
    requires Known(s, noted)
    ensures r.Some? ==> r.value in noted && r.value < |s.promises|
  {
    if noted == [] then None
    else if !s.promises[noted[0]].handled then Some(noted[0])
    else FirstUnhandled(s, noted[1..])
  }

  // Why a domain ended.
  datatype Failure = Uncaught(v: int) | Unhandled(p: nat) | Panicked | Closed

  // Whether what the code asks for has a meaning: a promise of another domain
  // is a panic, and only an async call awaits or is finished into a promise.
  predicate Legal(s: Store, g: nat, i: Instr) {
    match i
    case Settle(p, _) => p < |s.promises|
    case Await(p) => p < |s.promises| && 0 < g
    case Finish(_) => g == 0 || (g < |s.own| && s.own[g] < |s.promises|)
    case Panic => false
    case _ => true
  }

  datatype Mode = Running | Idle | Ended(why: Failure)

  // The one-threaded machine: stack is the contexts begun and not yet left,
  // innermost last. With none, the queue's first job runs.
  datatype Thread = Thread(store: Store, stack: seq<nat>, mode: Mode)

  function Step(prog: Program, r: Thread): Thread
    requires r.mode.Running?
    requires Known(r.store, r.store.rejected)
    requires r.stack == [] && r.store.micro != [] ==> r.store.micro[0].p < |r.store.promises|
  {
    if r.stack != [] then Execute(r, r.stack[|r.stack| - 1], prog.next(r.stack[|r.stack| - 1], r.store.log))
    else if r.store.micro != [] then TakeJob(r)
    else EndDrain(r)
  }

  function TakeJob(r: Thread): Thread
    requires r.store.micro != [] && r.store.micro[0].p < |r.store.promises|
  {
    var job := r.store.micro[0];
    r.(store := Note(r.store.(micro := r.store.micro[1..]), Resumed(job.c, r.store.promises[job.p].reason)), stack := [job.c])
  }

  function EndDrain(r: Thread): Thread
    requires Known(r.store, r.store.rejected)
  {
    match FirstUnhandled(r.store, r.store.rejected)
    case None => r.(store := r.store.(rejected := []), mode := Idle)
    case Some(p) => r.(store := r.store.(rejected := []), mode := Ended(Unhandled(p)))
  }

  function Execute(r: Thread, g: nat, i: Instr): Thread
    requires r.stack != []
  {
    var s := Note(r.store, Did(g, i));
    var outer := r.stack[..|r.stack| - 1];
    if !Legal(s, g, i) then r.(store := s, mode := Ended(Panicked)) else
    match i
    case Act(_) => r.(store := s)
    case NewPromise => r.(store := Make(s))
    case Settle(p, reason) => r.(store := SettleP(s, p, reason))
    case Call => r.(store := Begin(s), stack := r.stack + [|s.own|])
    case Await(p) => r.(store := ThenResume(s, p, g), stack := outer)
    case Finish(reason) =>
      if g != 0 then r.(store := SettleP(s, s.own[g], reason), stack := outer)
      else if reason.None? then r.(store := s, stack := outer)
      else r.(store := s, mode := Ended(Uncaught(reason.value)))
  }

  // The domain between tasks: one begins, or the domain is left.
  function BeginTask(r: Thread, task: nat): Thread {
    r.(store := Note(r.store, Began(task)), stack := [0], mode := Running)
  }

  function Leave(r: Thread): Thread { r.(mode := Ended(Closed)) }

  /** The first task is the program's top-level code. */
  function Boot(): Thread { Thread(EMPTY, [0], Running) }
}
