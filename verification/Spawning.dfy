/**
  spawn and the caller's inbox (backend/runtime/spawn.go, domain.go): a
  spawned domain on its own goroutine, in parallel with its caller's, which it
  reaches only by posting to the inbox and waking the caller's driver. A step
  here is one goroutine's, and any enabled step may come next.
*/
module Spawning {
  import opened NaturalSets
  import opened Options

  // What a spawn delivers: done's value, fail's throw, a panic to raise in the
  // caller, or that no result can come.
  datatype Kind = Value | Throw | Raise | Nothing

  datatype Item = Item(spawn: nat, kind: Kind)

  // Where in the spawned goroutine its domain's tasks run.
  datatype Stage = Starting | Driving | Finishing

  datatype Back = ToTask(stage: Stage) | ToAbort

  datatype At =
    | InTask(stage: Stage)
    | Posting(kind: Kind, back: Back)   // in post, before the append
    | Waking(back: Back)                // past it, before the wake
    | Looping                           // for !delivered && s.pending()
    | FinishLoop                        // for s.pending(), in finish
    | Recovering(panicked: bool)        // the deferred recover
    | Aborting
    | Over

  // work: whether the spawned domain has a timer or a spawn of its own left.
  datatype Spawned = Spawned(at: At, delivered: bool, work: bool)

  datatype Todo = ToLoop | ToInbox(items: seq<Item>) | ToFire

  // The caller's driver.
  datatype Driver =
    | Code(todo: Todo)              // running the caller's code
    | Testing                       // for d.pending()
    | Blocked                       // the select in waitNext
    | Woken                         // before runInbox takes the inbox
    | RunningInbox(items: seq<Item>)
    | Firing                        // fireDue
    | Done
    | Failed(items: seq<Item>)

  // ran is the deliveries run so far.
  datatype Caller = Caller(
    driver: Driver, spawned: int, timers: nat,
    inbox: seq<Item>, wake: bool, spawns: seq<Spawned>, ran: seq<Item>)

  datatype Move =
    // the caller's code
    | Spawn | SetTimer | ClearTimer | EndCode | FailCode
    // the caller's driver
    | Test | TakeWake | Due | TakeInbox | RunItem | EndInbox | FireTimer | EndFiring
    // a spawned goroutine
    | Deliver(i: nat, kind: Kind) | EndTask(i: nat, work: bool) | PanicTask(i: nat)
    | Append(i: nat) | Wake(i: nat) | Loop(i: nat) | Recover(i: nat) | Abort(i: nat)

  predicate Enabled(m: Caller, v: Move) {
    match v
    case Spawn => m.driver.Code?
    case SetTimer => m.driver.Code?
    case ClearTimer => m.driver.Code? && m.timers > 0
    case EndCode => m.driver.Code?
    case FailCode => m.driver.Code?
    case Test => m.driver.Testing?
    case TakeWake => m.driver.Blocked? && m.wake
    case Due => m.driver.Blocked? && m.timers > 0
    case TakeInbox => m.driver.Woken?
    case RunItem => m.driver.RunningInbox? && m.driver.items != []
    case EndInbox => m.driver == RunningInbox([])
    case FireTimer => m.driver.Firing? && m.timers > 0
    case EndFiring => m.driver.Firing?
    case Deliver(i, kind) => i < |m.spawns| && m.spawns[i].at.InTask? && (kind.Value? || kind.Throw?)
    case EndTask(i, _) => i < |m.spawns| && m.spawns[i].at.InTask?
    case PanicTask(i) => i < |m.spawns| && m.spawns[i].at.InTask?
    case Append(i) => i < |m.spawns| && m.spawns[i].at.Posting?
    case Wake(i) => i < |m.spawns| && m.spawns[i].at.Waking?
    case Loop(i) => i < |m.spawns| && (m.spawns[i].at.Looping? || m.spawns[i].at.FinishLoop?)
    case Recover(i) => i < |m.spawns| && m.spawns[i].at.Recovering?
    case Abort(i) => i < |m.spawns| && m.spawns[i].at.Aborting?
  }

  function Apply(m: Caller, v: Move): Caller
    requires Enabled(m, v)
  {
    match v
    case Spawn => m.(spawned := m.spawned + 1, spawns := m.spawns + [Spawned(InTask(Starting), false, false)])
    case SetTimer => m.(timers := m.timers + 1)
    case ClearTimer => m.(timers := m.timers - 1)
    case EndCode => m.(driver := match m.driver.todo case ToLoop => Testing case ToInbox(items) => RunningInbox(items) case ToFire => Firing)
    case FailCode => m.(driver := Failed(if m.driver.todo.ToInbox? then m.driver.todo.items else []))
    case Test => m.(driver := if m.timers > 0 || m.spawned > 0 then Blocked else Done)
    case TakeWake => m.(driver := Woken, wake := false)
    case Due => m.(driver := Woken)
    case TakeInbox => m.(driver := RunningInbox(m.inbox), inbox := [])
    case RunItem =>
      m.(driver := if m.driver.items[0].kind.Raise? then Failed(m.driver.items[1..]) else Code(ToInbox(m.driver.items[1..])),
         spawned := m.spawned - 1, ran := m.ran + [m.driver.items[0]])
    case EndInbox => m.(driver := Firing)
    case FireTimer => m.(driver := Code(ToFire), timers := m.timers - 1)
    case EndFiring => m.(driver := Testing)
    case Append(i) =>
      m.(inbox := m.inbox + [Item(i, m.spawns[i].at.kind)],
         spawns := m.spawns[i := m.spawns[i].(at := Waking(m.spawns[i].at.back))])
    case Wake(i) => m.(wake := true, spawns := m.spawns[i := SpawnedStep(m.spawns[i], v)])
    case _ => m.(spawns := m.spawns[v.i := SpawnedStep(m.spawns[v.i], v)])
  }

  // A spawned goroutine's own state.
  function SpawnedStep(s: Spawned, v: Move): Spawned {
    match v
    case Deliver(_, kind) =>
      if s.at.InTask? && !s.delivered then s.(at := Posting(kind, ToTask(s.at.stage)), delivered := true) else s
    case EndTask(_, work) =>
      if s.at.InTask? then s.(at := if s.at.stage.Finishing? then FinishLoop else Looping, work := work) else s
    case PanicTask(_) =>
      // past the result, finish's own recover reports it
      if s.at.InTask? then s.(at := Recovering(!s.at.stage.Finishing?)) else s
    case Wake(_) =>
      if s.at.Waking? then s.(at := match s.at.back case ToTask(stage) => InTask(stage) case ToAbort => Aborting) else s
    case Loop(_) =>
      s.(at := if s.at.FinishLoop? then (if s.work then InTask(Finishing) else Recovering(false))
               else if !s.delivered && s.work then InTask(Driving)
               else if s.work then InTask(Finishing)
               else Recovering(false))
    case Recover(_) =>
      if s.delivered || !s.at.Recovering? then s.(at := Aborting)
      else s.(at := Posting(if s.at.panicked then Raise else Nothing, ToAbort), delivered := true)
    case Abort(_) => s.(at := Over)
    case _ => s
  }

  const START := Caller(Code(ToLoop), 0, 0, [], false, [], [])

  // The deliveries posted, in the order they were: run, taken, or waiting.
  function Taken(d: Driver): seq<Item> {
    match d
    case RunningInbox(items) => items
    case Code(ToInbox(items)) => items
    case Failed(items) => items
    case _ => []
  }

  function Posted(m: Caller): seq<Item> { m.ran + Taken(m.driver) + m.inbox }

  predicate Once(posted: seq<Item>, spawns: seq<Spawned>) {
    && (forall k :: 0 <= k < |posted| ==> posted[k].spawn < |spawns|)
    && (forall j, k :: 0 <= j < k < |posted| ==> posted[j].spawn != posted[k].spawn)
    && (forall i :: 0 <= i < |spawns| ==> (In(posted, i) <==> spawns[i].delivered && !spawns[i].at.Posting?))
  }

  predicate In(posted: seq<Item>, i: nat) { exists k :: 0 <= k < |posted| && posted[k].spawn == i }

  predicate Stays(s: Spawned) {
    && (s.at.Posting? || s.at.Waking? ==> s.delivered)
    && (s.at.Aborting? || s.at.Over? || s.at.FinishLoop? || s.at == InTask(Finishing) ==> s.delivered)
    && (s.at.Posting? ==> s.at.kind.Raise? || s.at.kind.Nothing? ==> s.at.back.ToAbort?)
  }

  // A delivery waiting in the inbox has the driver awake, or woken soon.
  predicate WillWake(m: Caller) {
    m.inbox != [] ==> m.wake || m.driver.Woken? || exists i :: 0 <= i < |m.spawns| && m.spawns[i].at.Waking?
  }

  predicate Invariant(m: Caller) {
    && m.spawned == |m.spawns| - |m.ran|
    && Once(Posted(m), m.spawns)
    && (forall i :: 0 <= i < |m.spawns| ==> Stays(m.spawns[i]))
    && WillWake(m)
    && (m.driver.Done? ==> m.spawned == 0 && m.timers == 0)
    && (m.driver.Blocked? ==> m.spawned > 0 || m.timers > 0)
  }

  // Only an append posts, and it posts last.
  lemma PostsInOrder(m: Caller, v: Move)
    requires Enabled(m, v)
    ensures Posted(Apply(m, v)) == Posted(m) + if v.Append? then [Item(v.i, m.spawns[v.i].at.kind)] else []
  {
    if v.RunItem? {
      RunsTheNext(m);
    } else if v.Append? || v.TakeInbox? {
      hide SpawnedStep;
      assert Taken(m.driver) == [] || v.Append?;
    } else {
      DriversStep(m, v);
    }
  }

  lemma RunsTheNext(m: Caller)
    requires Enabled(m, RunItem)
    ensures Posted(Apply(m, RunItem)) == Posted(m)
  {
    assert m.driver.items == [m.driver.items[0]] + m.driver.items[1..];
  }

  lemma DriversStep(m: Caller, v: Move)
    requires Enabled(m, v) && !v.RunItem? && !v.Append? && !v.TakeInbox?
    ensures var m' := Apply(m, v); m'.ran == m.ran && m'.inbox == m.inbox && Taken(m'.driver) == Taken(m.driver)
  {
    hide SpawnedStep;
  }

  lemma OnceSame(posted: seq<Item>, spawns: seq<Spawned>, after: seq<Spawned>)
    requires Once(posted, spawns) && |after| == |spawns|
    requires forall i :: 0 <= i < |spawns| ==>
      (after[i].delivered && !after[i].at.Posting? <==> spawns[i].delivered && !spawns[i].at.Posting?)
    ensures Once(posted, after)
  {
  }

  lemma OnceSpawn(posted: seq<Item>, spawns: seq<Spawned>, s: Spawned)
    requires Once(posted, spawns) && !s.delivered
    ensures Once(posted, spawns + [s])
  {
    var after := spawns + [s];
    forall i | 0 <= i < |after|
      ensures In(posted, i) <==> after[i].delivered && !after[i].at.Posting?
    {
      assert i < |spawns| ==> (In(posted, i) <==> spawns[i].delivered && !spawns[i].at.Posting?);
    }
  }

  lemma OnceAppend(posted: seq<Item>, spawns: seq<Spawned>, i: nat)
    requires Once(posted, spawns) && i < |spawns| && spawns[i].at.Posting? && spawns[i].delivered
    ensures Once(posted + [Item(i, spawns[i].at.kind)], spawns[i := spawns[i].(at := Waking(spawns[i].at.back))])
  {
    var after := posted + [Item(i, spawns[i].at.kind)];
    assert !In(posted, i);
    assert after[|posted|].spawn == i;
    forall k | 0 <= k < |spawns|
      ensures In(after, k) <==> In(posted, k) || k == i
    {
      if In(posted, k) {
        var j :| 0 <= j < |posted| && posted[j].spawn == k;
        assert after[j].spawn == k;
      }
    }
  }

  lemma OnceStep(m: Caller, v: Move)
    requires Invariant(m) && Enabled(m, v)
    ensures Once(Posted(Apply(m, v)), Apply(m, v).spawns)
  {
    PostsInOrder(m, v);
    if v.Append? {
      OnceAppend(Posted(m), m.spawns, v.i);
    } else if v.Spawn? {
      OnceSpawn(Posted(m), m.spawns, Spawned(InTask(Starting), false, false));
    } else {
      assert Posted(Apply(m, v)) == Posted(m);
      OnceSame(Posted(m), m.spawns, Apply(m, v).spawns);
    }
  }

  lemma WakeStep(m: Caller, v: Move)
    requires Invariant(m) && Enabled(m, v)
    ensures WillWake(Apply(m, v))
  {
    var m' := Apply(m, v);
    if v.Append? {
      assert m'.spawns[v.i].at.Waking?;
    } else if m.inbox != [] && !m.wake && !m.driver.Woken? && !v.Wake? && !v.TakeInbox? {
      var i :| 0 <= i < |m.spawns| && m.spawns[i].at.Waking?;
      assert m'.spawns[i].at.Waking?;
    }
  }

  // Counting.

  function Ids(items: seq<Item>): set<nat> { set k | 0 <= k < |items| :: items[k].spawn }

  lemma {:induction false} DistinctIds(items: seq<Item>)
    requires forall j, k :: 0 <= j < k < |items| ==> items[j].spawn != items[k].spawn
    ensures |Ids(items)| == |items|
  {
    if items != [] {
      var n := |items| - 1;
      var first := items[..n];
      DistinctIds(first);
      assert forall k :: 0 <= k < n ==> first[k] == items[k];
      forall i
        ensures i in Ids(items) <==> i in Ids(first) + {items[n].spawn}
      {
        if i in Ids(items) {
          var k :| 0 <= k < |items| && items[k].spawn == i;
          assert k == n || first[k].spawn == i;
        }
        if i in Ids(first) {
          var k :| 0 <= k < n && first[k].spawn == i;
          assert items[k].spawn == i;
        }
        if i == items[n].spawn { assert items[n].spawn == i; }
      }
      assert Ids(items) == Ids(first) + {items[n].spawn};
      assert items[n].spawn !in Ids(first);
    }
  }

  function Unrun(m: Caller): set<nat> { set i: nat | 0 <= i < |m.spawns| && !In(m.ran, i) }

  /** spawned is the number of spawns whose delivery has not run. */
  lemma SpawnedCounts(m: Caller)
    requires Invariant(m)
    ensures m.spawned == |Unrun(m)|
  {
    var posted := Posted(m);
    forall j, k | 0 <= j < k < |m.ran|
      ensures m.ran[j].spawn != m.ran[k].spawn
    {
      assert posted[j] == m.ran[j] && posted[k] == m.ran[k];
    }
    DistinctIds(m.ran);
    var all := Numbers(|m.spawns|);
    forall i | i in Ids(m.ran)
      ensures i in all
    {
      var k :| 0 <= k < |m.ran| && m.ran[k].spawn == i;
      assert posted[k] == m.ran[k];
    }
    assert Unrun(m) == all - Ids(m.ran);
  }

  lemma StaysStep(m: Caller, v: Move, i: nat)
    requires Enabled(m, v) && i < |Apply(m, v).spawns| && (i < |m.spawns| ==> Stays(m.spawns[i]))
    ensures Stays(Apply(m, v).spawns[i])
  {
  }

  lemma CountStep(m: Caller, v: Move)
    requires Invariant(m) && Enabled(m, v)
    ensures var m' := Apply(m, v);
      && m'.spawned == |m'.spawns| - |m'.ran|
      && (m'.driver.Done? ==> m'.spawned == 0 && m'.timers == 0)
      && (m'.driver.Blocked? ==> m'.spawned > 0 || m'.timers > 0)
  {
    hide SpawnedStep, Once, Stays, WillWake;
    SpawnedCounts(m);
  }

  lemma InvariantStep(m: Caller, v: Move)
    requires Invariant(m) && Enabled(m, v)
    ensures Invariant(Apply(m, v))
  {
    hide Apply, SpawnedStep, Once, Stays, WillWake;
    OnceStep(m, v);
    WakeStep(m, v);
    CountStep(m, v);
    forall i | 0 <= i < |Apply(m, v).spawns| ensures Stays(Apply(m, v).spawns[i]) { StaysStep(m, v, i); }
  }

  predicate Possible(m: Caller, moves: seq<Move>)
    decreases |moves|
  {
    moves == [] || (Enabled(m, moves[0]) && Possible(Apply(m, moves[0]), moves[1..]))
  }

  function After(m: Caller, moves: seq<Move>): Caller
    requires Possible(m, moves)
    decreases |moves|
  {
    if moves == [] then m else After(Apply(m, moves[0]), moves[1..])
  }

  lemma {:induction false} RunsKeepTheInvariant(m: Caller, moves: seq<Move>)
    requires Invariant(m) && Possible(m, moves)
    ensures Invariant(After(m, moves)) && Posted(m) <= Posted(After(m, moves))
    decreases |moves|
  {
    if moves != [] {
      InvariantStep(m, moves[0]);
      PostsInOrder(m, moves[0]);
      RunsKeepTheInvariant(Apply(m, moves[0]), moves[1..]);
    }
  }

  lemma StartIsValid()
    ensures Invariant(START)
  {
  }

  /** In every run, each spawn delivers at most once, and one that is over has;
      deliveries run in the order they were posted; and a caller that is done
      has run them all. */
  lemma DeliversOnce(moves: seq<Move>)
    requires Possible(START, moves)
    ensures var m := After(START, moves); var posted := Posted(m);
      && m.ran <= posted
      && (forall j, k :: 0 <= j < k < |posted| ==> posted[j].spawn != posted[k].spawn)
      && (forall i :: 0 <= i < |m.spawns| && m.spawns[i].at.Over? ==> In(posted, i))
      && m.spawned == |Unrun(m)|
      && (m.driver.Done? ==> forall i :: 0 <= i < |m.spawns| ==> In(m.ran, i))
  {
    StartIsValid();
    RunsKeepTheInvariant(START, moves);
    var m := After(START, moves);
    SpawnedCounts(m);
    if m.driver.Done? {
      forall i | 0 <= i < |m.spawns|
        ensures In(m.ran, i)
      {
        assert i !in Unrun(m);
      }
    }
  }

  // What is delivered.

  // The first of what a spawned domain does that decides its delivery.
  function FirstOffer(moves: seq<Move>, i: nat): Kind {
    if moves == [] then Nothing
    else match moves[0]
      case Deliver(j, kind) => if j == i then kind else FirstOffer(moves[1..], i)
      case PanicTask(j) => if j == i then Raise else FirstOffer(moves[1..], i)
      case _ => FirstOffer(moves[1..], i)
  }

  predicate Delivers(m: Caller, i: nat, kind: Kind) {
    && i < |m.spawns| && m.spawns[i].delivered
    && (if m.spawns[i].at.Posting? then m.spawns[i].at.kind == kind else Item(i, kind) in Posted(m))
  }

  predicate Undelivered(m: Caller, i: nat) { i < |m.spawns| ==> !m.spawns[i].delivered }

  function Expected(m: Caller, moves: seq<Move>, i: nat): Kind {
    if i < |m.spawns| && m.spawns[i].at.Recovering? then (if m.spawns[i].at.panicked then Raise else Nothing)
    else FirstOffer(moves, i)
  }

  lemma DeliveryStays(m: Caller, v: Move, i: nat, kind: Kind)
    requires Invariant(m) && Enabled(m, v) && Delivers(m, i, kind)
    ensures Delivers(Apply(m, v), i, kind)
  {
    PostsInOrder(m, v);
    var posted, after := Posted(m), Posted(Apply(m, v));
    if v.Append? && v.i == i {
      assert after[|posted|] == Item(i, kind);
    } else if !m.spawns[i].at.Posting? {
      var k :| 0 <= k < |posted| && posted[k] == Item(i, kind);
      assert after[k] == Item(i, kind);
    }
  }

  predicate Leaving(at: At) {
    at.Recovering? || at.Aborting? || at.Over? || ((at.Posting? || at.Waking?) && at.back.ToAbort?)
  }

  lemma {:induction false} NoOffer(m: Caller, moves: seq<Move>, i: nat)
    requires Possible(m, moves) && i < |m.spawns| && Leaving(m.spawns[i].at)
    ensures FirstOffer(moves, i) == Nothing
    decreases |moves|
  {
    if moves != [] { NoOffer(Apply(m, moves[0]), moves[1..], i); }
  }

  lemma OfferStep(m: Caller, moves: seq<Move>, i: nat)
    requires Invariant(m) && moves != [] && Possible(m, moves) && Undelivered(m, i)
    ensures var m' := Apply(m, moves[0]);
      if Undelivered(m', i) then Expected(m', moves[1..], i) == Expected(m, moves, i) else Delivers(m', i, Expected(m, moves, i))
  {
    if i < |m.spawns| {
      assert Stays(m.spawns[i]);
      if moves[0] == Loop(i) && Apply(m, moves[0]).spawns[i].at.Recovering? { NoOffer(Apply(m, moves[0]), moves[1..], i); }
    }
  }

  lemma {:induction false} RunDelivers(m: Caller, moves: seq<Move>, i: nat)
    requires Invariant(m) && Possible(m, moves)
    ensures forall kind :: Delivers(m, i, kind) ==> Delivers(After(m, moves), i, kind)
    ensures Undelivered(m, i) ==> Undelivered(After(m, moves), i) || Delivers(After(m, moves), i, Expected(m, moves, i))
    decreases |moves|
  {
    if moves != [] {
      var m' := Apply(m, moves[0]);
      InvariantStep(m, moves[0]);
      RunDelivers(m', moves[1..], i);
      forall kind | Delivers(m, i, kind)
        ensures Delivers(m', i, kind)
      {
        DeliveryStays(m, moves[0], i, kind);
      }
      if Undelivered(m, i) { OfferStep(m, moves, i); }
    }
  }

  /** A spawn that is over has delivered what came first: done's value, fail's
      throw or a panic; and with none of them, that no result can come. */
  lemma DeliversTheFirst(moves: seq<Move>, i: nat)
    requires Possible(START, moves) && i < |After(START, moves).spawns| && After(START, moves).spawns[i].at.Over?
    ensures Item(i, FirstOffer(moves, i)) in Posted(After(START, moves))
  {
    StartIsValid();
    RunsKeepTheInvariant(START, moves);
    RunDelivers(START, moves, i);
    assert Stays(After(START, moves).spawns[i]);
  }

  // When a spawn may stop.

  // The last of a spawned domain's tasks to end, or to panic.
  function LastTask(moves: seq<Move>, i: nat): (v: Move)
    requires Tasks(moves, i)
  {
    if EndsTask(moves[|moves| - 1], i) then moves[|moves| - 1] else LastTask(moves[..|moves| - 1], i)
  }

  predicate Tasks(moves: seq<Move>, i: nat) { exists k :: 0 <= k < |moves| && EndsTask(moves[k], i) }

  predicate EndsTask(v: Move, i: nat) { (v.EndTask? || v.PanicTask?) && v.i == i }

  lemma {:induction false} OneMore(m: Caller, moves: seq<Move>, v: Move)
    requires Possible(m, moves + [v])
    ensures Possible(m, moves) && Enabled(After(m, moves), v) && After(m, moves + [v]) == Apply(After(m, moves), v)
    decreases |moves|
  {
    if moves == [] {
      assert Possible(Apply(m, v), []);
    } else {
      assert (moves + [v])[1..] == moves[1..] + [v];
      OneMore(Apply(m, moves[0]), moves[1..], v);
    }
  }

  lemma LastTaskLater(moves: seq<Move>, v: Move, i: nat)
    ensures EndsTask(v, i) ==> Tasks(moves + [v], i) && LastTask(moves + [v], i) == v
    ensures !EndsTask(v, i) && Tasks(moves, i) ==> Tasks(moves + [v], i) && LastTask(moves + [v], i) == LastTask(moves, i)
  {
    var after := moves + [v];
    assert after[|moves|] == v && after[..|moves|] == moves;
    if Tasks(moves, i) {
      var k :| 0 <= k < |moves| && EndsTask(moves[k], i);
      assert after[k] == moves[k];
    }
  }

  // What its last task left a spawn to do.
  predicate Left(moves: seq<Move>, i: nat, v: Move) { Tasks(moves, i) && LastTask(moves, i) == v }

  predicate Settled(moves: seq<Move>, i: nat, s: Spawned) {
    && (s.at.Looping? || s.at.FinishLoop? ==> Left(moves, i, EndTask(i, s.work)))
    && (Leaving(s.at) ==> Left(moves, i, EndTask(i, false)) || Left(moves, i, PanicTask(i)))
    && (s.at.Recovering? && !s.delivered ==> Left(moves, i, if s.at.panicked then PanicTask(i) else EndTask(i, false)))
    && (s.at.Posting? && s.at.kind.Raise? ==> Left(moves, i, PanicTask(i)))
    && (s.at.Posting? && s.at.kind.Nothing? ==> Left(moves, i, EndTask(i, false)))
  }

  predicate PostedWhen(moves: seq<Move>, m: Caller, item: Item) {
    && (item.kind.Nothing? ==> Left(moves, item.spawn, EndTask(item.spawn, false)) && Gone(m, item.spawn))
    && (item.kind.Raise? ==> Left(moves, item.spawn, PanicTask(item.spawn)) && Gone(m, item.spawn))
  }

  predicate Gone(m: Caller, i: nat) { i < |m.spawns| && Leaving(m.spawns[i].at) }

  lemma SettledStep(m: Caller, moves: seq<Move>, v: Move, i: nat)
    requires Invariant(m) && Enabled(m, v) && i < |Apply(m, v).spawns|
    requires i < |m.spawns| ==> Settled(moves, i, m.spawns[i])
    ensures Settled(moves + [v], i, Apply(m, v).spawns[i])
  {
    hide Tasks, LastTask, Once, WillWake;
    LastTaskLater(moves, v, i);
    if i < |m.spawns| { assert Stays(m.spawns[i]); }
  }

  lemma PostedStep(m: Caller, moves: seq<Move>, v: Move, item: Item)
    requires Invariant(m) && Enabled(m, v)
    requires forall i :: 0 <= i < |m.spawns| ==> Settled(moves, i, m.spawns[i])
    requires item in Posted(m) ==> PostedWhen(moves, m, item)
    requires item in Posted(Apply(m, v))
    ensures PostedWhen(moves + [v], Apply(m, v), item)
  {
    hide Tasks, LastTask, Once, WillWake;
    PostsInOrder(m, v);
    LastTaskLater(moves, v, item.spawn);
    if item !in Posted(m) {
      assert item == Item(v.i, m.spawns[v.i].at.kind);
      assert Stays(m.spawns[v.i]);
    }
  }

  lemma {:induction false} RunsSettle(moves: seq<Move>)
    requires Possible(START, moves)
    ensures Invariant(After(START, moves))
    ensures forall i :: 0 <= i < |After(START, moves).spawns| ==> Settled(moves, i, After(START, moves).spawns[i])
    ensures forall item :: item in Posted(After(START, moves)) ==> PostedWhen(moves, After(START, moves), item)
    decreases |moves|
  {
    hide Invariant, Settled, PostedWhen, Apply, Enabled;
    StartIsValid();
    if moves != [] {
      var front, v := moves[..|moves| - 1], moves[|moves| - 1];
      assert moves == front + [v];
      OneMore(START, front, v);
      RunsSettle(front);
      var m := After(START, front);
      InvariantStep(m, v);
      forall i | 0 <= i < |Apply(m, v).spawns|
        ensures Settled(moves, i, Apply(m, v).spawns[i])
      {
        SettledStep(m, front, v, i);
      }
      forall item | item in Posted(Apply(m, v))
        ensures PostedWhen(moves, Apply(m, v), item)
      {
        PostedStep(m, front, v, item);
      }
    }
  }

  /** In every run, the last task of a spawn that stops has left nothing to do,
      or has panicked; no result can come is what one delivers only when its
      last task has left nothing, and a panic only when that task panicked. */
  lemma StopsWhenDone(moves: seq<Move>, i: nat)
    requires Possible(START, moves) && i < |After(START, moves).spawns|
    ensures var m := After(START, moves);
      && (Leaving(m.spawns[i].at) ==> Left(moves, i, EndTask(i, false)) || Left(moves, i, PanicTask(i)))
      && (Item(i, Nothing) in Posted(m) ==> Left(moves, i, EndTask(i, false)))
      && (Item(i, Raise) in Posted(m) ==> Left(moves, i, PanicTask(i)))
  {
    hide Invariant, Left;
    RunsSettle(moves);
    var m := After(START, moves);
    assert Settled(moves, i, m.spawns[i]);
    assert Item(i, Nothing) in Posted(m) ==> PostedWhen(moves, m, Item(i, Nothing));
    assert Item(i, Raise) in Posted(m) ==> PostedWhen(moves, m, Item(i, Raise));
  }

  /** Past a task, a spawn runs another if and only if that one left work:
      toward its result if it has none yet, and after it otherwise. */
  lemma GoesOnWithWork(moves: seq<Move>, i: nat)
    requires Possible(START, moves) && i < |After(START, moves).spawns|
    requires var at := After(START, moves).spawns[i].at; at.Looping? || at.FinishLoop?
    ensures var m := After(START, moves); var s := m.spawns[i];
      && Enabled(m, Loop(i)) && Tasks(moves, i) && LastTask(moves, i).EndTask?
      && Apply(m, Loop(i)).spawns[i] == s.(at :=
           if LastTask(moves, i).work then InTask(if s.delivered then Finishing else Driving) else Recovering(false))
  {
    RunsSettle(moves);
    assert Settled(moves, i, After(START, moves).spawns[i]) && Stays(After(START, moves).spawns[i]);
  }

  // A panic delivered ends the caller, and little else does.

  predicate Raised(items: seq<Item>) { exists k :: 0 <= k < |items| && items[k].kind.Raise? }

  lemma RaisedLater(items: seq<Item>, item: Item)
    ensures Raised(items + [item]) <==> Raised(items) || item.kind.Raise?
  {
    var after := items + [item];
    assert after[|items|] == item;
    if Raised(items) {
      var k :| 0 <= k < |items| && items[k].kind.Raise?;
      assert after[k] == items[k];
    }
  }

  /** In every run, the caller's driver has failed if and only if its own code
      failed or a spawn's panic was raised in it; then no more is run. */
  lemma {:induction false} RaiseFails(moves: seq<Move>)
    requires Possible(START, moves)
    ensures var m := After(START, moves); m.driver.Failed? <==> FailCode in moves || Raised(m.ran)
    decreases |moves|
  {
    if moves != [] {
      hide SpawnedStep;
      var front, v := moves[..|moves| - 1], moves[|moves| - 1];
      assert moves == front + [v];
      OneMore(START, front, v);
      RaiseFails(front);
      var m := After(START, front);
      if v.RunItem? { RaisedLater(m.ran, m.driver.items[0]); }
    }
  }

  // The driver's round: wait, run the inbox, fire what is due, ask again.

  predicate Turns(v: Move) { v.Test? || v.TakeWake? || v.Due? || v.TakeInbox? || v.EndInbox? || v.EndFiring? }

  function LastTurn(moves: seq<Move>): (v: Option<Move>)
    ensures v.Some? ==> Turns(v.value)
  {
    if moves == [] then None
    else if Turns(moves[|moves| - 1]) then Some(moves[|moves| - 1])
    else LastTurn(moves[..|moves| - 1])
  }

  predicate MayTurn(last: Option<Move>, v: Move) {
    match last
    case None => v.Test?
    case Some(Test) => v.TakeWake? || v.Due?
    case Some(TakeInbox) => v.EndInbox?
    case Some(EndInbox) => v.EndFiring?
    case Some(EndFiring) => v.Test?
    case _ => v.TakeInbox?
  }

  predicate TurnedTo(last: Option<Move>, d: Driver) {
    d.Failed? ||
    match last
    case None => d == Code(ToLoop) || d.Testing?
    case Some(Test) => d.Blocked? || d.Done?
    case Some(TakeInbox) => d.RunningInbox? || (d.Code? && d.todo.ToInbox?)
    case Some(EndInbox) => d.Firing? || d == Code(ToFire)
    case Some(EndFiring) => d.Testing?
    case _ => d.Woken?
  }

  lemma {:induction false} DriverTurns(moves: seq<Move>)
    requires Possible(START, moves)
    ensures TurnedTo(LastTurn(moves), After(START, moves).driver)
    decreases |moves|
  {
    if moves != [] {
      hide SpawnedStep;
      var front, v := moves[..|moves| - 1], moves[|moves| - 1];
      assert moves == front + [v];
      OneMore(START, front, v);
      DriverTurns(front);
    }
  }

  /** In every run the driver goes round in one order: it asks whether work is
      left, waits to be woken or due, runs the inbox, fires its timers, and asks
      again. */
  lemma GoesRound(moves: seq<Move>, v: Move)
    requires Possible(START, moves + [v]) && Turns(v)
    ensures MayTurn(LastTurn(moves), v)
  {
    OneMore(START, moves, v);
    DriverTurns(moves);
  }

  // Waking.

  function SpawnMove(m: Caller, i: nat): Move
    requires i < |m.spawns|
  {
    match m.spawns[i].at
    case InTask(_) => EndTask(i, false)
    case Posting(_, _) => Append(i)
    case Waking(_) => Wake(i)
    case Looping => Loop(i)
    case FinishLoop => Loop(i)
    case Recovering(_) => Recover(i)
    case _ => Abort(i)
  }

  /** A driver blocked over a delivery has a wake pending, or a poster about
      to wake it. */
  lemma NoLostWake(m: Caller)
    requires Invariant(m) && m.driver.Blocked? && m.inbox != []
    ensures Enabled(m, TakeWake) || exists i :: 0 <= i < |m.spawns| && Enabled(m, Wake(i))
  {
    if !m.wake {
      var i :| 0 <= i < |m.spawns| && m.spawns[i].at.Waking?;
      assert Enabled(m, Wake(i));
    }
  }

  /** A caller that waits only for spawns that are all over is woken. */
  lemma BlockedIsWoken(m: Caller)
    requires Invariant(m) && m.driver.Blocked? && m.timers == 0
    requires forall i :: 0 <= i < |m.spawns| ==> m.spawns[i].at.Over?
    ensures Enabled(m, TakeWake) && m.inbox != []
  {
    SpawnedCounts(m);
    var i :| i in Unrun(m);
    assert Stays(m.spawns[i]) && In(Posted(m), i);
    assert Posted(m) == m.ran + m.inbox;
  }

  /** Until the caller is done or has failed, something can move. */
  lemma NeverStuck(m: Caller)
    requires Invariant(m) && !m.driver.Done? && !m.driver.Failed?
    ensures exists v :: Enabled(m, v)
  {
    match m.driver
    case Code(_) => assert Enabled(m, EndCode);
    case Testing => assert Enabled(m, Test);
    case Woken => assert Enabled(m, TakeInbox);
    case RunningInbox(items) => assert Enabled(m, if items == [] then EndInbox else RunItem);
    case Firing => assert Enabled(m, EndFiring);
    case Blocked =>
      if m.timers > 0 {
        assert Enabled(m, Due);
      } else if i :| 0 <= i < |m.spawns| && !m.spawns[i].at.Over? {
        assert Enabled(m, SpawnMove(m, i));
      } else {
        BlockedIsWoken(m);
      }
  }
}
