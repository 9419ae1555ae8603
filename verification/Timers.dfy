/**
  A domain's timers (backend/runtime/domain.go): set by its code, cleared by
  id, and fired by fireDue when due. The clock never goes back. What callbacks
  and other tasks do between two firings, and how long they take, is any
  sequence of steps.
*/
module Timers {
  import opened Floats
  import opened Options

  // when is in nanoseconds, as now is.
  datatype Timer = Timer(when: nat, order: nat, id: nat)

  const MILLISECOND := 1_000_000

  // timerHeap's order.
  predicate Before(a: Timer, b: Timer) { a.when < b.when || (a.when == b.when && a.order < b.order) }

  predicate InRange(ms: Float) { ms.Num? && 1.0 <= ms.v <= 0x7FFF_FFFF as real }

  // timerDelay: a fraction of a millisecond is kept, and of a nanosecond lost.
  function Delay(ms: Float): (delay: nat)
    ensures MILLISECOND <= delay <= 0x7FFF_FFFF * MILLISECOND
    ensures if ms.Num? && 1.0 <= ms.v <= 2147483647.0
            then delay as real / 1000000.0 <= ms.v < (delay + 1) as real / 1000000.0
            else delay == 1000000
  {
    if InRange(ms) then (ms.v * MILLISECOND as real).Floor else MILLISECOND
  }

  // What a domain's timers have come to: ids is the process's count, which
  // other domains' timers add to, and the last three are the run's history.
  datatype State = State(
    timers: set<Timer>, byID: map<nat, Timer>, order: nat, ids: nat, now: nat,
    made: set<Timer>, fired: seq<Timer>, cleared: set<Timer>)

  const START := State({}, map[], 0, 0, 0, {}, [], {})

  datatype Act =
    | SetTimeout(ms: Float, skipped: nat)   // after skipped ids went to other domains
    | ClearTimeout(id: nat)
    | Pass(time: nat)
    | Fire(t: Timer)                        // a turn of fireDue

  function NewTimer(s: State, ms: Float, skipped: nat): Timer {
    Timer(s.now + Delay(ms), s.order + 1, s.ids + skipped + 1)
  }

  predicate IsFirst(timers: set<Timer>, t: Timer) { t in timers && forall u :: u in timers && u != t ==> Before(t, u) }

  predicate Enabled(s: State, a: Act) { a.Fire? ==> IsFirst(s.timers, a.t) && a.t.when <= s.now }

  function Apply(s: State, a: Act): State {
    match a
    case SetTimeout(ms, skipped) =>
      var t := NewTimer(s, ms, skipped);
      s.(timers := s.timers + {t}, byID := s.byID[t.id := t], order := t.order, ids := t.id, made := s.made + {t})
    case ClearTimeout(id) =>
      if id !in s.byID then s
      else s.(timers := s.timers - {s.byID[id]}, byID := s.byID - {id}, cleared := s.cleared + {s.byID[id]})
    case Pass(time) => s.(now := s.now + time)
    case Fire(t) => s.(timers := s.timers - {t}, byID := s.byID - {t.id}, fired := s.fired + [t])
  }

  predicate Possible(s: State, acts: seq<Act>)
    decreases |acts|
  {
    acts == [] || (Enabled(s, acts[0]) && Possible(Apply(s, acts[0]), acts[1..]))
  }

  function After(s: State, acts: seq<Act>): State
    decreases |acts|
  {
    if acts == [] then s else After(Apply(s, acts[0]), acts[1..])
  }

  // byID holds the timers still set, each under its own id, which is below ids.
  ghost predicate Known(s: State) {
    && (forall id :: id in s.byID ==> s.byID[id] in s.timers && s.byID[id].id == id)
    && (forall t :: t in s.timers ==> t.id in s.byID && s.byID[t.id] == t)
    && (forall t :: t in s.made ==> t.id <= s.ids && t.order <= s.order)
    && (forall t, u :: t in s.made && u in s.made && (t.id == u.id || t.order == u.order) ==> t == u)
  }

  // Each timer made is still set, or has fired once, or has been cleared.
  ghost predicate Accounted(s: State) {
    && (forall t :: t in s.made <==> t in s.timers || t in s.fired || t in s.cleared)
    && s.timers !! s.cleared
    && (forall i :: 0 <= i < |s.fired| ==> s.fired[i] !in s.timers && s.fired[i] !in s.cleared)
  }

  // Firing has been in order, and whatever is still to fire, set or not, comes after.
  ghost predicate Ordered(s: State) {
    && (forall i, j :: 0 <= i < j < |s.fired| ==> Before(s.fired[i], s.fired[j]))
    && (forall i, t :: 0 <= i < |s.fired| && t in s.timers ==> Before(s.fired[i], t))
    && (forall i :: 0 <= i < |s.fired| ==> s.fired[i].when <= s.now)
  }

  ghost predicate Invariant(s: State) { Known(s) && Accounted(s) && Ordered(s) }

  lemma KnownStep(s: State, a: Act)
    requires Known(s) && Accounted(s) && Enabled(s, a)
    ensures Known(Apply(s, a))
  {
  }

  lemma AccountedStep(s: State, a: Act)
    requires Known(s) && Accounted(s) && Enabled(s, a)
    ensures Accounted(Apply(s, a))
  {
    if a.SetTimeout? { assert NewTimer(s, a.ms, a.skipped) !in s.made; }
  }

  // A new timer is due after now, and what has fired was due by now.
  lemma OrderedStep(s: State, a: Act)
    requires Invariant(s) && Enabled(s, a)
    ensures Ordered(Apply(s, a))
  {
  }

  lemma {:induction false} RunsKeepTheInvariant(s: State, acts: seq<Act>)
    requires Invariant(s) && Possible(s, acts)
    ensures Invariant(After(s, acts))
    decreases |acts|
  {
    if acts != [] {
      KnownStep(s, acts[0]);
      AccountedStep(s, acts[0]);
      OrderedStep(s, acts[0]);
      RunsKeepTheInvariant(Apply(s, acts[0]), acts[1..]);
    }
  }

  /**
    Timers fire by due time and then by when they were set, over the whole of
    every run, whatever callbacks set and clear on the way: the fired timers
    are in strict order, so each fires once; none of them was cleared, and all
    still set come after every one.
  */
  lemma FiresInOrder(acts: seq<Act>)
    requires Possible(START, acts)
    ensures var s := After(START, acts);
      && (forall i, j :: 0 <= i < j < |s.fired| ==>
            s.fired[i].when < s.fired[j].when || (s.fired[i].when == s.fired[j].when && s.fired[i].order < s.fired[j].order))
      && (forall i, t :: 0 <= i < |s.fired| && t in s.timers ==>
            s.fired[i].when < t.when || (s.fired[i].when == t.when && s.fired[i].order < t.order))
      && (forall t :: t in s.made <==> t in s.timers || t in s.fired || t in s.cleared)
      && (forall i :: 0 <= i < |s.fired| ==> s.fired[i] !in s.timers && s.fired[i] !in s.cleared)
      && s.timers !! s.cleared
  {
    RunsKeepTheInvariant(START, acts);
  }

  lemma {:induction false} HistoryStays(s: State, acts: seq<Act>)
    requires Possible(s, acts)
    ensures var e := After(s, acts);
      s.fired <= e.fired && s.cleared <= e.cleared && s.made <= e.made && s.now <= e.now && s.order <= e.order
    decreases |acts|
  {
    if acts != [] { HistoryStays(Apply(s, acts[0]), acts[1..]); }
  }

  // How long some steps take.
  function Elapsed(acts: seq<Act>): nat {
    if acts == [] then 0 else (if acts[0].Pass? then acts[0].time else 0) + Elapsed(acts[1..])
  }

  lemma {:induction false} ClockRuns(s: State, acts: seq<Act>)
    ensures After(s, acts).now == s.now + Elapsed(acts)
    decreases |acts|
  {
    if acts != [] { ClockRuns(Apply(s, acts[0]), acts[1..]); }
  }

  lemma {:induction false} OneMore(s: State, acts: seq<Act>, a: Act)
    requires Possible(s, acts + [a])
    ensures Possible(s, acts) && Enabled(After(s, acts), a)
    decreases |acts|
  {
    if acts == [] {
      assert (acts + [a])[0] == a;
    } else {
      assert (acts + [a])[1..] == acts[1..] + [a];
      OneMore(Apply(s, acts[0]), acts[1..], a);
    }
  }

  /** A timer is due once its delay has passed since it was set, and not before:
      however its domain spends the time, it does not fire sooner. */
  lemma {:induction false} DueAfterItsDelay(s: State, ms: Float, n: nat, between: seq<Act>)
    ensures var t, now := NewTimer(s, ms, n), After(s, [SetTimeout(ms, n)] + between).now;
      t.when <= now <==> Delay(ms) <= Elapsed(between)
    ensures Possible(s, [SetTimeout(ms, n)] + between + [Fire(NewTimer(s, ms, n))]) ==> Delay(ms) <= Elapsed(between)
  {
    var acts := [SetTimeout(ms, n)] + between;
    assert acts[1..] == between;
    ClockRuns(s, acts);
    if Possible(s, acts + [Fire(NewTimer(s, ms, n))]) { OneMore(s, acts, Fire(NewTimer(s, ms, n))); }
  }

  /** Of two timers set one after the other, the second no shorter, the first fires first. */
  lemma {:induction false} ShorterFiresFirst(s: State, ms: Float, n: nat, between: seq<Act>, ms': Float, n': nat)
    requires Possible(s, [SetTimeout(ms, n)] + between) && Delay(ms) <= Delay(ms')
    ensures Before(NewTimer(s, ms, n), NewTimer(After(s, [SetTimeout(ms, n)] + between), ms', n'))
  {
    var acts := [SetTimeout(ms, n)] + between;
    assert acts[1..] == between;
    HistoryStays(Apply(s, acts[0]), between);
  }

  /** A timer fired or cleared is gone: clearing its id does nothing. */
  lemma ClearedOnce(acts: seq<Act>, t: Timer)
    requires Possible(START, acts)
    requires t in After(START, acts).fired || t in After(START, acts).cleared
    ensures Apply(After(START, acts), ClearTimeout(t.id)) == After(START, acts)
  {
    RunsKeepTheInvariant(START, acts);
  }

  lemma {:induction false} SomeFirst(timers: set<Timer>) returns (t: Timer)
    requires timers != {} && forall a, b :: a in timers && b in timers && a.order == b.order ==> a == b
    ensures IsFirst(timers, t)
    decreases |timers|
  {
    t :| t in timers;
    var rest := timers - {t};
    if rest != {} {
      var least := SomeFirst(rest);
      assert forall u :: u in timers && u != t ==> u in rest;
      if Before(least, t) { t := least; }
    }
  }

  /** fireDue's loop can go on exactly while a timer is due. */
  lemma FiresWhileDue(acts: seq<Act>)
    requires Possible(START, acts)
    ensures var s := After(START, acts); (exists t :: Enabled(s, Fire(t))) <==> exists t :: t in s.timers && t.when <= s.now
  {
    RunsKeepTheInvariant(START, acts);
    var s := After(START, acts);
    if t :| t in s.timers && t.when <= s.now {
      var first := SomeFirst(s.timers);
      assert Enabled(s, Fire(first));
    }
    if t :| Enabled(s, Fire(t)) { assert t in s.timers; }
  }
}
