/**
  What a domain has done, of every run, is what EventOrder allows, and all it
  allows some run does: the thread's queue, reactions and notes, and with them
  the goroutines' handoffs, come to the order the events alone define.
*/
module SchedulerLog {
  import opened Options
  import opened JobQueue
  import opened EventOrder
  import opened Goroutines
  import opened SchedulerInvariant
  import opened SchedulerRefinement
  import opened SchedulerTheorem
  import opened SchedulerSafety
  import opened SchedulerSteps

  // The store, told from the log. queue and waits are the events of the awaits
  // that the jobs and each promise's reactions are for.

  ghost predicate PromiseAgrees(log: seq<Event>, p: nat, q: Promise) {
    && (q.settled <==> SettledAt(log, p).Some?)
    && (if q.settled then q.reason == ReasonOf(log, p) else q.reason.None?)
    && (q.handled <==> Awaited(log, p))
  }

  ghost predicate PromisesAgree(log: seq<Event>, promises: seq<Promise>) {
    |promises| == Made(log) && forall p :: 0 <= p < |promises| ==> PromiseAgrees(log, p, promises[p])
  }

  predicate WaitAgrees(log: seq<Event>, p: nat, q: Promise, wait: seq<nat>) {
    && |wait| == |q.reactions| && (q.settled ==> wait == [])
    && (forall t :: 0 <= t < |wait| ==> Open(log, wait[t], q.reactions[t], p))
    && (forall t, u :: 0 <= t < u < |wait| ==> wait[t] < wait[u])
  }

  predicate WaitsAgree(log: seq<Event>, promises: seq<Promise>, waits: seq<seq<nat>>) {
    |waits| == |promises| && forall p :: 0 <= p < |promises| ==> WaitAgrees(log, p, promises[p], waits[p])
  }

  predicate QueueAgrees(log: seq<Event>, micro: seq<Job>, queue: seq<nat>) {
    && |queue| == |micro|
    && (forall t :: 0 <= t < |queue| ==> Ready(log, queue[t], micro[t].c, micro[t].p))
    && (forall t, u :: 0 <= t < u < |queue| ==> Before(log, queue[t], micro[t].p, queue[u], micro[u].p))
  }

  ghost predicate Kept(log: seq<Event>, promises: seq<Promise>, queue: seq<nat>, waits: seq<seq<nat>>) {
    && |waits| == |promises|
    && forall i: nat, c: nat, p: nat :: Open(log, i, c, p) ==> p < |promises| && i in if promises[p].settled then queue else waits[p]
  }

  predicate Rejections(log: seq<Event>, rejected: seq<nat>) {
    && (forall t :: 0 <= t < |rejected| ==> SettledAt(log, rejected[t]).Some? && ReasonOf(log, rejected[t]).Some?)
    && (forall t, u :: 0 <= t < u < |rejected| ==> SettledAt(log, rejected[t]).value < SettledAt(log, rejected[u]).value)
  }

  ghost predicate RejectedAgree(log: seq<Event>, rejected: seq<nat>) {
    Rejections(log, rejected) && forall p: nat :: LeftAlone(log, p) ==> p in rejected
  }

  ghost predicate Agrees(s: Store, queue: seq<nat>, waits: seq<seq<nat>>) {
    && s.own == Owns(s.log) && PromisesAgree(s.log, s.promises) && WaitsAgree(s.log, s.promises, waits)
    && QueueAgrees(s.log, s.micro, queue) && Kept(s.log, s.promises, queue, waits) && RejectedAgree(s.log, s.rejected)
  }

  // An event of no call that waits.
  ghost predicate Aside(log: seq<Event>, e: Event) {
    forall i: nat, c: nat, p: nat :: Open(log, i, c, p) ==> !Of(e, c)
  }

  predicate AwaitOf(log: seq<Event>, e: Event, p: nat) { e.Did? && e.i == Await(p) && 0 < e.g && p < Made(log) }

  // Each part, one event later.

  lemma AwaitedLater(log: seq<Event>, e: Event, p: nat)
    ensures Awaited(log + [e], p) <==> Awaited(log, p) || AwaitOf(log, e, p)
  {
    hide Awaits;
    var after := log + [e];
    if Awaited(log, p) {
      var i, c :| Awaits(log, i, c, p);
      AwaitsLater(log, e, i, c, p);
      assert Awaits(after, i, c, p);
    }
    if AwaitOf(log, e, p) {
      AwaitsLater(log, e, |log|, e.g, p);
      assert Awaits(after, |log|, e.g, p);
    }
    if Awaited(after, p) {
      var i, c :| Awaits(after, i, c, p);
      AwaitsLater(log, e, i, c, p);
    }
  }

  lemma PromiseLater(log: seq<Event>, e: Event, p: nat, q: Promise)
    requires PromiseAgrees(log, p, q) && (q.settled || !Settles(log, e, p)) && !AwaitOf(log, e, p)
    ensures PromiseAgrees(log + [e], p, q)
  {
    hide SettledAt, Settles, Awaited, AwaitOf;
    SettledLater(log, e, p);
    AwaitedLater(log, e, p);
  }

  lemma WaitLater(log: seq<Event>, e: Event, p: nat, q: Promise, wait: seq<nat>)
    requires WaitAgrees(log, p, q, wait) && forall t :: 0 <= t < |wait| ==> !Of(e, q.reactions[t])
    ensures WaitAgrees(log + [e], p, q, wait)
  {
    hide Open, Of;
    forall t | 0 <= t < |wait|
      ensures Open(log + [e], wait[t], q.reactions[t], p)
    {
      OpenLater(log, e, wait[t], q.reactions[t], p);
    }
  }

  lemma AsideWait(log: seq<Event>, e: Event, p: nat, q: Promise, wait: seq<nat>)
    requires WaitAgrees(log, p, q, wait) && Aside(log, e)
    ensures forall t :: 0 <= t < |wait| ==> !Of(e, q.reactions[t])
    ensures WaitAgrees(log + [e], p, q, wait)
  {
    hide Open, Of;
    forall t | 0 <= t < |wait|
      ensures !Of(e, q.reactions[t])
    {
      assert Open(log, wait[t], q.reactions[t], p);
    }
    WaitLater(log, e, p, q, wait);
  }

  lemma BeforeLater(log: seq<Event>, e: Event, i: nat, p: nat, j: nat, q: nat)
    requires Before(log, i, p, j, q)
    ensures Before(log + [e], i, p, j, q)
  {
    hide SettledAt;
    SettledLater(log, e, p);
    SettledLater(log, e, q);
  }

  lemma ReadyLater(log: seq<Event>, e: Event, i: nat, c: nat, p: nat)
    requires Ready(log, i, c, p) && !Of(e, c)
    ensures Ready(log + [e], i, c, p) && ReadyAt(log + [e], i, p) == ReadyAt(log, i, p)
  {
    hide SettledAt, Open, Of;
    SettledLater(log, e, p);
    OpenLater(log, e, i, c, p);
  }

  lemma QueueLater(log: seq<Event>, e: Event, micro: seq<Job>, queue: seq<nat>)
    requires QueueAgrees(log, micro, queue) && forall t :: 0 <= t < |micro| ==> !Of(e, micro[t].c)
    ensures QueueAgrees(log + [e], micro, queue)
  {
    hide Ready, Before, Of;
    forall t | 0 <= t < |queue|
      ensures Ready(log + [e], queue[t], micro[t].c, micro[t].p)
    {
      ReadyLater(log, e, queue[t], micro[t].c, micro[t].p);
    }
    forall t, u | 0 <= t < u < |queue|
      ensures Before(log + [e], queue[t], micro[t].p, queue[u], micro[u].p)
    {
      BeforeLater(log, e, queue[t], micro[t].p, queue[u], micro[u].p);
    }
  }

  lemma AsideJobs(log: seq<Event>, e: Event, micro: seq<Job>, queue: seq<nat>)
    requires QueueAgrees(log, micro, queue) && Aside(log, e)
    ensures forall t :: 0 <= t < |micro| ==> !Of(e, micro[t].c)
  {
    forall t | 0 <= t < |micro|
      ensures !Of(e, micro[t].c)
    {
      assert Ready(log, queue[t], micro[t].c, micro[t].p);
      assert Open(log, queue[t], micro[t].c, micro[t].p);
    }
  }

  lemma RejectedLater(log: seq<Event>, e: Event, rejected: seq<nat>)
    requires RejectedAgree(log, rejected) && forall p: nat :: Settles(log, e, p) ==> SettledAt(log, p).Some?
    ensures RejectedAgree(log + [e], rejected)
  {
    hide SettledAt, Settles, Awaited, AwaitOf, Rejections;
    RejectionsLater(log, e, rejected);
    forall p: nat | LeftAlone(log + [e], p)
      ensures LeftAlone(log, p)
    {
      SettledLater(log, e, p);
      AwaitedLater(log, e, p);
    }
  }

  // An event that changes nothing.
  lemma AgreesNote(s: Store, e: Event, queue: seq<nat>, waits: seq<seq<nat>>)
    requires Agrees(s, queue, waits) && Aside(s.log, e) && !Makes(e)
    requires forall p: nat :: Settles(s.log, e, p) ==> SettledAt(s.log, p).Some?
    requires forall p: nat :: !AwaitOf(s.log, e, p)
    ensures Agrees(Note(s, e), queue, waits)
  {
    hide WaitAgrees, QueueAgrees, RejectedAgree, Open, Settles;
    var log := s.log;
    Pushed(log, e);
    forall p | 0 <= p < |s.promises|
      ensures PromiseAgrees(log + [e], p, s.promises[p]) && WaitAgrees(log + [e], p, s.promises[p], waits[p])
    {
      assert PromiseAgrees(log, p, s.promises[p]);
      PromiseLater(log, e, p, s.promises[p]);
      AsideWait(log, e, p, s.promises[p], waits[p]);
    }
    AsideJobs(log, e, s.micro, queue);
    QueueLater(log, e, s.micro, queue);
    RejectedLater(log, e, s.rejected);
    forall i: nat, c: nat, p: nat | Open(log + [e], i, c, p)
      ensures Open(log, i, c, p)
    {
      OpenLater(log, e, i, c, p);
      assert !AwaitOf(log, e, p);
    }
  }

  // A promise not made yet is unsettled and no call awaits it.
  lemma NewAgrees(log: seq<Event>, e: Event)
    requires Makes(e)
    ensures PromiseAgrees(log + [e], Made(log), PENDING) && WaitAgrees(log + [e], Made(log), PENDING, [])
  {
    var n := Made(log);
    if SettledAt(log, n).Some? || Awaited(log, n) { SettledIsMade(log, n); }
    SettledLater(log, e, n);
    AwaitedLater(log, e, n);
  }

  // A promise made, for a call or by new Promise.
  lemma AgreesMake(s: Store, e: Event, queue: seq<nat>, waits: seq<seq<nat>>)
    requires Agrees(s, queue, waits) && Aside(s.log, e) && Makes(e)
    ensures Agrees(if e.i.Call? then Begin(Note(s, e)) else Make(Note(s, e)), queue, waits + [[]])
  {
    hide PromiseAgrees, WaitAgrees, QueueAgrees, RejectedAgree, Open, SettledAt;
    var log, n := s.log, |s.promises|;
    var after, promises, wider := log + [e], s.promises + [PENDING], waits + [[]];
    Pushed(log, e);
    NewAgrees(log, e);
    forall p | 0 <= p < |promises|
      ensures PromiseAgrees(after, p, promises[p]) && WaitAgrees(after, p, promises[p], wider[p])
    {
      if p < n {
        PromiseLater(log, e, p, s.promises[p]);
        AsideWait(log, e, p, s.promises[p], waits[p]);
      }
    }
    AsideJobs(log, e, s.micro, queue);
    QueueLater(log, e, s.micro, queue);
    RejectedLater(log, e, s.rejected);
    KeptMake(s, e, queue, waits);
  }

  lemma KeptMake(s: Store, e: Event, queue: seq<nat>, waits: seq<seq<nat>>)
    requires Kept(s.log, s.promises, queue, waits) && Makes(e)
    ensures Kept(s.log + [e], s.promises + [PENDING], queue, waits + [[]])
  {
    hide Open;
    var promises, wider := s.promises + [PENDING], waits + [[]];
    forall i: nat, c: nat, p: nat | Open(s.log + [e], i, c, p)
      ensures p < |promises| && i in if promises[p].settled then queue else wider[p]
    {
      OpenLater(s.log, e, i, c, p);
      assert !AwaitOf(s.log, e, p);
    }
  }

  // A job for each call that waits, when what it waits for settles.
  lemma QueueMore(log: seq<Event>, micro: seq<Job>, queue: seq<nat>, p: nat, wait: seq<nat>, calls: seq<nat>, now: nat)
    requires QueueAgrees(log, micro, queue) && |wait| == |calls|
    requires forall t :: 0 <= t < |queue| ==> ReadyAt(log, queue[t], micro[t].p).value < now
    requires forall t :: 0 <= t < |wait| ==> Ready(log, wait[t], calls[t], p) && ReadyAt(log, wait[t], p) == Some(now)
    requires forall t, u :: 0 <= t < u < |wait| ==> wait[t] < wait[u]
    ensures QueueAgrees(log, micro + JobsOf(calls, p), queue + wait)
  {
    hide Open, SettledAt;
    var jobs, all := micro + JobsOf(calls, p), queue + wait;
    forall t | 0 <= t < |all|
      ensures Ready(log, all[t], jobs[t].c, jobs[t].p)
      ensures if t < |queue| then ReadyAt(log, all[t], jobs[t].p).value < now else ReadyAt(log, all[t], jobs[t].p) == Some(now)
    {
      if t < |queue| { assert all[t] == queue[t] && jobs[t] == micro[t]; }
      else { assert all[t] == wait[t - |queue|] && jobs[t] == Job(calls[t - |queue|], p); }
    }
    forall t, u | 0 <= t < u < |all|
      ensures Before(log, all[t], jobs[t].p, all[u], jobs[u].p)
    {
      if u < |queue| { assert Before(log, queue[t], micro[t].p, queue[u], micro[u].p); }
    }
  }

  // What was ready is ready no later for a longer log, and before its end.
  lemma ReadyBefore(log: seq<Event>, e: Event, micro: seq<Job>, queue: seq<nat>)
    requires QueueAgrees(log, micro, queue)
    ensures forall t :: 0 <= t < |queue| ==>
      ReadyAt(log + [e], queue[t], micro[t].p).Some? && ReadyAt(log + [e], queue[t], micro[t].p).value < |log|
  {
    hide SettledAt;
    forall t | 0 <= t < |queue|
      ensures ReadyAt(log + [e], queue[t], micro[t].p).Some? && ReadyAt(log + [e], queue[t], micro[t].p).value < |log|
    {
      assert Ready(log, queue[t], micro[t].c, micro[t].p);
      SettledLater(log, e, micro[t].p);
    }
  }

  // What settles, settles one.
  lemma SettlesOne(log: seq<Event>, e: Event, p: nat, q: nat)
    requires Settles(log, e, p) && Settles(log, e, q)
    ensures p == q
  {
  }

  lemma SettlesOnly(log: seq<Event>, e: Event, p: nat)
    requires Settles(log, e, p)
    ensures Made(log + [e]) == Made(log) && Owns(log + [e]) == Owns(log)
    ensures forall x :: !AwaitOf(log, e, x)
  {
    Pushed(log, e);
  }

  lemma FirstSettle(log: seq<Event>, e: Event, p: nat, q: Promise)
    requires PromiseAgrees(log, p, q) && !q.settled && Settles(log, e, p)
    ensures SettledAt(log + [e], p) == Some(|log|) && ReasonOf(log + [e], p) == ReasonIn(e)
    ensures PromiseAgrees(log + [e], p, Promise(true, ReasonIn(e), q.handled, []))
  {
    Pushed(log, e);
    AwaitedLater(log, e, p);
  }

  lemma QueueSettle(s: Store, e: Event, p: nat, queue: seq<nat>, wait: seq<nat>)
    requires QueueAgrees(s.log, s.micro, queue) && Aside(s.log, e)
    requires p < |s.promises| && WaitAgrees(s.log, p, s.promises[p], wait)
    requires SettledAt(s.log + [e], p) == Some(|s.log|)
    ensures QueueAgrees(s.log + [e], s.micro + JobsOf(s.promises[p].reactions, p), queue + wait)
  {
    hide QueueAgrees, SettledAt;
    var after, calls := s.log + [e], s.promises[p].reactions;
    AsideJobs(s.log, e, s.micro, queue);
    QueueLater(s.log, e, s.micro, queue);
    ReadyBefore(s.log, e, s.micro, queue);
    AsideWait(s.log, e, p, s.promises[p], wait);
    forall t | 0 <= t < |wait|
      ensures Ready(after, wait[t], calls[t], p) && ReadyAt(after, wait[t], p) == Some(|s.log|)
    {
      assert Open(s.log, wait[t], calls[t], p);
    }
    QueueMore(after, s.micro, queue, p, wait, calls, |s.log|);
  }

  lemma RejectedSettle(log: seq<Event>, e: Event, p: nat, q: Promise, rejected: seq<nat>)
    requires RejectedAgree(log, rejected) && PromiseAgrees(log, p, q) && !q.settled && Settles(log, e, p)
    ensures RejectedAgree(log + [e], if ReasonIn(e).Some? && !q.handled then rejected + [p] else rejected)
  {
    hide SettledAt, Settles, LeftAlone, Awaited, ReasonIn, Rejections;
    var noted := if ReasonIn(e).Some? && !q.handled then rejected + [p] else rejected;
    FirstSettle(log, e, p, q);
    RejectionsLater(log, e, rejected);
    if ReasonIn(e).Some? && !q.handled { RejectionsMore(log, e, rejected, p); }
    forall x: nat | LeftAlone(log + [e], x)
      ensures x in noted
    {
      LeftAloneSettle(log, e, p, q, x);
    }
  }

  lemma LeftAloneSettle(log: seq<Event>, e: Event, p: nat, q: Promise, x: nat)
    requires PromiseAgrees(log, p, q) && !q.settled && Settles(log, e, p) && LeftAlone(log + [e], x)
    ensures if x == p then ReasonIn(e).Some? && !q.handled else LeftAlone(log, x)
  {
    hide SettledAt, Settles, Awaited, ReasonIn;
    FirstSettle(log, e, p, q);
    SettledLater(log, e, x);
    AwaitedLater(log, e, x);
    if SettledAt(log, x).None? { SettlesOne(log, e, p, x); }
  }

  lemma RejectionsLater(log: seq<Event>, e: Event, rejected: seq<nat>)
    requires Rejections(log, rejected)
    ensures Rejections(log + [e], rejected)
    ensures forall t :: 0 <= t < |rejected| ==> SettledAt(log + [e], rejected[t]).value < |log|
  {
    hide SettledAt, Settles, ReasonOf;
    var after := log + [e];
    forall t | 0 <= t < |rejected|
      ensures SettledAt(after, rejected[t]).Some? && ReasonOf(after, rejected[t]).Some?
      ensures SettledAt(after, rejected[t]).value == SettledAt(log, rejected[t]).value < |log|
    {
      SettledLater(log, e, rejected[t]);
    }
  }

  lemma RejectionsMore(log: seq<Event>, e: Event, rejected: seq<nat>, p: nat)
    requires Rejections(log, rejected) && SettledAt(log + [e], p) == Some(|log|) && ReasonOf(log + [e], p).Some?
    ensures Rejections(log + [e], rejected + [p])
  {
    hide SettledAt, Settles;
    RejectionsLater(log, e, rejected);
  }

  lemma KeptSettle(s: Store, e: Event, p: nat, queue: seq<nat>, waits: seq<seq<nat>>)
    requires Kept(s.log, s.promises, queue, waits) && p < |s.promises| && !s.promises[p].settled && Settles(s.log, e, p)
    ensures Kept(s.log + [e], SettleP(s, p, ReasonIn(e)).promises, queue + waits[p], waits[p := []])
  {
    hide Open;
    var promises, all := SettleP(s, p, ReasonIn(e)).promises, queue + waits[p];
    forall i: nat, c: nat, q: nat | Open(s.log + [e], i, c, q)
      ensures q < |promises| && i in if promises[q].settled then all else waits[p := []][q]
    {
      OpenLater(s.log, e, i, c, q);
      assert !AwaitOf(s.log, e, q);
    }
  }

  lemma AgreesFirstSettle(s: Store, e: Event, p: nat, queue: seq<nat>, waits: seq<seq<nat>>)
    requires Agrees(s, queue, waits) && Aside(s.log, e) && Settles(s.log, e, p) && p < |s.promises| && !s.promises[p].settled
    ensures Agrees(SettleP(Note(s, e), p, ReasonIn(e)), queue + waits[p], waits[p := []])
  {
    hide PromiseAgrees, WaitAgrees, QueueAgrees, RejectedAgree, Kept, Open, Settles, SettledAt;
    var log, after, q := s.log, s.log + [e], s.promises[p];
    var t := SettleP(Note(s, e), p, ReasonIn(e));
    SettlesOnly(log, e, p);
    FirstSettle(log, e, p, q);
    QueueSettle(s, e, p, queue, waits[p]);
    RejectedSettle(log, e, p, q, s.rejected);
    KeptSettle(s, e, p, queue, waits);
    assert WaitAgrees(after, p, t.promises[p], []) by { WaitAgrees0(after, p, t.promises[p]); }
    forall x | 0 <= x < |s.promises| && x != p
      ensures PromiseAgrees(after, x, t.promises[x]) && WaitAgrees(after, x, t.promises[x], waits[x])
    {
      if Settles(log, e, x) { SettlesOne(log, e, p, x); }
      PromiseLater(log, e, x, s.promises[x]);
      AsideWait(log, e, x, s.promises[x], waits[x]);
    }
  }

  lemma WaitAgrees0(log: seq<Event>, p: nat, q: Promise)
    requires q.reactions == []
    ensures WaitAgrees(log, p, q, [])
  {
  }

  // An await, of a promise settled or not.

  lemma QueueAwait(s: Store, e: Event, p: nat, queue: seq<nat>)
    requires QueueAgrees(s.log, s.micro, queue) && Aside(s.log, e) && AwaitOf(s.log, e, p) && SettledAt(s.log, p).Some?
    ensures QueueAgrees(s.log + [e], s.micro + [Job(e.g, p)], queue + [|s.log|])
  {
    hide QueueAgrees, SettledAt;
    AsideJobs(s.log, e, s.micro, queue);
    QueueLater(s.log, e, s.micro, queue);
    ReadyBefore(s.log, e, s.micro, queue);
    OpenLater(s.log, e, |s.log|, e.g, p);
    SettledLater(s.log, e, p);
    QueueMore(s.log + [e], s.micro, queue, p, [|s.log|], [e.g], |s.log|);
    assert JobsOf([e.g], p) == [Job(e.g, p)];
  }

  lemma WaitAwait(log: seq<Event>, e: Event, p: nat, q: Promise, wait: seq<nat>)
    requires WaitAgrees(log, p, q, wait) && Aside(log, e) && AwaitOf(log, e, p) && !q.settled
    ensures WaitAgrees(log + [e], p, q.(handled := true, reactions := q.reactions + [e.g]), wait + [|log|])
  {
    hide Open, Of;
    AsideWait(log, e, p, q, wait);
    OpenLater(log, e, |log|, e.g, p);
    forall t | 0 <= t < |wait|
      ensures wait[t] < |log|
    {
      OpenIsACall(log, wait[t], q.reactions[t], p);
    }
  }

  lemma PromiseAwait(log: seq<Event>, e: Event, p: nat, q: Promise, reactions: seq<nat>)
    requires PromiseAgrees(log, p, q) && AwaitOf(log, e, p)
    ensures PromiseAgrees(log + [e], p, q.(handled := true, reactions := reactions))
  {
    hide SettledAt;
    SettledLater(log, e, p);
    AwaitedLater(log, e, p);
  }

  lemma KeptAwait(s: Store, e: Event, p: nat, queue: seq<nat>, waits: seq<seq<nat>>)
    requires Kept(s.log, s.promises, queue, waits) && p < |s.promises| && AwaitOf(s.log, e, p)
    ensures var q := s.promises[p];
      Kept(s.log + [e], ThenResume(s, p, e.g).promises, if q.settled then queue + [|s.log|] else queue,
        if q.settled then waits else waits[p := waits[p] + [|s.log|]])
  {
    hide Open;
    var n := |s.log|;
    var promises := ThenResume(s, p, e.g).promises;
    var queue', waits' := if s.promises[p].settled then queue + [n] else queue, if s.promises[p].settled then waits else waits[p := waits[p] + [n]];
    forall i: nat, c: nat, q: nat | Open(s.log + [e], i, c, q)
      ensures q < |promises| && i in if promises[q].settled then queue' else waits'[q]
    {
      OpenLater(s.log, e, i, c, q);
      assert (queue + [n])[|queue|] == n && (waits[p] + [n])[|waits[p]|] == n;
    }
  }

  lemma AgreesAwait(s: Store, e: Event, p: nat, queue: seq<nat>, waits: seq<seq<nat>>)
    requires Agrees(s, queue, waits) && Aside(s.log, e) && AwaitOf(s.log, e, p)
    ensures p < |s.promises|
    ensures var settled := s.promises[p].settled;
      Agrees(ThenResume(Note(s, e), p, e.g), if settled then queue + [|s.log|] else queue,
        if settled then waits else waits[p := waits[p] + [|s.log|]])
  {
    hide PromiseAgrees, WaitAgrees, QueueAgrees, RejectedAgree, Kept, Open, Settles, SettledAt;
    var log, after, q := s.log, s.log + [e], s.promises[p];
    var t := ThenResume(Note(s, e), p, e.g);
    Pushed(log, e);
    AwaitSettlesNone(log, e);
    assert PromiseAgrees(log, p, q);
    KeptAwait(s, e, p, queue, waits);
    RejectedLater(log, e, s.rejected);
    PromiseAwait(log, e, p, q, t.promises[p].reactions);
    if q.settled {
      assert SettledAt(log, p).Some? by { SettledIsSettled(log, p, q); }
      QueueAwait(s, e, p, queue);
      AsideWait(log, e, p, q, waits[p]);
      SameReactions(after, p, q, t.promises[p], waits[p]);
    } else {
      AsideJobs(log, e, s.micro, queue);
      QueueLater(log, e, s.micro, queue);
      WaitAwait(log, e, p, q, waits[p]);
    }
    forall x | 0 <= x < |s.promises| && x != p
      ensures PromiseAgrees(after, x, t.promises[x]) && WaitAgrees(after, x, t.promises[x], waits[x])
    {
      PromiseLater(log, e, x, s.promises[x]);
      AsideWait(log, e, x, s.promises[x], waits[x]);
    }
  }

  lemma AwaitSettlesNone(log: seq<Event>, e: Event)
    requires e.Did? && e.i.Await?
    ensures forall p: nat :: !Settles(log, e, p)
  {
  }

  lemma SettledIsSettled(log: seq<Event>, p: nat, q: Promise)
    requires PromiseAgrees(log, p, q)
    ensures q.settled <==> SettledAt(log, p).Some?
  {
  }

  lemma SameReactions(log: seq<Event>, p: nat, q: Promise, r: Promise, wait: seq<nat>)
    requires WaitAgrees(log, p, q, wait) && r.reactions == q.reactions && (r.settled ==> q.settled)
    ensures WaitAgrees(log, p, r, wait)
  {
  }

  // A resume: the first job is done.

  lemma FirstIsOnly(log: seq<Event>, micro: seq<Job>, queue: seq<nat>, t: nat)
    requires QueueAgrees(log, micro, queue) && 0 < t < |micro|
    ensures micro[t].c != micro[0].c
  {
    hide Open, SettledAt;
    assert Ready(log, queue[t], micro[t].c, micro[t].p) && Ready(log, queue[0], micro[0].c, micro[0].p);
    assert Before(log, queue[0], micro[0].p, queue[t], micro[t].p);
    if micro[t].c == micro[0].c { OneOpen(log, queue[0], queue[t], micro[0].c, micro[0].p, micro[t].p); }
  }

  lemma QueueResume(log: seq<Event>, e: Event, micro: seq<Job>, queue: seq<nat>)
    requires QueueAgrees(log, micro, queue) && micro != [] && e.Resumed? && e.c == micro[0].c
    ensures QueueAgrees(log + [e], micro[1..], queue[1..])
  {
    forall t | 0 <= t < |micro[1..]|
      ensures !Of(e, micro[1..][t].c)
    {
      FirstIsOnly(log, micro, queue, t + 1);
    }
    assert QueueAgrees(log, micro[1..], queue[1..]) by {
      hide Ready, Before;
    }
    QueueLater(log, e, micro[1..], queue[1..]);
  }

  // No call that waits for an unsettled promise has a job.
  lemma WaitResume(s: Store, e: Event, p: nat, queue: seq<nat>, wait: seq<nat>)
    requires QueueAgrees(s.log, s.micro, queue) && s.micro != [] && e.Resumed? && e.c == s.micro[0].c
    requires p < |s.promises| && PromiseAgrees(s.log, p, s.promises[p]) && WaitAgrees(s.log, p, s.promises[p], wait)
    ensures WaitAgrees(s.log + [e], p, s.promises[p], wait)
  {
    hide Open, SettledAt;
    var job, q := s.micro[0], s.promises[p];
    assert Ready(s.log, queue[0], job.c, job.p);
    forall t | 0 <= t < |wait|
      ensures !Of(e, q.reactions[t])
    {
      assert Open(s.log, wait[t], q.reactions[t], p);
      if q.reactions[t] == job.c { OneOpen(s.log, queue[0], wait[t], job.c, job.p, p); }
    }
    WaitLater(s.log, e, p, q, wait);
  }

  lemma KeptResume(s: Store, e: Event, queue: seq<nat>, waits: seq<seq<nat>>)
    requires Kept(s.log, s.promises, queue, waits) && QueueAgrees(s.log, s.micro, queue)
    requires s.micro != [] && e.Resumed? && e.c == s.micro[0].c
    ensures Kept(s.log + [e], s.promises, queue[1..], waits)
  {
    hide Open;
    forall i: nat, c: nat, p: nat | Open(s.log + [e], i, c, p)
      ensures p < |s.promises| && i in if s.promises[p].settled then queue[1..] else waits[p]
    {
      OpenLater(s.log, e, i, c, p);
      assert Open(s.log, i, c, p);
      if s.promises[p].settled {
        var t :| 0 <= t < |queue| && queue[t] == i;
        assert Ready(s.log, queue[0], s.micro[0].c, s.micro[0].p);
        if t == 0 {
          OpenIsACall(s.log, i, c, p);
          OpenIsACall(s.log, i, s.micro[0].c, s.micro[0].p);
        } else {
          assert queue[1..][t - 1] == i;
        }
      }
    }
  }

  lemma AgreesResume(s: Store, e: Event, queue: seq<nat>, waits: seq<seq<nat>>)
    requires Agrees(s, queue, waits) && s.micro != [] && e.Resumed? && e.c == s.micro[0].c
    ensures queue != [] && Agrees(Note(s.(micro := s.micro[1..]), e), queue[1..], waits)
  {
    hide PromiseAgrees, WaitAgrees, QueueAgrees, RejectedAgree, Kept, Open, SettledAt;
    var log, after := s.log, s.log + [e];
    Pushed(log, e);
    QueueResume(log, e, s.micro, queue);
    KeptResume(s, e, queue, waits);
    RejectedLater(log, e, s.rejected);
    forall x | 0 <= x < |s.promises|
      ensures PromiseAgrees(after, x, s.promises[x]) && WaitAgrees(after, x, s.promises[x], waits[x])
    {
      PromiseLater(log, e, x, s.promises[x]);
      WaitResume(s, e, x, queue, waits[x]);
    }
    assert queue != [] by { SameLength(log, s.micro, queue); }
  }

  lemma SameLength(log: seq<Event>, micro: seq<Job>, queue: seq<nat>)
    requires QueueAgrees(log, micro, queue)
    ensures |queue| == |micro|
  {
  }

  // The first job is the next await's, and there is none when none is ready.

  lemma FirstJobIsNext(s: Store, queue: seq<nat>, waits: seq<seq<nat>>)
    requires Agrees(s, queue, waits) && s.micro != []
    ensures var job := s.micro[0];
      && job.p < |s.promises| && queue != [] && IsNext(s.log, queue[0], job.c, job.p)
      && s.promises[job.p].reason == ReasonOf(s.log, job.p)
  {
    hide Open, SettledAt, WaitAgrees, RejectedAgree;
    var job := s.micro[0];
    assert Ready(s.log, queue[0], job.c, job.p);
    OpenIsACall(s.log, queue[0], job.c, job.p);
    assert PromiseAgrees(s.log, job.p, s.promises[job.p]);
    forall j: nat, d: nat, q: nat | Ready(s.log, j, d, q) && j != queue[0]
      ensures Before(s.log, queue[0], job.p, j, q)
    {
      assert Open(s.log, j, d, q) && PromiseAgrees(s.log, q, s.promises[q]);
      var t :| 0 <= t < |queue| && queue[t] == j;
      assert Ready(s.log, queue[t], s.micro[t].c, s.micro[t].p);
      OpenIsACall(s.log, j, d, q);
      OpenIsACall(s.log, j, s.micro[t].c, s.micro[t].p);
      assert Before(s.log, queue[0], job.p, queue[t], s.micro[t].p);
    }
  }

  lemma ReadyIsQueued(s: Store, queue: seq<nat>, waits: seq<seq<nat>>, i: nat, c: nat, p: nat)
    requires Agrees(s, queue, waits) && Ready(s.log, i, c, p)
    ensures s.micro != []
  {
    hide Open, SettledAt, WaitAgrees, RejectedAgree;
    assert Open(s.log, i, c, p) && PromiseAgrees(s.log, p, s.promises[p]);
  }

  lemma NoJobNoneReady(s: Store, queue: seq<nat>, waits: seq<seq<nat>>)
    requires Agrees(s, queue, waits) && s.micro == []
    ensures NoneReady(s.log)
  {
    hide Agrees;
    forall i: nat, c: nat, p: nat
      ensures !Ready(s.log, i, c, p)
    {
      if Ready(s.log, i, c, p) { ReadyIsQueued(s, queue, waits, i, c, p); }
    }
  }

  lemma RejectedAreKnown(s: Store, queue: seq<nat>, waits: seq<seq<nat>>)
    requires Agrees(s, queue, waits)
    ensures Known(s, s.rejected)
  {
    hide SettledAt, Open;
    forall t | 0 <= t < |s.rejected|
      ensures s.rejected[t] < |s.promises|
    {
      SettledIsMade(s.log, s.rejected[t]);
    }
  }

  lemma LeftAloneIsNoted(s: Store, queue: seq<nat>, waits: seq<seq<nat>>, p: nat) returns (t: nat)
    requires Agrees(s, queue, waits) && LeftAlone(s.log, p)
    ensures t < |s.rejected| && s.rejected[t] == p && p < |s.promises| && !s.promises[p].handled
  {
    hide SettledAt, Open, WaitAgrees, QueueAgrees, Kept;
    SettledIsMade(s.log, p);
    assert PromiseAgrees(s.log, p, s.promises[p]);
    t :| t < |s.rejected| && s.rejected[t] == p;
  }

  // The check after the drain finds the first rejection left alone.
  lemma CheckFinds(s: Store, queue: seq<nat>, waits: seq<seq<nat>>)
    requires Agrees(s, queue, waits)
    ensures Known(s, s.rejected)
    ensures match FirstUnhandled(s, s.rejected)
            case None => NoneLeftAlone(s.log)
            case Some(p) => FirstLeftAlone(s.log, p)
  {
    hide Agrees, SettledAt, LeftAlone;
    RejectedAreKnown(s, queue, waits);
    var found := FirstUnhandled(s, s.rejected);
    if found.None? {
      NoneUnhandled(s, s.rejected);
      forall p: nat
        ensures !LeftAlone(s.log, p)
      {
        if LeftAlone(s.log, p) { var t := LeftAloneIsNoted(s, queue, waits, p); }
      }
    } else {
      var k := FirstIsFirst(s, s.rejected);
      NotedIsLeftAlone(s, queue, waits, k);
      forall q: nat | LeftAlone(s.log, q) && q != found.value
        ensures SettledAt(s.log, q).Some? && SettledAt(s.log, found.value).value < SettledAt(s.log, q).value
      {
        var t := LeftAloneIsNoted(s, queue, waits, q);
        NotedIsLeftAlone(s, queue, waits, t);
        NotedInOrder(s, queue, waits, k, t);
      }
      assert FirstLeftAlone(s.log, found.value);
    }
  }

  lemma NotedIsLeftAlone(s: Store, queue: seq<nat>, waits: seq<seq<nat>>, t: nat)
    requires Agrees(s, queue, waits) && t < |s.rejected| && s.rejected[t] < |s.promises| && !s.promises[s.rejected[t]].handled
    ensures LeftAlone(s.log, s.rejected[t]) && SettledAt(s.log, s.rejected[t]).Some?
  {
    hide SettledAt, Open, WaitAgrees, QueueAgrees, Kept;
    assert PromiseAgrees(s.log, s.rejected[t], s.promises[s.rejected[t]]);
  }

  lemma NotedInOrder(s: Store, queue: seq<nat>, waits: seq<seq<nat>>, t: nat, u: nat)
    requires Agrees(s, queue, waits) && t < u < |s.rejected|
    ensures SettledAt(s.log, s.rejected[t]).Some? && SettledAt(s.log, s.rejected[u]).Some?
    ensures SettledAt(s.log, s.rejected[t]).value < SettledAt(s.log, s.rejected[u]).value
  {
    hide SettledAt, Open, WaitAgrees, QueueAgrees, Kept;
  }

  lemma NotesCleared(s: Store, queue: seq<nat>, waits: seq<seq<nat>>)
    requires Agrees(s, queue, waits) && NoneLeftAlone(s.log)
    ensures Agrees(s.(rejected := []), queue, waits)
  {
    hide SettledAt, Open, WaitAgrees, QueueAgrees, LeftAlone;
  }

  // The thread's state, told from its log.

  ghost predicate ModeAgrees(r: Thread) {
    match r.mode
    case Running => GoesOn(r.store.log) && r.stack == Active(r.store.log)
    case Idle => AllDone(r.store.log)
    case Ended(why) => MayEnd(r.store.log, why)
  }

  ghost predicate Follows(prog: Program, r: Thread, queue: seq<nat>, waits: seq<seq<nat>>) {
    Conforms(prog, r.store.log) && ModeAgrees(r) && (r.mode.Ended? || Agrees(r.store, queue, waits))
  }

  lemma {:induction false} OwnsAreMade(log: seq<Event>, g: nat)
    requires 0 < g < |Owns(log)|
    ensures Owns(log)[g] < Made(log)
  {
    if g < |Owns(Front(log))| { OwnsAreMade(Front(log), g); }
  }

  lemma ConformsMore(prog: Program, log: seq<Event>, e: Event)
    requires Conforms(prog, log) && MayFollow(prog, log, e)
    ensures Conforms(prog, log + [e])
  {
    Pushed(log, e);
  }

  lemma ActiveIsAside(prog: Program, log: seq<Event>, g: nat, i: Instr)
    requires Conforms(prog, log) && g in Active(log)
    ensures Aside(log, Did(g, i)) && g < |Owns(log)|
  {
    ConformingIsSound(prog, log);
  }

  lemma LegalIsNoPanic(s: Store, g: nat, i: Instr)
    requires |s.promises| == Made(s.log) && s.own == Owns(s.log) && g < |s.own|
    ensures Legal(Note(s, Did(g, i)), g, i) <==> Ends(s.log, Did(g, i)) != Some(Panicked)
  {
    if 0 < g { OwnsAreMade(s.log, g); }
  }

  lemma Stepped(prog: Program, r: Thread, e: Event)
    requires Conforms(prog, r.store.log) && r.mode.Running? && ModeAgrees(r) && r.stack != []
    requires e == Did(r.stack[|r.stack| - 1], prog.next(r.stack[|r.stack| - 1], r.store.log))
    ensures Conforms(prog, r.store.log + [e]) && Aside(r.store.log, e) && e.g < |Owns(r.store.log)|
    ensures Active(r.store.log + [e]) == match e.i
              case Call => r.stack + [|Owns(r.store.log)|]
              case Await(_) => r.stack[..|r.stack| - 1]
              case Finish(_) => r.stack[..|r.stack| - 1]
              case _ => r.stack
  {
    ConformsMore(prog, r.store.log, e);
    ActiveIsAside(prog, r.store.log, e.g, e.i);
    Pushed(r.store.log, e);
  }

  function Executed(prog: Program, r: Thread): Thread
    requires r.stack != []
  {
    var g := r.stack[|r.stack| - 1];
    JobQueue.Execute(r, g, prog.next(g, r.store.log))
  }

  lemma ExecuteAgrees(prog: Program, r: Thread, queue: seq<nat>, waits: seq<seq<nat>>) returns (q: seq<nat>, w: seq<seq<nat>>)
    requires r.mode.Running? && r.stack != [] && Follows(prog, r, queue, waits)
    ensures Executed(prog, r).mode.Ended? || Agrees(Executed(prog, r).store, q, w)
  {
    hide Agrees, Conforms, MayFollow, GoesOn, Active, Made, Owns, Aside;
    var s, log, g := r.store, r.store.log, r.stack[|r.stack| - 1];
    var i := prog.next(g, log);
    var e := Did(g, i);
    Stepped(prog, r, e);
    NumbersAgree(s, queue, waits);
    q, w := queue, waits;
    if Legal(Note(s, e), g, i) {
      match i
      case Act(_) => AgreesNote(s, e, queue, waits);
      case NewPromise => AgreesMake(s, e, queue, waits); w := waits + [[]];
      case Call => AgreesMake(s, e, queue, waits); w := waits + [[]];
      case Settle(p, _) => q, w := SettleFollows(s, e, p, queue, waits);
      case Await(p) =>
        AgreesAwait(s, e, p, queue, waits);
        if s.promises[p].settled { q := queue + [|log|]; } else { w := waits[p := waits[p] + [|log|]]; }
      case Finish(reason) =>
        if g != 0 {
          OwnsAreMade(log, g);
          q, w := SettleFollows(s, e, s.own[g], queue, waits);
        } else {
          AgreesNote(s, e, queue, waits);
        }
    }
  }

  lemma NumbersAgree(s: Store, queue: seq<nat>, waits: seq<seq<nat>>)
    requires Agrees(s, queue, waits)
    ensures |s.promises| == Made(s.log) == |waits| && s.own == Owns(s.log)
  {
  }

  // What a step of code does to all but the store's promises and lists.
  lemma ExecutedLeaves(r: Thread, g: nat, i: Instr)
    requires r.stack != []
    ensures var s, t := Note(r.store, Did(g, i)), JobQueue.Execute(r, g, i);
      && t.store.log == s.log
      && (!Legal(s, g, i) ==> t.mode == Ended(Panicked))
      && (Legal(s, g, i) && i.Finish? && g == 0 && i.reason.Some? ==> t.mode == Ended(Uncaught(i.reason.value)))
      && (Legal(s, g, i) && !(i.Finish? && g == 0 && i.reason.Some?) ==>
            && t.mode == r.mode
            && t.stack == if i.Call? then r.stack + [|s.own|] else if i.Await? || i.Finish? then r.stack[..|r.stack| - 1] else r.stack)
  {
  }

  lemma ExecuteModeAgrees(prog: Program, r: Thread)
    requires r.mode.Running? && r.stack != [] && Conforms(prog, r.store.log) && ModeAgrees(r)
    requires |r.store.promises| == Made(r.store.log) && r.store.own == Owns(r.store.log)
    ensures Conforms(prog, Executed(prog, r).store.log) && ModeAgrees(Executed(prog, r))
    ensures var g := r.stack[|r.stack| - 1]; Executed(prog, r).store.log == r.store.log + [Did(g, prog.next(g, r.store.log))]
  {
    hide JobQueue.Execute, Legal, Conforms, MayFollow, Active, Made, Owns, Aside, AllDone, FirstLeftAlone, NoneReady;
    var g := r.stack[|r.stack| - 1];
    var e := Did(g, prog.next(g, r.store.log));
    Stepped(prog, r, e);
    LegalIsNoPanic(r.store, g, e.i);
    ExecutedLeaves(r, g, e.i);
    Pushed(r.store.log, e);
    EndsByPanic(r.store.log, e);
  }

  lemma EndsByPanic(log: seq<Event>, e: Event)
    requires e.Did?
    ensures Ends(log, e) == Some(Panicked) || Ends(log, e) ==
      if e.i.Finish? && e.g == 0 && e.i.reason.Some? then Some(Uncaught(e.i.reason.value)) else None
  {
  }

  lemma ExecuteFollows(prog: Program, r: Thread, queue: seq<nat>, waits: seq<seq<nat>>) returns (q: seq<nat>, w: seq<seq<nat>>)
    requires r.mode.Running? && r.stack != [] && Follows(prog, r, queue, waits)
    ensures Follows(prog, Executed(prog, r), q, w)
    ensures var g := r.stack[|r.stack| - 1]; Executed(prog, r).store.log == r.store.log + [Did(g, prog.next(g, r.store.log))]
  {
    hide Agrees, Conforms, ModeAgrees, Executed;
    NumbersAgree(r.store, queue, waits);
    q, w := ExecuteAgrees(prog, r, queue, waits);
    ExecuteModeAgrees(prog, r);
  }

  lemma SettleFollows(s: Store, e: Event, p: nat, queue: seq<nat>, waits: seq<seq<nat>>) returns (q: seq<nat>, w: seq<seq<nat>>)
    requires Agrees(s, queue, waits) && Aside(s.log, e) && Settles(s.log, e, p)
    ensures p < |s.promises| && Agrees(SettleP(Note(s, e), p, ReasonIn(e)), q, w)
  {
    hide PromiseAgrees, WaitAgrees, QueueAgrees, RejectedAgree, Kept, Open, SettledAt;
    assert PromiseAgrees(s.log, p, s.promises[p]);
    SettledIsSettled(s.log, p, s.promises[p]);
    if s.promises[p].settled {
      forall x: nat | Settles(s.log, e, x) ensures SettledAt(s.log, x).Some? { SettlesOne(s.log, e, p, x); }
      AgreesNote(s, e, queue, waits);
      q, w := queue, waits;
    } else {
      AgreesFirstSettle(s, e, p, queue, waits);
      q, w := queue + waits[p], waits[p := []];
    }
  }

  lemma JobFollows(prog: Program, r: Thread, queue: seq<nat>, waits: seq<seq<nat>>) returns (i: nat)
    requires r.mode.Running? && r.stack == [] && r.store.micro != [] && Follows(prog, r, queue, waits)
    ensures r.store.micro[0].p < |r.store.promises| && queue != [] && Follows(prog, TakeJob(r), queue[1..], waits)
    ensures var job := r.store.micro[0];
      && IsNext(r.store.log, i, job.c, job.p) && SettledAt(r.store.log, job.p).Some?
      && TakeJob(r).store.log == r.store.log + [Resumed(job.c, ReasonOf(r.store.log, job.p))]
  {
    hide Agrees, IsNext, Conforms, NoneReady, NoneLeftAlone;
    var s, job := r.store, r.store.micro[0];
    FirstJobIsNext(s, queue, waits);
    i := queue[0];
    NextIsReady(s.log, i, job.c, job.p);
    var e := Resumed(job.c, s.promises[job.p].reason);
    AgreesResume(s, e, queue, waits);
    ConformsMore(prog, s.log, e);
    Pushed(s.log, e);
  }

  lemma NextIsReady(log: seq<Event>, i: nat, c: nat, p: nat)
    requires IsNext(log, i, c, p)
    ensures Ready(log, i, c, p) && SettledAt(log, p).Some?
  {
  }

  lemma CheckFollows(prog: Program, r: Thread, queue: seq<nat>, waits: seq<seq<nat>>)
    requires r.mode.Running? && r.stack == [] && r.store.micro == [] && Follows(prog, r, queue, waits)
    ensures Known(r.store, r.store.rejected) && Follows(prog, EndDrain(r), queue, waits) && EndDrain(r).store.log == r.store.log
    ensures EndDrain(r).mode.Idle? <==> NoneLeftAlone(r.store.log)
  {
    hide Agrees, Conforms, NoneReady, LeftAlone;
    NoJobNoneReady(r.store, queue, waits);
    CheckFinds(r.store, queue, waits);
    if FirstUnhandled(r.store, r.store.rejected).None? { NotesCleared(r.store, queue, waits); }
  }

  lemma BeginFollows(prog: Program, r: Thread, task: nat, queue: seq<nat>, waits: seq<seq<nat>>)
    requires r.mode.Idle? && Follows(prog, r, queue, waits)
    ensures Follows(prog, BeginTask(r, task), queue, waits) && BeginTask(r, task).store.log == r.store.log + [Began(task)]
  {
    hide Agrees, Conforms, NoneReady, NoneLeftAlone;
    var e := Began(task);
    NothingSettles(r.store.log, e);
    AgreesNote(r.store, e, queue, waits);
    ConformsMore(prog, r.store.log, e);
    Pushed(r.store.log, e);
  }

  lemma NothingSettles(log: seq<Event>, e: Event)
    requires e.Began?
    ensures forall p: nat :: !Settles(log, e, p) && !AwaitOf(log, e, p)
    ensures Aside(log, e)
  {
  }

  /** Each tick of the thread's keeps its log conforming, and its state what
      the log says. */
  lemma TickFollows(prog: Program, r: Thread, t: Tick, queue: seq<nat>, waits: seq<seq<nat>>) returns (q: seq<nat>, w: seq<seq<nat>>)
    requires CanTick(r, t) && Follows(prog, r, queue, waits)
    ensures Follows(prog, TickOf(prog, r, t), q, w)
  {
    hide Agrees, Conforms, AllDone, ModeAgrees;
    q, w := queue, waits;
    match t
    case Begins(task) => BeginFollows(prog, r, task, queue, waits);
    case Leaves => LeaveFollows(prog, r, queue, waits);
    case Steps =>
      if r.stack != [] {
        q, w := ExecuteFollows(prog, r, queue, waits);
      } else if r.store.micro != [] {
        var i := JobFollows(prog, r, queue, waits);
        q := queue[1..];
      } else {
        CheckFollows(prog, r, queue, waits);
      }
  }

  lemma LeaveFollows(prog: Program, r: Thread, queue: seq<nat>, waits: seq<seq<nat>>)
    requires r.mode.Idle? && Follows(prog, r, queue, waits)
    ensures Follows(prog, Leave(r), queue, waits)
  {
    hide Conforms;
  }

  lemma BootFollows(prog: Program)
    ensures Follows(prog, Boot(), [], [])
  {
    forall i: nat, c: nat, p: nat
      ensures !Open([], i, c, p)
    {
    }
    forall p: nat
      ensures !LeftAlone([], p)
    {
    }
  }

  lemma {:induction false} RanFollows(prog: Program, r: Thread, ticks: seq<Tick>, queue: seq<nat>, waits: seq<seq<nat>>) returns (q: seq<nat>, w: seq<seq<nat>>)
    requires CanRun(prog, r, ticks) && Follows(prog, r, queue, waits)
    ensures Follows(prog, Ran(prog, r, ticks), q, w)
    decreases |ticks|
  {
    hide Follows, TickOf;
    q, w := queue, waits;
    if ticks != [] {
      q, w := TickFollows(prog, r, ticks[0], queue, waits);
      q, w := RanFollows(prog, TickOf(prog, r, ticks[0]), ticks[1..], q, w);
    }
  }
}
