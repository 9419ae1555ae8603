/**
  The order ECMA-262 gives a domain's events, told from the events alone:
  which promises there are and what settled each, which calls wait, and which
  of them is next (sections 9.5, 27.2.1 and 27.7.5.3). Nothing here says how a
  queue is kept; an await's place is when it could first go on, and then when
  it was made.
*/
module EventOrder {
  import opened Options
  import opened JobQueue

  function Front(log: seq<Event>): seq<Event>
    requires log != []
  {
    log[..|log| - 1]
  }

  function Latest(log: seq<Event>): Event
    requires log != []
  {
    log[|log| - 1]
  }

  // Promises are numbered as they are made: by new Promise, and one for each call.
  predicate Makes(e: Event) { e.Did? && (e.i.NewPromise? || e.i.Call?) }

  function Made(log: seq<Event>): nat {
    if log == [] then 0 else Made(Front(log)) + if Makes(Latest(log)) then 1 else 0
  }

  // Each context's own promise; calls are numbered as they are made, from 1.
  function Owns(log: seq<Event>): (own: seq<nat>)
    ensures own != []
  {
    if log == [] then [0]
    else if Latest(log).Did? && Latest(log).i.Call? then Owns(Front(log)) + [Made(Front(log))]
    else Owns(Front(log))
  }

  // Whether e, after log, resolves or rejects p: by one of its functions, or
  // as the end of the call whose promise it is.
  predicate Settles(log: seq<Event>, e: Event, p: nat) {
    && p < Made(log) && e.Did?
    && match e.i
       case Settle(q, _) => q == p
       case Finish(_) => 0 < e.g < |Owns(log)| && Owns(log)[e.g] == p
       case _ => false
  }

  // When p was settled: only the first counts.
  function SettledAt(log: seq<Event>, p: nat): (at: Option<nat>)
    ensures at.Some? ==> at.value < |log|
  {
    if log == [] then None
    else if SettledAt(Front(log), p).Some? then SettledAt(Front(log), p)
    else if Settles(Front(log), Latest(log), p) then Some(|log| - 1)
    else None
  }

  lemma {:induction false} SettledAtTheFirst(log: seq<Event>, p: nat)
    ensures match SettledAt(log, p)
            case Some(at) => Settles(log[..at], log[at], p) && forall k :: 0 <= k < at ==> !Settles(log[..k], log[k], p)
            case None => forall k :: 0 <= k < |log| ==> !Settles(log[..k], log[k], p)
  {
    if log != [] {
      SettledAtTheFirst(Front(log), p);
      assert forall k :: 0 <= k < |log| - 1 ==> Front(log)[..k] == log[..k] && Front(log)[k] == log[k];
    }
  }

  // What p was settled with: nothing, or the reason of a rejection.
  function ReasonOf(log: seq<Event>, p: nat): Option<int>
    requires SettledAt(log, p).Some?
  {
    ReasonIn(log[SettledAt(log, p).value])
  }

  function ReasonIn(e: Event): Option<int> {
    match e
    case Did(_, Settle(_, reason)) => reason
    case Did(_, Finish(reason)) => reason
    case _ => None
  }

  predicate Awaits(log: seq<Event>, i: nat, c: nat, p: nat) {
    i < |log| && log[i] == Did(c, Await(p)) && 0 < c && p < Made(log[..i])
  }

  ghost predicate Awaited(log: seq<Event>, p: nat) { exists i, c :: Awaits(log, i, c, p) }

  predicate Of(e: Event, c: nat) { (e.Did? && e.g == c) || (e.Resumed? && e.c == c) }

  // c still waits at its await of p, event i: nothing of c's has come since.
  predicate Open(log: seq<Event>, i: nat, c: nat, p: nat) {
    Awaits(log, i, c, p) && forall k :: i < k < |log| ==> !Of(log[k], c)
  }

  // When the await could first go on: at once if p had settled, else as it did.
  function ReadyAt(log: seq<Event>, i: nat, p: nat): Option<nat> {
    match SettledAt(log, p)
    case None => None
    case Some(k) => Some(if k < i then i else k)
  }

  predicate Ready(log: seq<Event>, i: nat, c: nat, p: nat) { Open(log, i, c, p) && ReadyAt(log, i, p).Some? }

  // The await at i of p goes before the one at j of q.
  predicate Before(log: seq<Event>, i: nat, p: nat, j: nat, q: nat) {
    && ReadyAt(log, i, p).Some? && ReadyAt(log, j, q).Some?
    && (ReadyAt(log, i, p).value < ReadyAt(log, j, q).value || (ReadyAt(log, i, p) == ReadyAt(log, j, q) && i < j))
  }

  ghost predicate IsNext(log: seq<Event>, i: nat, c: nat, p: nat) {
    Ready(log, i, c, p) && forall j, d, q :: Ready(log, j, d, q) && j != i ==> Before(log, i, p, j, q)
  }

  ghost predicate NoneReady(log: seq<Event>) { forall i, c, p :: !Ready(log, i, c, p) }

  // Rejected, and never awaited.
  ghost predicate LeftAlone(log: seq<Event>, p: nat) {
    SettledAt(log, p).Some? && ReasonOf(log, p).Some? && !Awaited(log, p)
  }

  ghost predicate FirstLeftAlone(log: seq<Event>, p: nat) {
    LeftAlone(log, p) && forall q :: LeftAlone(log, q) && q != p ==> SettledAt(log, p).value < SettledAt(log, q).value
  }

  ghost predicate NoneLeftAlone(log: seq<Event>) { forall p :: !LeftAlone(log, p) }

  // The contexts begun and not left, innermost last: an async call's body runs
  // at once, until it first awaits or ends.
  function Active(log: seq<Event>): seq<nat> {
    if log == [] then [0] else
    var was := Active(Front(log));
    match Latest(log)
    case Did(_, Call) => was + [|Owns(Front(log))|]
    case Did(_, i) => if (i.Await? || i.Finish?) && was != [] then was[..|was| - 1] else was
    case Resumed(c, _) => [c]
    case Began(_) => [0]
  }

  // Why e, after log, ends the domain at once, if it does.
  function Ends(log: seq<Event>, e: Event): Option<Failure> {
    match e
    case Did(_, Panic) => Some(Panicked)
    case Did(_, Settle(p, _)) => if Made(log) <= p then Some(Panicked) else None
    case Did(g, Await(p)) => if Made(log) <= p || g == 0 then Some(Panicked) else None
    case Did(g, Finish(Some(v))) => if g == 0 then Some(Uncaught(v)) else None
    case _ => None
  }

  predicate GoesOn(log: seq<Event>) { log != [] ==> Ends(Front(log), Latest(log)).None? }

  // Every context is left, and nothing is due.
  ghost predicate AllDone(log: seq<Event>) { GoesOn(log) && Active(log) == [] && NoneReady(log) && NoneLeftAlone(log) }

  // Why a domain with this log may have ended.
  ghost predicate MayEnd(log: seq<Event>, why: Failure) {
    match why
    case Unhandled(p) => GoesOn(log) && Active(log) == [] && NoneReady(log) && FirstLeftAlone(log, p)
    case Closed => AllDone(log)
    case _ => log != [] && Ends(Front(log), Latest(log)) == Some(why)
  }

  // Whether e may come after log: a step of the innermost context, as its code
  // has it; with none, the resume of the next await; with no await ready and
  // no rejection left alone, a task.
  ghost predicate MayFollow(prog: Program, log: seq<Event>, e: Event) {
    && GoesOn(log)
    && match e
       case Did(g, i) => Active(log) != [] && Active(log)[|Active(log)| - 1] == g && i == prog.next(g, log)
       case Resumed(c, reason) => Active(log) == [] && exists i, p :: IsNext(log, i, c, p) && reason == ReasonOf(log, p)
       case Began(_) => AllDone(log)
  }

  ghost predicate Conforms(prog: Program, log: seq<Event>) {
    log == [] || (Conforms(prog, Front(log)) && MayFollow(prog, Front(log), Latest(log)))
  }

  // What a longer log keeps.

  lemma Pushed(log: seq<Event>, e: Event)
    ensures Front(log + [e]) == log && Latest(log + [e]) == e
    ensures forall k {:trigger (log + [e])[..k]} :: 0 <= k <= |log| ==> (log + [e])[..k] == log[..k]
  {
  }

  lemma {:induction false} MadeBefore(log: seq<Event>, k: nat)
    requires k <= |log|
    ensures Made(log[..k]) <= Made(log) && |Owns(log[..k])| <= |Owns(log)|
  {
    if k < |log| {
      MadeBefore(Front(log), k);
      assert Front(log)[..k] == log[..k];
    } else {
      assert log[..k] == log;
    }
  }

  lemma SettledIsMade(log: seq<Event>, p: nat)
    requires SettledAt(log, p).Some? || Awaited(log, p)
    ensures p < Made(log)
  {
    if SettledAt(log, p).Some? {
      SettledAtTheFirst(log, p);
      MadeBefore(log, SettledAt(log, p).value);
    } else {
      var i, c :| Awaits(log, i, c, p);
      MadeBefore(log, i);
    }
  }

  lemma AwaitsLater(log: seq<Event>, e: Event, i: nat, c: nat, p: nat)
    ensures Awaits(log + [e], i, c, p) <==> Awaits(log, i, c, p) || (i == |log| && e == Did(c, Await(p)) && 0 < c && p < Made(log))
  {
    Pushed(log, e);
  }

  lemma OpenLater(log: seq<Event>, e: Event, i: nat, c: nat, p: nat)
    ensures Open(log + [e], i, c, p) <==>
      (Open(log, i, c, p) && !Of(e, c)) || (i == |log| && e == Did(c, Await(p)) && 0 < c && p < Made(log))
  {
    var after := log + [e];
    AwaitsLater(log, e, i, c, p);
    if Open(after, i, c, p) && i < |log| {
      assert after[|log|] == e;
      forall k | i < k < |log| ensures !Of(log[k], c) { assert after[k] == log[k]; }
    }
  }

  lemma SettledLater(log: seq<Event>, e: Event, p: nat)
    ensures SettledAt(log, p).Some? ==> SettledAt(log + [e], p) == SettledAt(log, p) && ReasonOf(log + [e], p) == ReasonOf(log, p)
    ensures SettledAt(log, p).None? ==> SettledAt(log + [e], p) == if Settles(log, e, p) then Some(|log|) else None
  {
    Pushed(log, e);
  }

  lemma OpenIsACall(log: seq<Event>, i: nat, c: nat, p: nat)
    requires Open(log, i, c, p)
    ensures 0 < c && i < |log| && log[i] == Did(c, Await(p)) && p < Made(log)
  {
    MadeBefore(log, i);
  }

  lemma OneOpen(log: seq<Event>, i: nat, j: nat, c: nat, p: nat, q: nat)
    requires Open(log, i, c, p) && Open(log, j, c, q)
    ensures i == j && p == q
  {
    if i < j { assert Of(log[j], c); }
    if j < i { assert Of(log[i], c); }
  }

  // Conforming logs.

  lemma {:induction false} ConformsBefore(prog: Program, log: seq<Event>, k: nat)
    requires Conforms(prog, log) && k <= |log|
    ensures Conforms(prog, log[..k])
    ensures k < |log| ==> MayFollow(prog, log[..k], log[k])
  {
    if k == |log| {
      assert log[..k] == log;
    } else {
      ConformsBefore(prog, Front(log), k);
      assert Front(log)[..k] == log[..k];
    }
  }

  // Contexts are active once each; one that waits is not.
  ghost predicate Sound(log: seq<Event>) {
    && (forall k :: 0 <= k < |Active(log)| ==> Active(log)[k] < |Owns(log)|)
    && (forall k, l :: 0 <= k < l < |Active(log)| ==> Active(log)[k] != Active(log)[l])
    && (forall i: nat, c: nat, p: nat :: Open(log, i, c, p) ==> c !in Active(log) && c < |Owns(log)|)
  }

  lemma {:induction false} ConformingIsSound(prog: Program, log: seq<Event>)
    requires Conforms(prog, log)
    ensures Sound(log)
  {
    if log != [] {
      ConformingIsSound(prog, Front(log));
      StaysSound(prog, Front(log), Latest(log));
      assert Front(log) + [Latest(log)] == log;
    }
  }

  lemma StaysSound(prog: Program, log: seq<Event>, e: Event)
    requires Sound(log) && MayFollow(prog, log, e)
    ensures Sound(log + [e])
  {
    hide Open, Made, SettledAt, Before, NoneReady, NoneLeftAlone;
    var was, after := Active(log), Active(log + [e]);
    Pushed(log, e);
    if e.Resumed? {
      var i, p :| IsNext(log, i, e.c, p);
      assert Open(log, i, e.c, p);
    }
    forall i: nat, c: nat, p: nat | Open(log + [e], i, c, p)
      ensures c !in after && c < |Owns(log + [e])|
    {
      OpenLater(log, e, i, c, p);
      if Open(log, i, c, p) {
        OpenIsACall(log, i, c, p);
        assert !Of(e, c);
      } else {
        assert was[|was| - 1] == c && after == was[..|was| - 1];
      }
    }
  }

  // Event k resumes c from its await at i.
  predicate Resumes(log: seq<Event>, k: nat, i: nat, c: nat, p: nat) {
    i < k < |log| && log[k].Resumed? && log[k].c == c && Open(log[..k], i, c, p)
  }

  /** A call that awaits does nothing until it is resumed. */
  lemma {:induction false} OnlyAResumeGoesOn(prog: Program, log: seq<Event>, i: nat, c: nat, p: nat) returns (k: nat)
    requires Conforms(prog, log) && Awaits(log, i, c, p) && !Open(log, i, c, p)
    ensures Resumes(log, k, i, c, p)
  {
    hide Made, IsNext, SettledAt, NoneReady, NoneLeftAlone;
    var front, e := Front(log), Latest(log);
    assert log == front + [e];
    AwaitsLater(front, e, i, c, p);
    OpenLater(front, e, i, c, p);
    if Open(front, i, c, p) {
      ConformingIsSound(prog, front);
      k := |log| - 1;
    } else {
      k := OnlyAResumeGoesOn(prog, front, i, c, p);
      assert front[..k] == log[..k];
    }
  }

  lemma NextIsFirst(log: seq<Event>, i: nat, c: nat, p: nat, j: nat, d: nat, q: nat)
    requires IsNext(log, i, c, p) && Open(log, j, d, q)
    ensures !Before(log, j, q, i, p)
  {
    if i == j {
      assert Awaits(log, i, c, p) && Awaits(log, j, d, q);
    } else if ReadyAt(log, j, q).Some? {
      assert Ready(log, j, d, q);
    }
  }

  /** Awaits go on in order: one that goes before another has gone on when the
      other does. */
  lemma ServedInOrder(prog: Program, log: seq<Event>, i: nat, c: nat, p: nat, j: nat, d: nat, q: nat, k: nat) returns (l: nat)
    requires Conforms(prog, log) && Resumes(log, k, j, d, q)
    requires Awaits(log[..k], i, c, p) && Before(log[..k], i, p, j, q)
    ensures l < k && Resumes(log, l, i, c, p)
  {
    hide Open, Made, SettledAt, NoneReady, NoneLeftAlone;
    ConformsBefore(prog, log, k);
    var now := log[..k];
    var n, r :| IsNext(now, n, d, r);
    OneOpen(now, n, j, d, r, q);
    if Open(now, i, c, p) { NextIsFirst(now, n, d, q, i, c, p); }
    l := OnlyAResumeGoesOn(prog, now, i, c, p);
    assert now[..l] == log[..l];
  }

  /** Of two awaits of one promise, settled or not, the first goes on first. */
  lemma FirstComeFirstServed(prog: Program, log: seq<Event>, i: nat, c: nat, j: nat, d: nat, p: nat, k: nat) returns (l: nat)
    requires Conforms(prog, log) && Awaits(log, i, c, p) && Awaits(log, j, d, p) && i < j
    requires Resumes(log, k, j, d, p)
    ensures l < k && Resumes(log, l, i, c, p)
  {
    hide Open, Made, SettledAt, NoneReady, NoneLeftAlone;
    ConformsBefore(prog, log, k);
    var now := log[..k];
    var n, r :| IsNext(now, n, d, r);
    OneOpen(now, n, j, d, r, p);
    assert now[..i] == log[..i];
    l := ServedInOrder(prog, log, i, c, p, j, d, p, k);
  }

  /** A call is resumed with what first settled the promise it awaits. */
  lemma ResumedWithTheReason(prog: Program, log: seq<Event>, k: nat, i: nat, c: nat, p: nat)
    requires Conforms(prog, log) && Resumes(log, k, i, c, p)
    ensures SettledAt(log[..k], p).Some? && log[k].reason == ReasonOf(log[..k], p)
  {
    hide Open, Made, SettledAt, NoneReady, NoneLeftAlone;
    ConformsBefore(prog, log, k);
    var n, r :| IsNext(log[..k], n, c, r) && log[k].reason == ReasonOf(log[..k], r);
    OneOpen(log[..k], n, i, c, r, p);
  }
}
