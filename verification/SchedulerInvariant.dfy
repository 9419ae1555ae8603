/**
  What holds in every state the goroutines can reach: the goroutines waiting
  for the token back form a stack, whose top alone holds it; the registry
  holds exactly the calls waiting in an Await, each at its own index; every
  such call is due exactly one resume, in its promise's reactions or in the
  queue; and a rejection nothing awaits is noted.
*/
module SchedulerInvariant {
  import opened Options
  import opened JobQueue
  import opened Goroutines

  predicate Waits(pc: Pc) { pc.BeforeWait? || pc.Waiting? }

  // The top of the stack: the driver at its own work, or a call.
  predicate HoldsToken(pc: Pc) { !Waits(pc) && !pc.BeforeResume? && !pc.AtResume? && !pc.Gone? }

  predicate DriversOwn(pc: Pc) {
    pc.Draining? || pc.Resuming? || pc.Between? || pc.Aborting? || pc.AbortResuming? || pc.Stopped?
  }

  predicate Ending(pc: Pc) {
    pc.Aborting? || pc.AbortResuming? || pc.Stopped? || (Waits(pc) && pc.back.ToAbort?)
  }

  // stack: the goroutines from the driver to the token's holder, each waiting
  // for the next. Every other goroutine is blocked in an Await, or gone.
  predicate Stacked(pcs: seq<Pc>, stack: seq<nat>) {
    && |stack| > 0 && stack[0] == 0
    && (forall i :: 0 <= i < |stack| ==> stack[i] < |pcs|)
    && (forall i, j :: 0 <= i < j < |stack| ==> stack[i] != stack[j])
    && (forall i :: 0 <= i < |stack| - 1 ==> Waits(pcs[stack[i]]) && pcs[stack[i]].c == stack[i + 1])
    && (forall i :: 1 <= i < |stack| - 1 ==> pcs[stack[i]].back.ToCode?)
    && HoldsToken(pcs[stack[|stack| - 1]])
    && (forall c :: 0 <= c < |pcs| && c !in stack ==> !Waits(pcs[c]) && !HoldsToken(pcs[c]))
  }

  // Only the driver drains and aborts; a domain that has failed runs no code.
  predicate Driven(pcs: seq<Pc>, failed: bool, stack: seq<nat>)
    requires Stacked(pcs, stack)
  {
    var top := pcs[stack[|stack| - 1]];
    && (if |stack| == 1 then top.Code? || DriversOwn(top) else top.Code? || top.Yielding? || top.Exiting?)
    && (pcs[0].Resuming? ==> ResumesOne(pcs, pcs[0].job.c))
    && (pcs[0].AbortResuming? ==> ResumesOne(pcs, pcs[0].c))
    && (failed <==> Ending(pcs[0]))
    && (failed && |stack| > 1 ==> |stack| == 2 && top == Exiting(false))
  }

  predicate Chain(m: Machine, stack: seq<nat>) { Stacked(m.pcs, stack) && Driven(m.pcs, m.failure.Some?, stack) }

  predicate ResumesOne(pcs: seq<Pc>, c: nat) { 0 < c < |pcs| && (pcs[c].BeforeResume? || pcs[c].AtResume?) }

  // The call being resumed, or aborted, has just left the registry.
  predicate Leaving(m: Machine, c: nat)
    requires m.pcs != []
  {
    (m.pcs[0].Resuming? && m.pcs[0].job.c == c) || (m.pcs[0].AbortResuming? && m.pcs[0].c == c)
  }

  predicate Indexed(r: Registry) {
    forall i :: 0 <= i < |r.parked| ==> r.parked[i] < |r.parkedAt| && r.parkedAt[r.parked[i]] == i
  }

  predicate Registered(m: Machine) {
    && m.pcs != [] && |m.registry.parkedAt| == |m.pcs|
    && Indexed(m.registry)
    && (m.pcs[0].Stopped? ==> m.registry.parked == [])
    && (forall c :: 0 <= c < |m.pcs| ==> (c in m.registry.parked <==> Awaiting(m.pcs[c]) && !Leaving(m, c)))
  }

  // Park, unpark and abort's pop keep each call's index its own.

  lemma ParkIndexes(r: Registry, c: nat)
    requires Indexed(r) && c < |r.parkedAt| && c !in r.parked
    ensures Indexed(Park(r, c))
    ensures forall x :: x in Park(r, c).parked <==> x in r.parked || x == c
  {
    forall i | 0 <= i < |Park(r, c).parked|
      ensures Park(r, c).parked[i] < |r.parkedAt| && Park(r, c).parkedAt[Park(r, c).parked[i]] == i
    {
      if i < |r.parked| { assert r.parked[i] in r.parked; }
    }
  }

  lemma UnparkIndexes(r: Registry, c: nat)
    requires Indexed(r) && c in r.parked
    ensures c < |r.parkedAt| && r.parkedAt[c] < |r.parked| && r.parked[|r.parked| - 1] < |r.parkedAt|
    ensures Indexed(Unpark(r, c)) && |Unpark(r, c).parkedAt| == |r.parkedAt|
    ensures forall x :: x in Unpark(r, c).parked <==> x in r.parked && x != c
  {
    var k :| 0 <= k < |r.parked| && r.parked[k] == c;
    var last := |r.parked| - 1;
    var moved := r.parked[last];
    var after := Unpark(r, c);
    assert after.parked == r.parked[k := moved][..last];
    forall x
      ensures x in after.parked <==> x in r.parked && x != c
    {
      if x in after.parked {
        var i :| 0 <= i < |after.parked| && after.parked[i] == x;
        if i != k { assert r.parked[i] == x; } else { assert x == moved; }
      }
      if x in r.parked && x != c {
        var i :| 0 <= i < |r.parked| && r.parked[i] == x;
        if i == last { assert after.parked[k] == x; } else { assert after.parked[i] == x; }
      }
    }
  }

  lemma PopIndexes(r: Registry)
    requires Indexed(r) && r.parked != []
    ensures Indexed(PopParked(r))
    ensures forall x :: x in PopParked(r).parked <==> x in r.parked && x != r.parked[|r.parked| - 1]
  {
    var last := |r.parked| - 1;
    forall x
      ensures x in PopParked(r).parked <==> x in r.parked && x != r.parked[last]
    {
      if x in r.parked && x != r.parked[last] {
        var i :| 0 <= i < |r.parked| && r.parked[i] == x;
        assert PopParked(r).parked[i] == x;
      }
    }
  }

  // Every call in an Await is due one resume: a job when its promise has
  // settled, and otherwise a reaction of it.

  predicate WaitsOn(pcs: seq<Pc>, c: nat, p: nat) { c < |pcs| && Awaiting(pcs[c]) && AwaitedBy(pcs[c]) == p }

  predicate Due(pcs: seq<Pc>, promises: seq<Promise>, jobs: seq<Job>) {
    && JobsDue(pcs, promises, jobs)
    && ReactionsDue(pcs, promises)
    && (forall c :: 0 <= c < |pcs| && Awaiting(pcs[c]) ==> IsDue(pcs, promises, jobs, c))
  }

  predicate IsDue(pcs: seq<Pc>, promises: seq<Promise>, jobs: seq<Job>, c: nat)
    requires c < |pcs| && Awaiting(pcs[c])
  {
    var p := AwaitedBy(pcs[c]);
    p < |promises| && if promises[p].settled then Job(c, p) in jobs else c in promises[p].reactions
  }

  predicate JobsDue(pcs: seq<Pc>, promises: seq<Promise>, jobs: seq<Job>) {
    && (forall i :: 0 <= i < |jobs| ==>
          WaitsOn(pcs, jobs[i].c, jobs[i].p) && jobs[i].p < |promises| && promises[jobs[i].p].settled)
    && (forall i, j :: 0 <= i < j < |jobs| ==> jobs[i].c != jobs[j].c)
  }

  predicate ReactionsDue(pcs: seq<Pc>, promises: seq<Promise>) {
    forall p :: 0 <= p < |promises| ==>
      && (promises[p].settled ==> promises[p].reactions == [])
      && (forall i :: 0 <= i < |promises[p].reactions| ==> WaitsOn(pcs, promises[p].reactions[i], p))
      && (forall i, j :: 0 <= i < j < |promises[p].reactions| ==> promises[p].reactions[i] != promises[p].reactions[j])
  }

  // The job being run is still the queue's first.
  function JobsLeft(m: Machine): seq<Job>
    requires m.pcs != []
  {
    if m.pcs[0].Resuming? then [m.pcs[0].job] + m.store.micro else m.store.micro
  }

  predicate Queued(m: Machine) {
    m.pcs != [] && (m.failure.None? ==> Due(m.pcs, m.store.promises, JobsLeft(m)))
  }

  // A goroutine's step that leaves every await as it was.
  predicate SameAwaits(pcs: seq<Pc>, after: seq<Pc>) {
    && |pcs| <= |after|
    && (forall c :: 0 <= c < |pcs| ==> (Awaiting(pcs[c]) <==> Awaiting(after[c])))
    && (forall c :: 0 <= c < |pcs| && Awaiting(pcs[c]) ==> AwaitedBy(after[c]) == AwaitedBy(pcs[c]))
    && (forall c :: |pcs| <= c < |after| ==> !Awaiting(after[c]))
  }

  lemma DueElsewhere(pcs: seq<Pc>, after: seq<Pc>, promises: seq<Promise>, jobs: seq<Job>)
    requires Due(pcs, promises, jobs) && SameAwaits(pcs, after)
    ensures Due(after, promises, jobs)
  {
    forall c | 0 <= c < |after| && Awaiting(after[c])
      ensures IsDue(after, promises, jobs, c)
    {
      assert IsDue(pcs, promises, jobs, c);
    }
    forall i | 0 <= i < |jobs|
      ensures WaitsOn(after, jobs[i].c, jobs[i].p)
    {
      assert WaitsOn(pcs, jobs[i].c, jobs[i].p);
    }
    forall p, i | 0 <= p < |promises| && 0 <= i < |promises[p].reactions|
      ensures WaitsOn(after, promises[p].reactions[i], p)
    {
      assert WaitsOn(pcs, promises[p].reactions[i], p);
    }
  }

  lemma DueMake(pcs: seq<Pc>, s: Store, jobs: seq<Job>)
    requires Due(pcs, s.promises, jobs)
    ensures Due(pcs, Make(s).promises, jobs)
  {
    var after := Make(s).promises;
    forall c | 0 <= c < |pcs| && Awaiting(pcs[c])
      ensures IsDue(pcs, after, jobs, c)
    {
      assert IsDue(pcs, s.promises, jobs, c);
    }
  }

  // Settling queues each reaction once, and leaves none.
  lemma DueSettle(pcs: seq<Pc>, s: Store, p: nat, reason: Option<int>, before: seq<Job>)
    requires p < |s.promises| && Due(pcs, s.promises, before + s.micro)
    ensures Due(pcs, SettleP(s, p, reason).promises, before + SettleP(s, p, reason).micro)
  {
    if !s.promises[p].settled {
      var after := SettleP(s, p, reason).promises;
      var jobs := before + s.micro;
      var moved := JobsOf(s.promises[p].reactions, p);
      assert before + SettleP(s, p, reason).micro == jobs + moved;
      SettledJobs(pcs, s.promises, p, jobs, moved, after);
      forall c | 0 <= c < |pcs| && Awaiting(pcs[c])
        ensures IsDue(pcs, after, jobs + moved, c)
      {
        SettledIsDue(pcs, s.promises, p, jobs, moved, after, c);
      }
    }
  }

  lemma SettledJobs(pcs: seq<Pc>, promises: seq<Promise>, p: nat, jobs: seq<Job>, moved: seq<Job>, after: seq<Promise>)
    requires JobsDue(pcs, promises, jobs) && ReactionsDue(pcs, promises)
    requires p < |promises| == |after| && !promises[p].settled && after[p].settled
    requires moved == JobsOf(promises[p].reactions, p)
    requires forall q :: 0 <= q < |after| && q != p ==> after[q] == promises[q]
    ensures JobsDue(pcs, after, jobs + moved)
  {
    var all := jobs + moved;
    forall i | 0 <= i < |all|
      ensures WaitsOn(pcs, all[i].c, all[i].p) && all[i].p < |after| && after[all[i].p].settled
      ensures i < |jobs| <==> all[i].p != p
    {
      if i < |jobs| { assert all[i] == jobs[i] && promises[jobs[i].p].settled; }
      else { assert all[i] == Job(promises[p].reactions[i - |jobs|], p); }
    }
    forall i, j | 0 <= i < j < |all|
      ensures all[i].c != all[j].c
    {
      if |jobs| <= i {
        assert promises[p].reactions[i - |jobs|] != promises[p].reactions[j - |jobs|];
      } else if |jobs| <= j {
        assert all[i].p != all[j].p;
      } else {
        assert jobs[i].c != jobs[j].c;
      }
    }
  }

  lemma SettledIsDue(pcs: seq<Pc>, promises: seq<Promise>, p: nat, jobs: seq<Job>, moved: seq<Job>, after: seq<Promise>, c: nat)
    requires c < |pcs| && Awaiting(pcs[c]) && IsDue(pcs, promises, jobs, c)
    requires p < |promises| == |after| && !promises[p].settled && after[p].settled
    requires moved == JobsOf(promises[p].reactions, p)
    requires forall q :: 0 <= q < |after| && q != p ==> after[q] == promises[q]
    ensures IsDue(pcs, after, jobs + moved, c)
  {
    var q := AwaitedBy(pcs[c]);
    if promises[q].settled {
      var i :| 0 <= i < |jobs| && jobs[i] == Job(c, q);
      assert (jobs + moved)[i] == Job(c, q);
    } else if q == p {
      var i :| 0 <= i < |promises[p].reactions| && promises[p].reactions[i] == c;
      assert (jobs + moved)[|jobs| + i] == Job(c, p);
    }
  }

  // An await adds its call's one resume.
  lemma DueThen(pcs: seq<Pc>, after: seq<Pc>, s: Store, p: nat, c: nat)
    requires p < |s.promises| && Due(pcs, s.promises, s.micro)
    requires c < |pcs| && !Awaiting(pcs[c]) && after == pcs[c := Yielding(p)]
    ensures Due(after, ThenResume(s, p, c).promises, ThenResume(s, p, c).micro)
  {
    var t := ThenResume(s, p, c);
    assert forall q :: 0 <= q < |t.promises| && q != p ==> t.promises[q] == s.promises[q];
    forall i | 0 <= i < |t.micro|
      ensures WaitsOn(after, t.micro[i].c, t.micro[i].p) && t.micro[i].p < |t.promises| && t.promises[t.micro[i].p].settled
      ensures i < |s.micro| ==> t.micro[i].c != c
    {
      if i < |s.micro| { assert WaitsOn(pcs, s.micro[i].c, s.micro[i].p); }
    }
    forall q, i | 0 <= q < |s.promises| && 0 <= i < |s.promises[q].reactions|
      ensures WaitsOn(after, s.promises[q].reactions[i], q) && s.promises[q].reactions[i] != c
    {
      assert WaitsOn(pcs, s.promises[q].reactions[i], q);
    }
    forall d | 0 <= d < |after| && Awaiting(after[d])
      ensures IsDue(after, t.promises, t.micro, d)
    {
      if d == c {
        if s.promises[p].settled { assert t.micro[|s.micro|] == Job(c, p); }
        else { assert t.promises[p].reactions[|s.promises[p].reactions|] == c; }
      } else {
        assert IsDue(pcs, s.promises, s.micro, d);
        var q := AwaitedBy(pcs[d]);
        if s.promises[q].settled { assert Job(d, q) in s.micro; }
        else { assert d in s.promises[q].reactions; }
      }
    }
  }

  // A resumed call's job is done, and was its only one.
  lemma DueResume(pcs: seq<Pc>, after: seq<Pc>, promises: seq<Promise>, job: Job, rest: seq<Job>)
    requires Due(pcs, promises, [job] + rest)
    requires |after| == |pcs| && job.c < |pcs| && !Awaiting(after[job.c])
    requires forall c :: 0 <= c < |pcs| && c != job.c ==> (Awaiting(after[c]) <==> Awaiting(pcs[c]))
    requires forall c :: 0 <= c < |pcs| && c != job.c && Awaiting(pcs[c]) ==> AwaitedBy(after[c]) == AwaitedBy(pcs[c])
    ensures Due(after, promises, rest)
  {
    var jobs := [job] + rest;
    assert jobs[0] == job && WaitsOn(pcs, job.c, job.p) && promises[job.p].settled;
    forall i | 0 <= i < |rest|
      ensures WaitsOn(after, rest[i].c, rest[i].p) && rest[i].p < |promises| && promises[rest[i].p].settled
    {
      assert jobs[i + 1] == rest[i];
      assert jobs[0].c != jobs[i + 1].c;
    }
    forall i, j | 0 <= i < j < |rest|
      ensures rest[i].c != rest[j].c
    {
      assert jobs[i + 1].c != jobs[j + 1].c;
    }
    forall p, i | 0 <= p < |promises| && 0 <= i < |promises[p].reactions|
      ensures WaitsOn(after, promises[p].reactions[i], p)
    {
      assert WaitsOn(pcs, promises[p].reactions[i], p);
    }
    forall c | 0 <= c < |after| && Awaiting(after[c])
      ensures IsDue(after, promises, rest, c)
    {
      assert c != job.c;
      assert IsDue(pcs, promises, jobs, c);
      var p := AwaitedBy(pcs[c]);
      if promises[p].settled {
        var i :| 0 <= i < |jobs| && jobs[i] == Job(c, p);
        assert rest[i - 1] == Job(c, p);
      }
    }
  }

  // Promises of the domain's own, and the rejections noted.
  predicate Noted(m: Machine) {
    && |m.store.own| == |m.pcs|
    && (forall c :: 0 < c < |m.store.own| ==> m.store.own[c] < |m.store.promises|)
    && Known(m.store, m.store.rejected)
    && (m.failure.None? ==> NotedIn(m.store))
  }

  predicate NotedIn(s: Store) {
    && (forall i :: 0 <= i < |s.rejected| ==>
          s.rejected[i] < |s.promises| && s.promises[s.rejected[i]].settled && s.promises[s.rejected[i]].reason.Some?)
    && (forall p :: 0 <= p < |s.promises| && s.promises[p].reason.Some? && !s.promises[p].handled ==> p in s.rejected)
    && (forall p :: 0 <= p < |s.promises| && s.promises[p].reason.Some? ==> s.promises[p].settled)
  }

  lemma NotedSettle(s: Store, p: nat, reason: Option<int>)
    requires NotedIn(s) && p < |s.promises|
    ensures NotedIn(SettleP(s, p, reason))
  {
    var t := SettleP(s, p, reason);
    forall q | 0 <= q < |t.promises| && t.promises[q].reason.Some? && !t.promises[q].handled
      ensures q in t.rejected
    {
      if q != p || s.promises[p].settled {
        assert q in s.rejected;
      } else {
        assert t.rejected[|s.rejected|] == p;
      }
    }
  }

  lemma NotedThen(s: Store, p: nat, c: nat)
    requires NotedIn(s) && p < |s.promises|
    ensures NotedIn(ThenResume(s, p, c))
  {
    var t := ThenResume(s, p, c);
    forall q | 0 <= q < |t.promises| && t.promises[q].reason.Some? && !t.promises[q].handled
      ensures q in t.rejected
    {
      assert q in s.rejected;
    }
  }

  lemma NotedMake(s: Store)
    requires NotedIn(s)
    ensures NotedIn(Make(s))
  {
    forall q | 0 <= q < |Make(s).promises| && Make(s).promises[q].reason.Some? && !Make(s).promises[q].handled
      ensures q in Make(s).rejected
    {
      assert q in s.rejected;
    }
  }

  ghost predicate Invariant(m: Machine) {
    (exists stack :: Chain(m, stack)) && Registered(m) && Queued(m) && Noted(m)
  }
}
