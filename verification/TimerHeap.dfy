/**
  The queue a domain keeps its timers in (backend/runtime/domain.go): a binary
  heap in a slice, each timer knowing its index, and a map by id. up and down
  are container/heap's, over this heap's Less, Swap, Push and Pop.
*/
module TimerHeap {
  import opened Floats
  import opened Options
  import opened Timers

  class Entry {
    const t: Timer
    var index: int

    constructor (t: Timer)
      ensures this.t == t
    {
      this.t, index := t, -1;
    }
  }

  function Parent(i: nat): nat
    requires i > 0
  {
    (i - 1) / 2
  }

  // No entry comes before its parent, but for the one at skip.
  predicate Heaped(h: seq<Entry>, n: nat, skip: nat)
    requires n <= |h|
  {
    forall i :: 0 < i < n && i != skip ==> !Before(h[i].t, h[Parent(i)].t)
  }

  // The children of i aren't before its parent.
  predicate Under(h: seq<Entry>, n: nat, i: nat)
    requires n <= |h|
  {
    forall k :: 0 < k < n && Parent(k) == i && 0 < i < n ==> !Before(h[k].t, h[Parent(i)].t)
  }

  // As Heaped, but for i and its children.
  predicate HeapedAround(h: seq<Entry>, n: nat, i: nat)
    requires n <= |h|
  {
    forall k :: 0 < k < n && k != i && Parent(k) != i ==> !Before(h[k].t, h[Parent(k)].t)
  }

  predicate AtLeastParent(h: seq<Entry>, n: nat, i: nat)
    requires n <= |h|
  {
    0 < i < n ==> !Before(h[i].t, h[Parent(i)].t)
  }

  lemma {:induction false} FirstIsLeast(h: seq<Entry>, n: nat, i: nat)
    requires i < n <= |h| && Heaped(h, n, 0)
    ensures !Before(h[i].t, h[0].t)
    decreases i
  {
    if i > 0 { FirstIsLeast(h, n, Parent(i)); }
  }

  predicate Distinct(h: seq<Entry>) {
    forall i, j :: 0 <= i < |h| && 0 <= j < |h| && i != j ==> h[i] != h[j] && h[i].t.order != h[j].t.order && h[i].t.id != h[j].t.id
  }

  predicate Shuffled(h: seq<Entry>, was: seq<Entry>) {
    && |h| == |was| && (Distinct(was) ==> Distinct(h))
    && (forall i :: 0 <= i < |h| ==> h[i] in was) && (forall i :: 0 <= i < |was| ==> was[i] in h)
  }

  function Swapped(h: seq<Entry>, i: nat, j: nat): seq<Entry>
    requires i < |h| && j < |h|
  {
    h[i := h[j]][j := h[i]]
  }

  lemma SwapShuffles(h: seq<Entry>, i: nat, j: nat)
    requires i < |h| && j < |h|
    ensures Shuffled(Swapped(h, i, j), h)
  {
    var s := Swapped(h, i, j);
    forall k | 0 <= k < |h|
      ensures s[k] == h[Other(i, j, k)] && s[k] in h && h[k] in s
    {
      assert s[Other(i, j, k)] == h[k];
    }
    if Distinct(h) {
      forall a, b | 0 <= a < |s| && 0 <= b < |s| && a != b
        ensures s[a] != s[b] && s[a].t.order != s[b].t.order && s[a].t.id != s[b].t.id
      {
        assert Other(i, j, a) != Other(i, j, b);
      }
    }
  }

  function Other(i: nat, j: nat, k: nat): nat { if k == i then j else if k == j then i else k }

  lemma ShuffledOn(a: seq<Entry>, b: seq<Entry>, c: seq<Entry>)
    requires Shuffled(a, b) && Shuffled(b, c)
    ensures Shuffled(a, c)
  {
  }

  // The child raised by a swap is before what it passes.
  lemma {:induction false} RaisedOnce(h: seq<Entry>, n: nat, j: nat)
    requires 0 < j < n <= |h| && Heaped(h, n, j) && Under(h, n, j) && Before(h[j].t, h[Parent(j)].t)
    ensures var s := Swapped(h, Parent(j), j); Heaped(s, n, Parent(j)) && Under(s, n, Parent(j))
  {
    var i := Parent(j);
    var s := Swapped(h, i, j);
    assert forall k :: 0 < k ==> Parent(k) < k;
    forall k | 0 < k < n && k != i
      ensures !Before(s[k].t, s[Parent(k)].t)
    {
      hide Parent;
      assert k != j ==> !Before(h[k].t, h[Parent(k)].t);
    }
    forall k | 0 < k < n && Parent(k) == i && 0 < i
      ensures !Before(s[k].t, s[Parent(i)].t)
    {
      hide Parent;
      assert !Before(h[i].t, h[Parent(i)].t) && (k != j ==> !Before(h[k].t, h[i].t));
    }
  }

  // The lesser child of i, swapped with it, leaves only the children of its old place to look at.
  lemma {:induction false} LoweredOnce(h: seq<Entry>, n: nat, i: nat, j: nat)
    requires i < j < n <= |h| && Parent(j) == i && HeapedAround(h, n, i) && Under(h, n, i)
    requires Before(h[j].t, h[i].t) && forall k :: 0 < k < n && Parent(k) == i ==> !Before(h[k].t, h[j].t)
    ensures var s := Swapped(h, i, j); HeapedAround(s, n, j) && Under(s, n, j) && AtLeastParent(s, n, j)
  {
  }

  // j is a child of i that no other child comes before.
  lemma {:induction false} LesserChild(h: seq<Entry>, n: nat, i: nat, j: nat)
    requires n <= |h| && 2 * i + 1 < n
    requires j == if 2 * i + 2 < n && Before(h[2 * i + 2].t, h[2 * i + 1].t) then 2 * i + 2 else 2 * i + 1
    ensures i < j < n && Parent(j) == i && forall k :: 0 < k < n && Parent(k) == i ==> !Before(h[k].t, h[j].t)
  {
    forall k | 0 < k < n && Parent(k) == i
      ensures !Before(h[k].t, h[j].t)
    {
      assert k == 2 * i + 1 || k == 2 * i + 2;
    }
  }

  // Where no child of i comes before it, the sinking is over.
  lemma {:induction false} Settled(h: seq<Entry>, n: nat, i: nat)
    requires n <= |h| && HeapedAround(h, n, i) && Under(h, n, i)
    requires 2 * i + 1 < n ==> exists j :: 0 < j < n && !Before(h[j].t, h[i].t)
                                           && forall k :: 0 < k < n && Parent(k) == i ==> !Before(h[k].t, h[j].t)
    ensures Heaped(h, n, i) && (AtLeastParent(h, n, i) ==> Heaped(h, n, 0))
  {
    forall k | 0 < k < n && k != i
      ensures !Before(h[k].t, h[Parent(k)].t)
    {
      if Parent(k) == i {
        assert 2 * i + 1 <= k;
        var j :| 0 < j < n && !Before(h[j].t, h[i].t) && forall k :: 0 < k < n && Parent(k) == i ==> !Before(h[k].t, h[j].t);
        assert !Before(h[k].t, h[j].t);
      }
    }
  }

  // The last entry put at i: what remains is in order but around it.
  lemma {:induction false} PutLastAt(h: seq<Entry>, i: nat)
    requires i < |h| && Heaped(h, |h|, 0)
    ensures var s := Swapped(h, i, |h| - 1); HeapedAround(s, |h| - 1, i) && Under(s, |h| - 1, i)
  {
  }

  lemma HeapedShorter(h: seq<Entry>, n: nat, m: nat)
    requires m <= n <= |h| && Heaped(h, n, 0)
    ensures Heaped(h[..m], m, 0) && Heaped(h, m, 0)
  {
  }

  lemma ShuffledIn(h: seq<Entry>, was: seq<Entry>)
    requires Shuffled(h, was)
    ensures forall i :: 0 <= i < |h| ==> h[i] in was
  {
  }

  lemma ShuffledSelf(h: seq<Entry>)
    ensures Shuffled(h, h)
  {
  }

  predicate Without(h: seq<Entry>, was: seq<Entry>, e: Entry) {
    && (forall i :: 0 <= i < |h| ==> h[i] in was && h[i] != e)
    && (forall i :: 0 <= i < |was| && was[i] != e ==> was[i] in h)
  }

  lemma DropLeaves(h: seq<Entry>, full: seq<Entry>, was: seq<Entry>, e: Entry)
    requires full == h + [e] && Shuffled(full, was) && Distinct(full)
    ensures Without(h, was, e)
  {
    forall i | 0 <= i < |h|
      ensures h[i] in was && h[i] != e
    {
      assert full[i] == h[i] && full[|h|] == e;
    }
  }

  // The heap and the map hold s's timers, each under its id.
  predicate Stands(h: seq<Entry>, byID: map<nat, Entry>, s: State) {
    && (forall id :: id in byID ==> byID[id] in h && byID[id].t.id == id)
    && (forall i :: 0 <= i < |h| ==> h[i].t.id in byID && byID[h[i].t.id] == h[i] && h[i].t in s.timers)
    && (forall t :: t in s.timers ==> t.id in byID && byID[t.id].t == t)
    && byID.Keys == s.byID.Keys
  }

  lemma StandsWith(h: seq<Entry>, was: seq<Entry>, byID: map<nat, Entry>, s: State, ms: Float, skipped: nat, e: Entry)
    requires Stands(was, byID, s) && Invariant(s) && e.t == NewTimer(s, ms, skipped) && Shuffled(h, was + [e])
    ensures Stands(h, byID[e.t.id := e], Apply(s, SetTimeout(ms, skipped)))
  {
    var later := Apply(s, SetTimeout(ms, skipped));
    forall i | 0 <= i < |h|
      ensures h[i].t.id in byID[e.t.id := e] && byID[e.t.id := e][h[i].t.id] == h[i] && h[i].t in later.timers
    {
      assert h[i] in was + [e];
    }
    assert (was + [e])[|was|] == e;
    forall id | id in byID
      ensures byID[id] in h
    {
      var k :| 0 <= k < |was| && was[k] == byID[id];
      assert (was + [e])[k] == byID[id];
    }
  }

  lemma StandsWithout(h: seq<Entry>, was: seq<Entry>, byID: map<nat, Entry>, s: State, later: State, e: Entry)
    requires Stands(was, byID, s) && Without(h, was, e) && e in was
    requires later.timers == s.timers - {e.t} && later.byID.Keys == s.byID.Keys - {e.t.id}
    ensures Stands(h, byID - {e.t.id}, later)
  {
  }

  // A new entry has only its parent to pass.
  lemma {:induction false} Pushed(h: seq<Entry>, e: Entry, s: State, byID: map<nat, Entry>)
    requires Distinct(h) && Heaped(h, |h|, 0) && Stands(h, byID, s) && Invariant(s)
    requires e !in h && e.t.order > s.order && e.t.id > s.ids
    ensures Distinct(h + [e]) && Heaped(h + [e], |h| + 1, |h|) && Under(h + [e], |h| + 1, |h|)
  {
    forall i | 0 <= i < |h|
      ensures h[i].t.order != e.t.order && h[i].t.id != e.t.id && h[i] != e
    {
      assert h[i].t in s.made;
    }
  }

  lemma {:induction false} RootIsFirst(h: seq<Entry>, byID: map<nat, Entry>, s: State)
    requires h != [] && Distinct(h) && Heaped(h, |h|, 0) && Stands(h, byID, s)
    ensures IsFirst(s.timers, h[0].t)
  {
    forall t | t in s.timers && t != h[0].t
      ensures Before(h[0].t, t)
    {
      var i :| 0 <= i < |h| && h[i] == byID[t.id];
      FirstIsLeast(h, |h|, i);
    }
  }

  class TimerQueue {
    var heap: seq<Entry>
    var byID: map<nat, Entry>
    var order: nat

    ghost predicate Indexed()
      reads this, heap
    {
      Distinct(heap) && forall i :: 0 <= i < |heap| ==> heap[i].index == i
    }

    // The fields stand for s's.
    ghost predicate Shows(s: State)
      reads this, heap
    {
      Indexed() && Heaped(heap, |heap|, 0) && order == s.order && Stands(heap, byID, s)
    }

    constructor ()
      ensures Shows(START)
    {
      heap, byID, order := [], map[], 0;
    }

    method Swap(i: nat, j: nat)
      requires Indexed() && i < |heap| && j < |heap|
      modifies this, heap[i], heap[j]
      ensures byID == old(byID) && order == old(order)
      ensures heap == Swapped(old(heap), i, j) && Indexed() && Shuffled(heap, old(heap))
    {
      SwapShuffles(heap, i, j);
      heap := heap[i := heap[j]][j := heap[i]];
      heap[i].index, heap[j].index := i, j;
    }

    // container/heap's up, in the first n.
    method Up(start: nat, n: nat)
      requires Indexed() && start < n <= |heap| && Heaped(heap, n, start) && Under(heap, n, start)
      modifies this, heap
      ensures byID == old(byID) && order == old(order)
      ensures Indexed() && Shuffled(heap, old(heap)) && Heaped(heap, n, 0)
      ensures forall k :: n <= k < |heap| ==> heap[k] == old(heap)[k]
    {
      var j: nat := start;
      while true
        invariant byID == old(byID) && order == old(order)
        invariant j < n <= |heap| == |old(heap)| && Indexed() && Shuffled(heap, old(heap))
        invariant Heaped(heap, n, j) && Under(heap, n, j)
        invariant forall k :: n <= k < |heap| ==> heap[k] == old(heap)[k]
        decreases j
      {
        if j == 0 || !Before(heap[j].t, heap[Parent(j)].t) { break; }
        RaisedOnce(heap, n, j);
        ghost var was := heap;
        Swap(Parent(j), j);
        ShuffledOn(heap, was, old(heap));
        j := Parent(j);
      }
    }

    // container/heap's down.
    method Down(start: nat, n: nat) returns (moved: bool)
      requires Indexed() && n <= |heap| && HeapedAround(heap, n, start) && Under(heap, n, start)
      modifies this, heap
      ensures byID == old(byID) && order == old(order)
      ensures Indexed() && Shuffled(heap, old(heap))
      ensures if moved then Heaped(heap, n, 0) else heap == old(heap) && Heaped(heap, n, start) && Under(heap, n, start)
      ensures forall k :: n <= k < |heap| ==> heap[k] == old(heap)[k]
    {
      hide Distinct, Shuffled, HeapedAround, Under, AtLeastParent, Heaped, Parent;
      var i: nat := start;
      ShuffledSelf(heap);
      while true
        invariant byID == old(byID) && order == old(order)
        invariant start <= i && |heap| == |old(heap)| && Indexed() && Shuffled(heap, old(heap))
        invariant HeapedAround(heap, n, i) && Under(heap, n, i)
        invariant if i == start then heap == old(heap) else i < n && AtLeastParent(heap, n, i)
        invariant forall k :: n <= k < |heap| ==> heap[k] == old(heap)[k]
        decreases n - i
      {
        var j := 2 * i + 1;
        if j >= n { Settled(heap, n, i); break; }
        if j + 1 < n && Before(heap[j + 1].t, heap[j].t) { j := j + 1; }
        LesserChild(heap, n, i, j);
        if !Before(heap[j].t, heap[i].t) { Settled(heap, n, i); break; }
        LoweredOnce(heap, n, i, j);
        ShuffledIn(heap, old(heap));
        ghost var was := heap;
        Swap(i, j);
        ShuffledOn(heap, was, old(heap));
        i := j;
      }
      moved := i > start;
    }

    // Less, Swap, Push and Pop are the heap's own; this is its Pop.
    method Drop() returns (e: Entry)
      requires Indexed() && heap != []
      modifies this, heap
      ensures byID == old(byID) && order == old(order)
      ensures e == old(heap)[|old(heap)| - 1] && heap == old(heap)[..|old(heap)| - 1] && Indexed()
    {
      e := heap[|heap| - 1];
      heap := heap[..|heap| - 1];
      e.index := -1;
    }

    // container/heap's Remove, up to its Pop.
    method MoveOut(i: nat)
      requires Indexed() && Heaped(heap, |heap|, 0) && i < |heap|
      modifies this, heap
      ensures byID == old(byID) && order == old(order)
      ensures Indexed() && Shuffled(heap, old(heap)) && Heaped(heap, |heap| - 1, 0) && heap[|heap| - 1] == old(heap)[i]
    {
      hide Distinct, Shuffled, HeapedAround, Under, AtLeastParent, Heaped, Parent;
      var n := |heap| - 1;
      ShuffledSelf(heap);
      HeapedShorter(heap, |heap|, n);
      if n != i {
        PutLastAt(heap, i);
        Swap(i, n);
        ghost var was := heap;
        var moved := Down(i, n);
        ShuffledOn(heap, was, old(heap));
        if !moved {
          Up(i, n);
          ShuffledOn(heap, was, old(heap));
        }
      }
    }

    // container/heap's Remove.
    method RemoveAt(i: nat) returns (e: Entry)
      requires Indexed() && Heaped(heap, |heap|, 0) && i < |heap|
      modifies this, heap
      ensures byID == old(byID) && order == old(order)
      ensures e == old(heap)[i] && Indexed() && Heaped(heap, |heap|, 0) && Without(heap, old(heap), e)
    {
      hide Distinct, Heaped, Parent, Without;
      MoveOut(i);
      ghost var was := heap;
      e := Drop();
      HeapedShorter(was, |was| - 1, |was| - 1);
      DropLeaves(heap, was, old(heap), e);
    }

    // container/heap's Pop.
    method PopFirst() returns (e: Entry)
      requires Indexed() && Heaped(heap, |heap|, 0) && heap != []
      modifies this, heap
      ensures byID == old(byID) && order == old(order)
      ensures e == old(heap)[0] && Indexed() && Heaped(heap, |heap|, 0) && Without(heap, old(heap), e)
    {
      hide Distinct, Shuffled, HeapedAround, Under, AtLeastParent, Heaped, Parent, Without;
      var n := |heap| - 1;
      PutLastAt(heap, 0);
      Swap(0, n);
      ghost var was := heap;
      var moved := Down(0, n);
      ShuffledOn(heap, was, old(heap));
      was := heap;
      e := Drop();
      HeapedShorter(was, n, n);
      DropLeaves(heap, was, old(heap), e);
    }

    // SetTimeout: heap.Push is an append and up.
    method SetTimeout(ms: Float, now: nat, id: nat, ghost s: State, ghost skipped: nat)
      requires Shows(s) && Invariant(s) && now == s.now && id == s.ids + skipped + 1
      modifies this, heap
      ensures Shows(Apply(s, Act.SetTimeout(ms, skipped)))
    {
      hide Distinct, Shuffled, Heaped, Under, Stands, Invariant, Delay;
      ghost var was := heap;
      order := order + 1;
      var t := Timer(now + Delay(ms), order, id);
      var e := new Entry(t);
      e.index := |heap|;
      Pushed(was, e, s, byID);
      heap := heap + [e];
      ShuffledSelf(heap);
      Up(|heap| - 1, |heap|);
      StandsWith(heap, was, byID, s, ms, skipped, e);
      byID := byID[id := e];
    }

    method ClearTimeout(id: nat, ghost s: State)
      requires Shows(s) && Invariant(s)
      modifies this, heap
      ensures Shows(Apply(s, Act.ClearTimeout(id)))
    {
      hide Distinct, Heaped, Without;
      if id !in byID { return; }
      ghost var was := heap;
      var i := byID[id].index;
      var e := RemoveAt(i);
      StandsWithout(heap, was, byID, s, Apply(s, Act.ClearTimeout(id)), e);
      byID := byID - {id};
    }

    // The head of fireDue's loop: the earliest timer, if it is due.
    method TakeDue(now: nat, ghost s: State) returns (due: Option<Timer>)
      requires Shows(s) && Invariant(s) && now == s.now
      modifies this, heap
      ensures due.None? ==> Shows(s) && forall t :: t in s.timers ==> t.when > now
      ensures due.Some? ==> Enabled(s, Fire(due.value)) && Shows(Apply(s, Fire(due.value)))
    {
      hide Distinct, Heaped, Without, Invariant;
      if heap == [] { return None; }
      RootIsFirst(heap, byID, s);
      if heap[0].t.when > now { return None; }
      ghost var was := heap;
      var e := PopFirst();
      StandsWithout(heap, was, byID, s, Apply(s, Fire(e.t)), e);
      byID := byID - {e.t.id};
      return Some(e.t);
    }
  }
}
