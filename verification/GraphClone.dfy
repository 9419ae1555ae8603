/**
  The copy a spawned function's result goes through (backend/runtime/object.go,
  array.go; backend/emit_object.go): a graph of objects and arrays, copied once
  each, aliasing and cycles kept.
*/
module GraphClone {
  import opened Options

  // What a field or an element holds: a primitive or a function, which is
  // copied as it is; an object or an array; or a maybe that holds a value.
  datatype Slot = Plain(v: int) | Ref(node: Node) | Just(inner: Slot)

  // An object or an array. layout is an object's table, which copies share.
  class Node {
    const isArray: bool
    var layout: int
    var slots: seq<Slot>

    constructor (isArray: bool, layout: int, slots: seq<Slot>)
      ensures this.isArray == isArray && this.layout == layout && this.slots == slots
    {
      this.isArray, this.layout, this.slots := isArray, layout, slots;
    }
  }

  function RefsIn(s: Slot): set<Node> {
    match s
    case Plain(_) => {}
    case Ref(n) => {n}
    case Just(t) => RefsIn(t)
  }

  // Every object a node of the set leads to is in it.
  ghost predicate Closed(world: set<Node>)
    reads world
  {
    forall n, i :: n in world && 0 <= i < |n.slots| ==> RefsIn(n.slots[i]) <= world
  }

  // What a slot is copied to.
  predicate Image(s: Slot, c: Slot, copies: map<Node, Node>) {
    match s
    case Plain(_) => c == s
    case Ref(n) => n in copies && c == Ref(copies[n])
    case Just(t) => c.Just? && Image(t, c.inner, copies)
  }

  lemma {:induction false} ImageStays(s: Slot, c: Slot, copies: map<Node, Node>, more: map<Node, Node>)
    requires Image(s, c, copies)
    requires forall n :: n in copies ==> n in more && more[n] == copies[n]
    ensures Image(s, c, more)
  {
    if s.Just? { ImageStays(s.inner, c.inner, copies, more); }
  }

  // m is all of n's copy.
  ghost predicate Copied(n: Node, m: Node, copies: map<Node, Node>)
    reads n, m
  {
    && m.isArray == n.isArray && m.layout == n.layout && |m.slots| == |n.slots|
    && forall i :: 0 <= i < |n.slots| ==> Image(n.slots[i], m.slots[i], copies)
  }

  lemma {:induction false} CopiedStays(n: Node, m: Node, copies: map<Node, Node>, more: map<Node, Node>)
    requires Copied(n, m, copies)
    requires forall x :: x in copies ==> x in more && more[x] == copies[x]
    ensures Copied(n, m, more)
  {
    forall i | 0 <= i < |n.slots|
      ensures Image(n.slots[i], m.slots[i], more)
    {
      ImageStays(n.slots[i], m.slots[i], copies, more);
    }
  }

  ghost predicate Injective(copies: map<Node, Node>) {
    forall x, y :: x in copies && y in copies && copies[x] == copies[y] ==> x == y
  }

  lemma {:induction false} ClosedAt(world: set<Node>, n: Node, i: nat)
    requires Closed(world) && n in world && i < |n.slots|
    ensures RefsIn(n.slots[i]) <= world
  {
  }

  lemma OneMore(copies: map<Node, Node>, o: Node, copied: Node)
    requires Injective(copies) && o !in copies && copied !in copies.Values
    ensures Injective(copies[o := copied])
  {
  }

  class Cloner {
    var copies: map<Node, Node>

    constructor ()
      ensures copies == map[]
    {
      copies := map[];
    }

    ghost predicate Valid(world: set<Node>)
      reads this, world
    {
      && Closed(world) && copies.Keys <= world && copies.Values !! world && Injective(copies)
    }

    // What one part of the copy does: it only adds, and all it adds is done,
    // new and reached from where it began.
    twostate predicate Adds(world: set<Node>, from: set<Node>)
      reads this, world, copies.Values
    {
      && copies.Keys <= world
      && (forall x :: x in old(copies) ==> x in copies && copies[x] == old(copies[x]))
      && (forall x :: x in copies && x !in old(copies) ==> fresh(copies[x]) && Copied(x, copies[x], copies))
      && (forall part :: part <= world && Closed(part) && from <= part ==> copies.Keys <= old(copies.Keys) + part)
    }

    /** CloneValue. */
    method CloneSlot(s: Slot, ghost world: set<Node>) returns (c: Slot)
      requires Valid(world) && RefsIn(s) <= world
      modifies this
      ensures Valid(world) && Adds(world, RefsIn(s)) && Image(s, c, copies)
      ensures old(copies.Keys) <= copies.Keys
      decreases world - copies.Keys, 1, s
    {
      match s
      case Plain(_) => c := s;
      case Ref(n) =>
        if n in copies { return Ref(copies[n]); }
        var m := CloneNode(n, world);
        c := Ref(m);
      case Just(t) =>
        var inner := CloneSlot(t, world);
        c := Just(inner);
    }

    // Where a part of the graph holds o, it holds all that has been copied.
    ghost predicate Within(world: set<Node>, o: Node, before: map<Node, Node>)
      reads this, world
    {
      forall part :: part <= world && Closed(part) && o in part ==> copies.Keys <= before.Keys + part
    }

    // o's copy is made up to slot i; what else was added since before is done.
    ghost predicate Partial(world: set<Node>, o: Node, copied: Node, before: map<Node, Node>, i: nat)
      reads this, world, copied, copies.Values
    {
      && Valid(world) && o in world && o in copies && o !in before && copies[o] == copied
      && copied.isArray == o.isArray && copied.layout == o.layout && |copied.slots| == |o.slots| && i <= |o.slots|
      && (forall x :: x in before ==> x in copies && copies[x] == before[x])
      && (forall x :: x in copies && x !in before && x != o ==> Copied(x, copies[x], copies))
      && (forall k :: 0 <= k < i ==> Image(o.slots[k], copied.slots[k], copies))
    }

    // The value of slot i, and what was done before it still is.
    method CloneValue(o: Node, copied: Node, i: nat, ghost before: map<Node, Node>, ghost world: set<Node>) returns (v: Slot)
      requires Partial(world, o, copied, before, i) && i < |o.slots| && Within(world, o, before)
      modifies this
      ensures Partial(world, o, copied, before, i) && Within(world, o, before) && old(copies.Keys) <= copies.Keys
      ensures Image(o.slots[i], v, copies)
      ensures forall x :: x in old(copies) ==> copies[x] == old(copies[x])
      ensures forall x :: x in copies && x !in old(copies) ==> fresh(copies[x])
      decreases world - copies.Keys, 2, Plain(0)
    {
      hide Image, RefsIn, Closed, Injective;
      ghost var prior := copies;
      ghost var slots := copied.slots;
      ClosedAt(world, o, i);
      v := CloneSlot(o.slots[i], world);
      forall x | x in prior && x !in before && x != o
        ensures Copied(x, copies[x], copies)
      {
        assert Copied(x, copies[x], prior);
        CopiedStays(x, copies[x], prior, copies);
      }
      forall k | 0 <= k < i
        ensures Image(o.slots[k], slots[k], copies)
      {
        ImageStays(o.slots[k], slots[k], prior, copies);
      }
      forall part: set<Node> | part <= world && Closed(part) && o in part
        ensures copies.Keys <= before.Keys + part
      {
        ClosedAt(part, o, i);
      }
    }

    lemma Started(o: Node, copied: Node, world: set<Node>)
      requires Valid(world) && o in world && o !in copies && copied !in world && copied !in copies.Values
      ensures Injective(copies[o := copied]) && copies[o := copied].Keys <= world && copies[o := copied].Values !! world
      ensures copies.Keys < copies[o := copied].Keys
    {
      OneMore(copies, o, copied);
      assert o in copies[o := copied].Keys;
    }

    lemma Begun(o: Node, copied: Node, before: map<Node, Node>, world: set<Node>)
      requires Valid(world) && o in world && o !in before && copies == before[o := copied]
      requires copied.isArray == o.isArray && copied.layout == o.layout && copied.slots == o.slots
      ensures Partial(world, o, copied, before, 0) && Within(world, o, before)
    {
    }

    lemma Finished(o: Node, copied: Node, before: map<Node, Node>, world: set<Node>)
      requires Partial(world, o, copied, before, |o.slots|) && Within(world, o, before)
      ensures Valid(world) && copies.Keys <= world && o in copies && copies[o] == copied
      ensures forall x :: x in before ==> x in copies && copies[x] == before[x]
      ensures forall x :: x in copies && x !in before ==> Copied(x, copies[x], copies)
      ensures forall part :: part <= world && Closed(part) && {o} <= part ==> copies.Keys <= before.Keys + part
    {
    }

    /** CloneObject and cloneArray: the copy is remembered before any field is
        copied. */
    method CloneNode(o: Node, ghost world: set<Node>) returns (copied: Node)
      requires Valid(world) && o in world && o !in copies
      modifies this
      ensures Valid(world) && Adds(world, {o}) && o in copies && copies[o] == copied
      ensures old(copies.Keys) <= copies.Keys
      decreases world - copies.Keys, 0, Plain(0)
    {
      hide Image, RefsIn, Closed, Injective, Partial, Within, Copied;
      copied := new Node(o.isArray, o.layout, o.slots);
      ghost var before := copies;
      Started(o, copied, world);
      copies := copies[o := copied];
      assert Valid(world) && o in copies;
      Begun(o, copied, before, world);
      for i := 0 to |o.slots|
        invariant Partial(world, o, copied, before, i) && Within(world, o, before)
        invariant o in copies && before.Keys <= copies.Keys
        invariant forall x :: x in copies && x !in before ==> fresh(copies[x])
      {
        assert world - copies.Keys < world - before.Keys by { assert o in world - before.Keys && o !in world - copies.Keys; }
        var v := CloneValue(o, copied, i, before, world);
        SetSlot(o, copied, i, v, before, world);
      }
      Finished(o, copied, before, world);
    }

    method SetSlot(o: Node, copied: Node, i: nat, v: Slot, ghost before: map<Node, Node>, ghost world: set<Node>)
      requires Partial(world, o, copied, before, i) && i < |o.slots| && Within(world, o, before) && Image(o.slots[i], v, copies)
      modifies copied
      ensures Partial(world, o, copied, before, i + 1) && Within(world, o, before)
    {
      hide Image, RefsIn, Closed;
      copied.slots := copied.slots[i := v];
      forall x | x in copies && x !in before && x != o
        ensures Copied(x, copies[x], copies)
      {
        assert copies[x] != copied;
      }
    }
  }

  /** Clone: a copy of everything v leads to, each object and array once, of
      the same shape, in new objects; the original untouched. */
  method Clone(v: Slot, ghost world: set<Node>) returns (c: Slot, ghost copies: map<Node, Node>)
    requires Closed(world) && RefsIn(v) <= world
    ensures Image(v, c, copies) && Injective(copies)
    ensures forall x :: x in copies ==> x in world && fresh(copies[x]) && Copied(x, copies[x], copies)
    ensures Closed(copies.Keys) && RefsIn(v) <= copies.Keys
    ensures forall part :: part <= world && Closed(part) && RefsIn(v) <= part ==> copies.Keys <= part
  {
    var cloner := new Cloner();
    c := cloner.CloneSlot(v, world);
    copies := cloner.copies;
    ImageReaches(v, c, copies);
    forall n, i | n in copies && 0 <= i < |n.slots|
      ensures RefsIn(n.slots[i]) <= copies.Keys
    {
      assert Copied(n, copies[n], copies);
      ImageReaches(n.slots[i], copies[n].slots[i], copies);
    }
  }

  lemma {:induction false} ImageReaches(s: Slot, c: Slot, copies: map<Node, Node>)
    requires Image(s, c, copies)
    ensures RefsIn(s) <= copies.Keys
  {
    if s.Just? { ImageReaches(s.inner, c.inner, copies); }
  }

  // Isomorphism, as a program could see it.

  // The object a value is, or holds.
  function Target(s: Slot): Option<Node> {
    match s
    case Plain(_) => None
    case Ref(n) => Some(n)
    case Just(t) => Target(t)
  }

  // What reading one field or element after another gives, within some nodes.
  function Follow(s: Slot, path: seq<nat>, nodes: set<Node>): Option<Slot>
    reads nodes
    decreases |path|
  {
    if path == [] then Some(s)
    else match Target(s)
      case None => None
      case Some(n) => if n in nodes && path[0] < |n.slots| then Follow(n.slots[path[0]], path[1..], nodes) else None
  }

  lemma {:induction false} ImageTargets(s: Slot, c: Slot, copies: map<Node, Node>)
    requires Image(s, c, copies)
    ensures Target(s).None? <==> Target(c).None?
    ensures Target(s).Some? ==> Target(s).value in copies && Target(c) == Some(copies[Target(s).value])
  {
    if s.Just? { ImageTargets(s.inner, c.inner, copies); }
  }

  /** Any reads made of the original and of its copy go as far and find a value
      and its copy. */
  lemma {:induction false} SameReads(s: Slot, c: Slot, path: seq<nat>, copies: map<Node, Node>)
    requires Image(s, c, copies) && forall n :: n in copies ==> Copied(n, copies[n], copies)
    ensures Follow(s, path, copies.Keys).None? <==> Follow(c, path, copies.Values).None?
    ensures Follow(s, path, copies.Keys).Some? ==>
      Image(Follow(s, path, copies.Keys).value, Follow(c, path, copies.Values).value, copies)
    decreases |path|
  {
    ImageTargets(s, c, copies);
    if path != [] && Target(s).Some? {
      var n := Target(s).value;
      assert Copied(n, copies[n], copies) && copies[n] in copies.Values;
      if path[0] < |n.slots| { SameReads(n.slots[path[0]], copies[n].slots[path[0]], path[1..], copies); }
    }
  }

  // What is in a value but for the object: how many maybes, and a primitive.
  function Maybes(s: Slot): nat { if s.Just? then 1 + Maybes(s.inner) else 0 }

  function Primitive(s: Slot): Option<int> {
    match s
    case Plain(v) => Some(v)
    case Ref(_) => None
    case Just(t) => Primitive(t)
  }

  lemma {:induction false} ImageIsAsPlain(s: Slot, c: Slot, copies: map<Node, Node>)
    requires Image(s, c, copies)
    ensures Maybes(c) == Maybes(s) && Primitive(c) == Primitive(s)
  {
    if s.Just? { ImageIsAsPlain(s.inner, c.inner, copies); }
  }

  /** Any read of the copy finds the primitive the same read of the original
      does, within as many maybes, or an object of the same kind, layout and
      length, which is the copy of the one found there. */
  lemma {:induction false} SameContents(s: Slot, c: Slot, path: seq<nat>, copies: map<Node, Node>)
    requires Image(s, c, copies) && forall n :: n in copies ==> Copied(n, copies[n], copies)
    requires Follow(s, path, copies.Keys).Some?
    ensures Follow(c, path, copies.Values).Some?
    ensures var x, y := Follow(s, path, copies.Keys).value, Follow(c, path, copies.Values).value;
      Maybes(y) == Maybes(x) && Primitive(y) == Primitive(x) && (Target(y).Some? <==> Target(x).Some?)
    ensures var n, m := Target(Follow(s, path, copies.Keys).value), Target(Follow(c, path, copies.Values).value);
      n.Some? ==>
        && n.value in copies && m == Some(copies[n.value])
        && m.value.isArray == n.value.isArray && m.value.layout == n.value.layout && |m.value.slots| == |n.value.slots|
  {
    SameReads(s, c, path, copies);
    var x, y := Follow(s, path, copies.Keys).value, Follow(c, path, copies.Values).value;
    ImageIsAsPlain(x, y, copies);
    ImageTargets(x, y, copies);
    if Target(x).Some? { assert Copied(Target(x).value, copies[Target(x).value], copies); }
  }

  /** And two reads of the copy find one object exactly when they do in the
      original. */
  lemma {:induction false} SameAliases(s: Slot, c: Slot, p: seq<nat>, q: seq<nat>, copies: map<Node, Node>)
    requires Image(s, c, copies) && Injective(copies) && forall n :: n in copies ==> Copied(n, copies[n], copies)
    requires Follow(s, p, copies.Keys).Some? && Follow(s, q, copies.Keys).Some?
    requires Target(Follow(s, p, copies.Keys).value).Some? && Target(Follow(s, q, copies.Keys).value).Some?
    ensures Follow(c, p, copies.Values).Some? && Follow(c, q, copies.Values).Some?
    ensures Target(Follow(s, p, copies.Keys).value) == Target(Follow(s, q, copies.Keys).value)
      <==> Target(Follow(c, p, copies.Values).value) == Target(Follow(c, q, copies.Values).value)
  {
    SameReads(s, c, p, copies);
    SameReads(s, c, q, copies);
    ImageTargets(Follow(s, p, copies.Keys).value, Follow(c, p, copies.Values).value, copies);
    ImageTargets(Follow(s, q, copies.Keys).value, Follow(c, q, copies.Values).value, copies);
  }
}
