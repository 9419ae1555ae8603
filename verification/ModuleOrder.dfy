/**
  The order a program's modules are evaluated in (ir/program.go): depth first
  from the entry, over imports that may be cyclic.
*/
module ModuleOrder {
  import opened NaturalSets
  import opened Options

  datatype Module = Module(file: string, imports: seq<string>)

  datatype Program = Program(modules: seq<Module>, entry: nat)

  // index: the module a file names, the last if two share one.
  function Find(modules: seq<Module>, file: string): (i: Option<nat>)
    ensures i.Some? ==> i.value < |modules| && modules[i.value].file == file
  {
    if modules == [] then None
    else if modules[|modules| - 1].file == file then Some(|modules| - 1)
    else Find(modules[..|modules| - 1], file)
  }

  function Resolve(modules: seq<Module>, files: seq<string>): (js: seq<nat>)
    ensures forall k :: 0 <= k < |js| ==> js[k] < |modules|
  {
    if files == [] then []
    else match Find(modules, files[0])
      case None => Resolve(modules, files[1..])
      case Some(j) => [j] + Resolve(modules, files[1..])
  }

  // The modules that module i imports, in order.
  function Imports(p: Program, i: nat): (js: seq<nat>)
    requires i < |p.modules|
    ensures forall k :: 0 <= k < |js| ==> js[k] < |p.modules|
  {
    Resolve(p.modules, p.modules[i].imports)
  }

  // Reaching one module from another.

  predicate IsPath(p: Program, path: seq<nat>) {
    && path != []
    && (forall k :: 0 <= k < |path| ==> path[k] < |p.modules|)
    && (forall k :: 0 <= k < |path| - 1 ==> path[k + 1] in Imports(p, path[k]))
  }

  predicate Goes(p: Program, path: seq<nat>, i: nat, j: nat) { IsPath(p, path) && path[0] == i && path[|path| - 1] == j }

  ghost predicate Reaches(p: Program, i: nat, j: nat) { exists path :: Goes(p, path, i, j) }

  lemma ReachesSelf(p: Program, i: nat)
    requires i < |p.modules|
    ensures Reaches(p, i, i)
  {
    assert Goes(p, [i], i, i);
  }

  lemma ReachesOn(p: Program, i: nat, j: nat, k: nat)
    requires Reaches(p, i, j) && j < |p.modules| && k in Imports(p, j)
    ensures Reaches(p, i, k)
  {
    var path :| Goes(p, path, i, j);
    assert Goes(p, path + [k], i, k);
  }

  // The walk: what is entered, and what is listed so far.
  datatype State = State(entered: set<nat>, order: seq<nat>)

  function Left(p: Program, s: State): nat { |Numbers(|p.modules|) - s.entered| }

  lemma LeftLess(p: Program, s: State, t: State)
    requires s.entered <= t.entered
    ensures Left(p, t) <= Left(p, s)
    ensures (exists i: nat :: i < |p.modules| && i !in s.entered && i in t.entered) ==> Left(p, t) < Left(p, s)
  {
    var a, b := Numbers(|p.modules|) - s.entered, Numbers(|p.modules|) - t.entered;
    assert a == b + (a - b);
    if i: nat :| i < |p.modules| && i !in s.entered && i in t.entered { assert i in a - b; }
  }

  function Enter(s: State, i: nat): State { s.(entered := s.entered + {i}) }

  function List(s: State, i: nat): State { s.(order := s.order + [i]) }

  function Visited(p: Program, i: nat, s: State): (t: State)
    requires i < |p.modules|
    ensures s.entered <= t.entered
    decreases Left(p, s), 1, 0
  {
    if i in s.entered then s else
    LeftLess(p, s, Enter(s, i));
    List(VisitedAll(p, Imports(p, i), Enter(s, i)), i)
  }

  function VisitedAll(p: Program, js: seq<nat>, s: State): (t: State)
    requires forall k :: 0 <= k < |js| ==> js[k] < |p.modules|
    ensures s.entered <= t.entered
    decreases Left(p, s), 2, |js|
  {
    if js == [] then s else
    var t := Visited(p, js[0], s);
    LeftLess(p, s, t);
    VisitedAll(p, js[1..], t)
  }

  function Order(p: Program): seq<nat>
    requires p.entry < |p.modules|
  {
    Visited(p, p.entry, State({}, [])).order
  }

  // What the walk keeps.

  // Every import of a listed module is entered, and listed before it unless it
  // can reach it.
  ghost predicate Settled(p: Program, s: State, k: nat)
    requires k < |s.order|
  {
    s.order[k] < |p.modules| &&
    forall j :: j in Imports(p, s.order[k]) ==> j in s.entered && (j in s.order[..k] || Reaches(p, j, s.order[k]))
  }

  ghost predicate Kept(p: Program, s: State) {
    && (forall k :: 0 <= k < |s.order| ==> s.order[k] in s.entered)
    && (forall k, l :: 0 <= k < l < |s.order| ==> s.order[k] != s.order[l])
    && (forall k :: 0 <= k < |s.order| ==> Settled(p, s, k))
  }

  // Entered and not yet listed: the walk is inside them.
  function Open(s: State): set<nat> { s.entered - set k | 0 <= k < |s.order| :: s.order[k] }

  // The walk is at i: it is inside nothing that does not reach i.
  ghost predicate At(p: Program, s: State, i: nat) { forall k :: k in Open(s) ==> Reaches(p, k, i) }

  ghost predicate Grew(p: Program, i: nat, s: State, t: State) {
    && s.order <= t.order && Open(t) == Open(s)
    && (forall k :: k in t.entered && k !in s.entered ==> Reaches(p, i, k))
  }

  lemma GrewSelf(p: Program, i: nat, s: State)
    ensures Grew(p, i, s, s)
  {
  }

  lemma {:induction false} VisitKeeps(p: Program, i: nat, s: State)
    requires i < |p.modules| && Kept(p, s) && At(p, s, i)
    ensures var t := Visited(p, i, s); Kept(p, t) && Grew(p, i, s, t) && i in t.entered
    ensures i !in s.entered ==> var t := Visited(p, i, s); t.order != [] && t.order[|t.order| - 1] == i
    decreases Left(p, s), 1, 0
  {
    hide Kept, Grew, At, Imports, Reaches;
    if i in s.entered {
      GrewSelf(p, i, s);
    } else {
      var e := Enter(s, i);
      ReachesSelf(p, i);
      LeftLess(p, s, e);
      EnterKeeps(p, i, s);
      VisitAllKeeps(p, i, Imports(p, i), e);
      var a := VisitedAll(p, Imports(p, i), e);
      ListKeeps(p, i, s, a);
    }
  }

  lemma {:induction false} EnterKeeps(p: Program, i: nat, s: State)
    requires i < |p.modules| && Kept(p, s) && At(p, s, i) && i !in s.entered
    ensures Kept(p, Enter(s, i)) && At(p, Enter(s, i), i) && Open(Enter(s, i)) == Open(s) + {i}
  {
    var e := Enter(s, i);
    ReachesSelf(p, i);
    forall k | 0 <= k < |s.order|
      ensures Settled(p, e, k)
    {
      assert Settled(p, s, k);
    }
  }

  lemma {:induction false} ListKeeps(p: Program, i: nat, s: State, a: State)
    requires i < |p.modules| && i !in s.entered && Kept(p, a) && Grew(p, i, Enter(s, i), a)
    requires Open(Enter(s, i)) == Open(s) + {i} && At(p, a, i)
    requires forall k :: 0 <= k < |Imports(p, i)| ==> Imports(p, i)[k] in a.entered
    ensures Kept(p, List(a, i)) && Grew(p, i, s, List(a, i)) && i in List(a, i).entered
  {
    var t := List(a, i);
    ReachesSelf(p, i);
    assert i in Open(a);
    forall k | 0 <= k < |t.order|
      ensures Settled(p, t, k)
    {
      if k < |a.order| {
        assert Settled(p, a, k) && t.order[..k] == a.order[..k];
      } else {
        assert t.order[..k] == a.order;
        forall j | j in Imports(p, i)
          ensures j in t.entered && (j in t.order[..k] || Reaches(p, j, i))
        {
          if j !in a.order { assert j in Open(a); }
        }
      }
    }
    assert (set k | 0 <= k < |t.order| :: t.order[k]) == (set k | 0 <= k < |a.order| :: a.order[k]) + {i} by {
      assert t.order[|a.order|] == i;
      assert forall k :: 0 <= k < |a.order| ==> t.order[k] == a.order[k];
    }
  }

  lemma {:induction false} GrewThen(p: Program, i: nat, s: State, t: State, u: State)
    requires Grew(p, i, s, t) && Grew(p, i, t, u)
    ensures Grew(p, i, s, u)
  {
    hide Reaches;
  }

  lemma {:induction false} AtAfter(p: Program, i: nat, s: State, t: State)
    requires At(p, s, i) && Grew(p, i, s, t)
    ensures At(p, t, i)
  {
    hide Reaches;
  }

  lemma {:induction false} VisitAllKeeps(p: Program, i: nat, js: seq<nat>, s: State)
    requires i < |p.modules| && Kept(p, s) && At(p, s, i) && i in s.entered
    requires forall k :: 0 <= k < |js| ==> js[k] < |p.modules| && js[k] in Imports(p, i)
    ensures var t := VisitedAll(p, js, s);
      && Kept(p, t) && Grew(p, i, s, t) && At(p, t, i)
      && forall k :: 0 <= k < |js| ==> js[k] in t.entered
    decreases Left(p, s), 2, |js|
  {
    hide Kept, Grew, At, Imports, Visited;
    if js == [] {
      GrewSelf(p, i, s);
    } else {
      var j := js[0];
      ReachesOver(p, s, i, j);
      VisitKeeps(p, j, s);
      var t := Visited(p, j, s);
      LeftLess(p, s, t);
      ReachesThrough(p, i, j, s, t);
      AtAfter(p, i, s, t);
      VisitAllKeeps(p, i, js[1..], t);
      GrewThen(p, i, s, t, VisitedAll(p, js[1..], t));
    }
  }

  lemma {:induction false} ReachesOver(p: Program, s: State, i: nat, j: nat)
    requires i < |p.modules| && At(p, s, i) && j in Imports(p, i)
    ensures At(p, s, j)
  {
    forall k | k in Open(s)
      ensures Reaches(p, k, j)
    {
      ReachesOn(p, k, i, j);
    }
  }

  lemma {:induction false} ReachesThrough(p: Program, i: nat, j: nat, s: State, t: State)
    requires i < |p.modules| && j in Imports(p, i) && Grew(p, j, s, t)
    ensures Grew(p, i, s, t)
  {
    forall k | k in t.entered && k !in s.entered
      ensures Reaches(p, i, k)
    {
      var path :| Goes(p, path, j, k);
      assert Goes(p, [i] + path, i, k);
    }
  }

  // The end of the walk: nothing is open, and every import is entered.
  lemma {:induction false} WalkEnds(p: Program)
    requires p.entry < |p.modules|
    ensures var t := Visited(p, p.entry, State({}, []));
      && Kept(p, t) && (forall i :: i in t.entered <==> i in t.order)
      && t.order != [] && t.order[|t.order| - 1] == p.entry
      && (forall i :: i in t.order ==> Reaches(p, p.entry, i))
  {
    hide Reaches, Visited, Imports, Settled;
    var s := State({}, []);
    var t := Visited(p, p.entry, s);
    VisitKeeps(p, p.entry, s);
    assert Open(t) == {};
    forall i | i in t.entered
      ensures i in t.order
    {
      assert i !in Open(t);
    }
  }

  lemma {:induction false} ReachedIsListed(p: Program, t: State, path: seq<nat>)
    requires Kept(p, t) && (forall i :: i in t.entered <==> i in t.order)
    requires IsPath(p, path) && path[0] in t.order
    ensures path[|path| - 1] in t.order
    decreases |path|
  {
    hide Imports, Reaches;
    if |path| > 1 {
      var k :| 0 <= k < |t.order| && t.order[k] == path[0];
      assert Settled(p, t, k);
      ReachedIsListed(p, t, path[1..]);
    }
  }

  predicate Each(p: Program, order: seq<nat>) {
    && (forall k, l :: 0 <= k < l < |order| ==> order[k] != order[l])
    && (forall k :: 0 <= k < |order| ==> order[k] < |p.modules|)
  }

  ghost predicate AfterImports(p: Program, order: seq<nat>, k: nat)
    requires k < |order| && order[k] < |p.modules|
  {
    forall j :: j in Imports(p, order[k]) ==> j in order[..k] || Reaches(p, j, order[k])
  }

  /** The order lists exactly the modules the entry reaches, each once, the
      entry last, and each module after every module it imports that cannot
      reach it. */
  lemma EvaluatesInOrder(p: Program)
    requires p.entry < |p.modules|
    ensures Each(p, Order(p))
    ensures forall i :: i in Order(p) <==> Reaches(p, p.entry, i)
    ensures Order(p) != [] && Order(p)[|Order(p)| - 1] == p.entry
    ensures forall k :: 0 <= k < |Order(p)| ==> AfterImports(p, Order(p), k)
  {
    hide Reaches, Imports, Visited;
    var t := Visited(p, p.entry, State({}, []));
    WalkEnds(p);
    forall k | 0 <= k < |t.order|
      ensures t.order[k] < |p.modules| && AfterImports(p, t.order, k)
    {
      assert Settled(p, t, k);
    }
    forall i | Reaches(p, p.entry, i)
      ensures i in t.order
    {
      var path := PathOf(p, p.entry, i);
      ReachedIsListed(p, t, path);
    }
  }

  lemma PathOf(p: Program, i: nat, j: nat) returns (path: seq<nat>)
    requires Reaches(p, i, j)
    ensures Goes(p, path, i, j)
  {
    path :| Goes(p, path, i, j);
  }

  // Imports, told from the files alone.

  // j is the module a file names: the last that has it.
  predicate Names(modules: seq<Module>, file: string, j: nat) {
    j < |modules| && modules[j].file == file && forall k :: j < k < |modules| ==> modules[k].file != file
  }

  lemma {:induction false} FindNames(modules: seq<Module>, file: string, j: nat)
    ensures Find(modules, file) == Some(j) <==> Names(modules, file, j)
    ensures Find(modules, file).None? <==> forall k :: 0 <= k < |modules| ==> modules[k].file != file
    decreases |modules|
  {
    if modules != [] { FindNames(modules[..|modules| - 1], file, j); }
  }

  /** A file imports the module it names, or none when none has it; and a
      list of files imports what each does, in their order. */
  lemma {:induction false} ImportsAreNamed(modules: seq<Module>, a: seq<string>, b: seq<string>, file: string, j: nat)
    ensures Resolve(modules, [file]) == [j] <==> Names(modules, file, j)
    ensures Resolve(modules, [file]) == [] <==> forall k :: 0 <= k < |modules| ==> modules[k].file != file
    ensures Resolve(modules, a + b) == Resolve(modules, a) + Resolve(modules, b)
    decreases |a|
  {
    hide Find, Names;
    FindNames(modules, file, j);
    var found := Find(modules, file);
    assert [file][1..] == [] && Resolve(modules, []) == [];
    assert Resolve(modules, [file]) == if found.Some? then [found.value] else [];
    assert found.Some? ==> [found.value][0] == found.value && [j][0] == j;
    if a == [] {
      assert a + b == b && [] + Resolve(modules, b) == Resolve(modules, b);
    } else {
      assert (a + b)[1..] == a[1..] + b;
      ImportsAreNamed(modules, a[1..], b, file, j);
    }
  }

  // One import before another.

  lemma {:induction false} VisitedTogether(p: Program, a: seq<nat>, b: seq<nat>, s: State)
    requires forall k :: 0 <= k < |a| ==> a[k] < |p.modules|
    requires forall k :: 0 <= k < |b| ==> b[k] < |p.modules|
    ensures VisitedAll(p, a + b, s) == VisitedAll(p, b, VisitedAll(p, a, s))
    decreases |a|
  {
    hide Visited;
    if a == [] {
      assert a + b == b;
    } else {
      assert (a + b)[1..] == a[1..] + b;
      VisitedTogether(p, a[1..], b, Visited(p, a[0], s));
    }
  }

  // What visiting some of i's imports enters, one of them reaches.
  lemma {:induction false} EnteredIsReached(p: Program, i: nat, js: seq<nat>, s: State, k: nat) returns (c: nat)
    requires i < |p.modules| && Kept(p, s) && At(p, s, i) && i in s.entered
    requires forall c :: 0 <= c < |js| ==> js[c] < |p.modules| && js[c] in Imports(p, i)
    requires k in VisitedAll(p, js, s).entered && k !in s.entered
    ensures c < |js| && Reaches(p, js[c], k)
    decreases |js|
  {
    hide Kept, Grew, At, Imports, Visited, Reaches;
    var j, t := js[0], Visited(p, js[0], s);
    ReachesOver(p, s, i, j);
    VisitKeeps(p, j, s);
    if k in t.entered {
      GrewReaches(p, j, s, t, k);
      c := 0;
    } else {
      ReachesThrough(p, i, j, s, t);
      AtAfter(p, i, s, t);
      c := EnteredIsReached(p, i, js[1..], t, k);
      c := c + 1;
    }
  }

  lemma GrewReaches(p: Program, i: nat, s: State, t: State, k: nat)
    requires Grew(p, i, s, t) && k in t.entered && k !in s.entered
    ensures Reaches(p, i, k)
  {
  }

  predicate Precedes(order: seq<nat>, i: nat, j: nat) { exists k, l :: 0 <= k < l < |order| && order[k] == i && order[l] == j }

  /** A module's imports are listed in their order: the one at a before the one
      at b, unless one up to a reaches that, or it was there already, or the one
      at a is being visited still. */
  lemma {:induction false} ImportsInOrder(p: Program, i: nat, s: State, a: nat, b: nat)
    requires i < |p.modules| && i !in s.entered && Kept(p, s) && At(p, s, i) && a < b < |Imports(p, i)|
    requires Imports(p, i)[b] !in s.entered && forall c :: 0 <= c <= a ==> !Reaches(p, Imports(p, i)[c], Imports(p, i)[b])
    ensures var js, t := Imports(p, i), Visited(p, i, s);
      js[b] in t.order && (js[a] in Open(s) || js[a] == i || Precedes(t.order, js[a], js[b]))
  {
    hide Kept, Grew, At, Imports, Visited, VisitedAll, Reaches, Open;
    var js, e := Imports(p, i), Enter(s, i);
    var first, rest := js[..a + 1], js[a + 1..];
    assert js == first + rest && first[a] == js[a] && rest[b - a - 1] == js[b];
    EnterKeeps(p, i, s);
    LeftLess(p, s, e);
    VisitAllKeeps(p, i, first, e);
    var m := VisitedAll(p, first, e);
    VisitAllKeeps(p, i, rest, m);
    VisitedTogether(p, first, rest, e);
    VisitKeeps(p, i, s);
    VisitedUnfolds(p, i, s);
    GrewFacts(p, i, m, VisitedAll(p, rest, m));
    GrewFacts(p, i, e, m);
    GrewFacts(p, i, s, Visited(p, i, s));
    if js[b] in m.entered && js[b] != i { var c := EnteredIsReached(p, i, first, e, js[b]); }
    ListedLater(p, i, s, m, Visited(p, i, s), js[a], js[b]);
  }

  lemma GrewFacts(p: Program, i: nat, s: State, t: State)
    requires Grew(p, i, s, t)
    ensures s.order <= t.order && Open(t) == Open(s) && s.entered <= t.entered + s.entered
  {
    hide Reaches;
  }

  lemma VisitedUnfolds(p: Program, i: nat, s: State)
    requires i < |p.modules| && i !in s.entered
    ensures Visited(p, i, s) == List(VisitedAll(p, Imports(p, i), Enter(s, i)), i)
  {
    hide Imports;
  }

  lemma ListedIsNotOpen(p: Program, m: State, y: nat)
    requires y in m.order
    ensures y !in Open(m) && (Kept(p, m) ==> y in m.entered)
  {
    hide Settled;
    var k :| 0 <= k < |m.order| && m.order[k] == y;
  }

  lemma {:induction false} ListedLater(p: Program, i: nat, s: State, m: State, t: State, x: nat, y: nat)
    requires Kept(p, m) && m.order <= t.order && Open(t) == Open(s)
    requires Open(m) == Open(s) + {i} && x in m.entered
    requires y in t.entered && y !in s.entered && (y in m.entered ==> y == i)
    ensures y in t.order && (x in Open(s) || x == i || Precedes(t.order, x, y))
  {
    hide Kept;
    assert y !in Open(t);
    var l :| 0 <= l < |t.order| && t.order[l] == y;
    if y in m.order { ListedIsNotOpen(p, m, y); }
    if x !in Open(s) && x != i {
      assert x !in Open(m);
      var k :| 0 <= k < |m.order| && m.order[k] == x;
      assert t.order[k] == x;
      assert m.order == t.order[..|m.order|];
    }
  }

  /** The entry's imports, in order, but for those that come with an earlier one. */
  lemma EntrysImportsInOrder(p: Program, a: nat, b: nat)
    requires p.entry < |p.modules| && a < b < |Imports(p, p.entry)|
    requires forall c :: 0 <= c <= a ==> !Reaches(p, Imports(p, p.entry)[c], Imports(p, p.entry)[b])
    ensures Imports(p, p.entry)[a] == p.entry || Precedes(Order(p), Imports(p, p.entry)[a], Imports(p, p.entry)[b])
  {
    hide Imports, Visited, Reaches;
    ImportsInOrder(p, p.entry, State({}, []), a, b);
  }

  // The walk as the program makes it.
  class Walk {
    const p: Program
    var visited: seq<bool>
    var order: seq<nat>

    ghost predicate Valid()
      reads this
    {
      |visited| == |p.modules|
    }

    ghost function Value(): State
      reads this
    {
      State((set i: nat | i < |visited| && visited[i]), order)
    }

    constructor (p: Program)
      ensures this.p == p && Valid() && Value() == State({}, [])
    {
      this.p := p;
      visited, order := seq(|p.modules|, _ => false), [];
    }

    method Visit(i: nat)
      requires Valid() && i < |p.modules|
      modifies this
      ensures Valid() && Value() == Visited(p, i, old(Value()))
      decreases Left(p, Value()), 1, 0
    {
      if visited[i] { return; }
      ghost var s := Value();
      visited := visited[i := true];
      assert Value() == Enter(s, i);
      LeftLess(p, s, Enter(s, i));
      var files := p.modules[i].imports;
      assert files[0..] == files;
      for k := 0 to |files|
        invariant Valid() && s.entered + {i} <= Value().entered
        invariant VisitedAll(p, Imports(p, i), Enter(s, i)) == VisitedAll(p, Resolve(p.modules, files[k..]), Value())
      {
        assert files[k..][0] == files[k] && files[k..][1..] == files[k + 1..];
        var j := Find(p.modules, files[k]);
        LeftLess(p, Enter(s, i), Value());
        if j.Some? { Visit(j.value); }
      }
      order := order + [i];
    }
  }

  /** EvaluationOrder. */
  method EvaluationOrder(p: Program) returns (order: seq<nat>)
    requires p.entry < |p.modules|
    ensures order == Order(p)
  {
    var walk := new Walk(p);
    walk.Visit(p.entry);
    order := walk.order;
  }
}
