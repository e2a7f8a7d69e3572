/** A run in which a replacement entry point is registered below its own top level, and is then
    freed while it is still registered.

    M is 2. Elements 0 to 4 lie at (1, 2), (4, 0), (1, 0), (5, 0) and (1, 5) in the plane, and all
    reach level 1. Each is linked at both levels with the neighbours the heuristic selects; the
    lists of elements 1 and 0 at level 1 are full when 3 and 4 arrive, and are selected anew. */
module DescentGap {
  import opened Wrappers
  import opened Descent
  import opened DescentRuns
  import LayerSpec
  import Selection

  ghost predicate Reached(s: State) {
    exists steps, trace :: Run(steps, trace) && trace[|steps|] == s
  }

  lemma Begins(s: State)
    requires Initial(s)
    ensures Reached(s)
  {
    assert Run([], [s]);
  }

  /** One more step of a run. */
  lemma Do(s: State, step: Step) returns (s': State)
    requires Reached(s) && Enabled(s, step)
    ensures Reached(s') && s' == Apply(s, step)
  {
    hide Enabled, Apply;
    s' := Apply(s, step);
    var steps, trace :| Run(steps, trace) && trace[|steps|] == s;
    Extends(steps, trace, step);
    assert (trace + [s'])[|steps + [step]|] == s';
  }

  function Solo(elems: map<Elem, Element>, edges: set<Edge>, entry: Option<Rec>, th: Thread): (s: State) {
    State(elems, edges, entry, map[0 := th])
  }

  function Idle(): (th: Thread) { Thread(Search, Done, Free, Free, {}, 0, {}, false, None, None, Free) }

  // ------------------------------------------------------------------------------------------
  // Inserting.

  function Inserter(n: Elem, pc: Pc, graph: Mode, mode: Mode, held: set<Level>, cur: Level, known: set<Rec>,
                    renew: bool, op: Option<Level>, opMode: Mode): (th: Thread) {
    Thread(Insert(n, 1), pc, graph, mode, held, cur, known, renew, None, op, opMode)
  }

  lemma FirstUpgrades() returns (s: State)
    ensures Reached(s)
    ensures s == Solo(map[0 := Element(1, 2, Inserting(0))], {}, None,
                      Inserter(0, Upgrading, Free, Free, {}, 0, {}, false, None, Free))
  {
    hide Reached;
    s := Solo(map[], {}, None, Idle());
    Begins(s);
    s := Do(s, Spawn(0, Insert(0, 1)));
    s := Do(s, LockGraph(0));
    s := Do(s, Upgrade(0));
  }

  lemma FirstStarts() returns (s: State)
    ensures Reached(s)
    ensures s == Solo(map[0 := Element(1, 2, Inserting(0))], {}, None,
                      Inserter(0, Walking, Exclusive, Shared, {1}, 1, {}, true, None, Free))
  {
    hide Reached;
    s := FirstUpgrades();
    s := Do(s, LockGraphExclusive(0));
    s := Do(s, LockFirst(0));
  }

  lemma FirstIsInserted() returns (s: State)
    ensures Reached(s)
    ensures s == Solo(map[0 := Element(1, 0, Live)], {}, Some(Rec(1, 0)), Idle())
  {
    hide Reached;
    s := FirstStarts();
    s := Do(s, CreateRecord(0));
    s := Do(s, Descend(0));
    s := Do(s, CreateRecord(0));
    s := Do(s, BeginLinking(0));
    s := Do(s, FinishInsert(0));
  }

  /** What an insert has met at level 1: the entry point, and element 1 if it has gone there. */
  function Met(far: bool): (k: set<Rec>) {
    if far then {Rec(1, 0), Rec(1, 1)} else {Rec(1, 0)}
  }

  function MetBelow(far: bool): (k: set<Rec>) {
    if far then {Rec(0, 0), Rec(0, 1)} else {Rec(0, 0)}
  }

  lemma Enters(elems: map<Elem, Element>, edges: set<Edge>, n: Elem) returns (s: State)
    requires Reached(Solo(elems, edges, Some(Rec(1, 0)), Idle())) && n !in elems
    ensures Reached(s)
    ensures s == Solo(elems[n := Element(1, 2, Inserting(0))], edges, Some(Rec(1, 0)),
                      Inserter(n, Ready, Shared, Free, {}, 0, {Rec(1, 0)}, false, None, Free))
  {
    hide Reached;
    s := Solo(elems, edges, Some(Rec(1, 0)), Idle());
    s := Do(s, Spawn(0, Insert(n, 1)));
    s := Do(s, LockGraph(0));
    s := Do(s, Proceed(0));
  }

  lemma Searches(elems: map<Elem, Element>, edges: set<Edge>, n: Elem, far: bool) returns (s: State)
    requires Reached(Solo(elems, edges, Some(Rec(1, 0)), Idle())) && n !in elems && (far ==> Edge(1, 0, 1) in edges)
    ensures Reached(s)
    ensures s == Solo(elems[n := Element(1, 2, Inserting(0))], edges, Some(Rec(1, 0)),
                      Inserter(n, Walking, Shared, Shared, {1}, 1, Met(far), false, None, Free))
  {
    hide Reached;
    s := Enters(elems, edges, n);
    s := Do(s, LockFirst(0));
    if far {
      s := Do(s, Follow(0, Edge(1, 0, 1)));
      assert s.threads[0].known == Met(far);
    }
  }

  lemma CreatesTop(elems: map<Elem, Element>, edges: set<Edge>, n: Elem, far: bool) returns (s: State)
    requires Reached(Solo(elems, edges, Some(Rec(1, 0)), Idle())) && n !in elems && (far ==> Edge(1, 0, 1) in edges)
    ensures Reached(s)
    ensures s == Solo(elems[n := Element(1, 1, Inserting(0))], edges, Some(Rec(1, 0)),
                      Inserter(n, Walking, Shared, Shared, {1}, 1, Met(far) + {Rec(1, n)}, false, None, Free))
  {
    hide Reached, Met;
    s := Searches(elems, edges, n, far);
    s := Do(s, CreateRecord(0));
    assert s.elems == elems[n := Element(1, 1, Inserting(0))];
  }

  lemma Creates(elems: map<Elem, Element>, edges: set<Edge>, n: Elem, far: bool) returns (s: State)
    requires Reached(Solo(elems, edges, Some(Rec(1, 0)), Idle())) && n !in elems && 0 in elems
    requires far ==> 1 in elems && Edge(1, 0, 1) in edges
    ensures Reached(s)
    ensures s == Solo(elems[n := Element(1, 1, Inserting(0))], edges, Some(Rec(1, 0)),
                      Inserter(n, Walking, Shared, Shared, {1}, 1, Met(far) + {Rec(1, n)} + MetBelow(far), false, None,
                               Free))
  {
    hide Reached;
    s := CreatesTop(elems, edges, n, far);
    s := Do(s, Advance(0, 0));
    if far {
      s := Do(s, Advance(0, 1));
    }
    assert s.threads[0].known == Met(far) + {Rec(1, n)} + MetBelow(far);
  }

  /** Everything it knows once it has created its records. */
  function Known(n: Elem, far: bool): (k: set<Rec>) {
    Met(far) + {Rec(1, n)} + MetBelow(far) + {Rec(0, n)}
  }

  function Linker(n: Elem, far: bool, op: Option<Level>, opMode: Mode): (th: Thread) {
    Inserter(n, Linking, Shared, Shared, {0, 1}, 0, Known(n, far), false, op, opMode)
  }

  lemma CreatesBelow(elems: map<Elem, Element>, edges: set<Edge>, n: Elem, far: bool) returns (s: State)
    requires Reached(Solo(elems, edges, Some(Rec(1, 0)), Idle())) && n !in elems && 0 in elems
    requires far ==> 1 in elems && Edge(1, 0, 1) in edges
    ensures Reached(s)
    ensures s == Solo(elems[n := Element(1, 0, Inserting(0))], edges, Some(Rec(1, 0)),
                      Inserter(n, Walking, Shared, Shared, {0, 1}, 0, Known(n, far), false, None, Free))
  {
    hide Reached, Met, MetBelow;
    s := Creates(elems, edges, n, far);
    s := Do(s, Descend(0));
    assert s.threads[0].held == {0, 1};
    s := Do(s, CreateRecord(0));
    assert s.elems == elems[n := Element(1, 0, Inserting(0))];
  }

  lemma BeginsToLink(elems: map<Elem, Element>, edges: set<Edge>, n: Elem, far: bool) returns (s: State)
    requires Reached(Solo(elems, edges, Some(Rec(1, 0)), Idle())) && n !in elems && 0 in elems
    requires far ==> 1 in elems && Edge(1, 0, 1) in edges
    ensures Reached(s)
    ensures s == Solo(elems[n := Element(1, 0, Inserting(0))], edges, Some(Rec(1, 0)), Linker(n, far, None, Free))
  {
    hide Reached, Known;
    s := CreatesBelow(elems, edges, n, far);
    s := Do(s, BeginLinking(0));
  }

  /** Both ends are known. */
  predicate Linkable(n: Elem, far: bool, add: set<Edge>, l: Level) {
    forall x :: x in add ==> x.level == l && Rec(l, x.from) in Known(n, far) && Rec(l, x.to) in Known(n, far)
  }

  lemma {:induction false} AddsAll(elems: map<Elem, Element>, edges: set<Edge>, n: Elem, far: bool, l: Level,
                                   mode: Mode, add: set<Edge>) returns (s: State)
    requires Reached(Solo(elems, edges, Some(Rec(1, 0)), Linker(n, far, Some(l), mode)))
    requires l <= 1 && Linkable(n, far, add, l)
    ensures Reached(s) && s == Solo(elems, edges + add, Some(Rec(1, 0)), Linker(n, far, Some(l), mode))
    decreases |add|
  {
    hide Reached, Known;
    s := Solo(elems, edges, Some(Rec(1, 0)), Linker(n, far, Some(l), mode));
    if add == {} {
      assert edges + add == edges;
    } else {
      var x :| x in add;
      s := Do(s, AddEdge(0, x));
      s := AddsAll(elems, edges + {x}, n, far, l, mode, add - {x});
      assert edges + {x} + (add - {x}) == edges + add;
    }
  }

  /** One operation at level l that adds links. */
  lemma Operates(elems: map<Elem, Element>, edges: set<Edge>, n: Elem, far: bool, l: Level, add: set<Edge>)
    returns (s: State)
    requires Reached(Solo(elems, edges, Some(Rec(1, 0)), Linker(n, far, None, Free)))
    requires l <= 1 && Linkable(n, far, add, l)
    ensures Reached(s) && s == Solo(elems, edges + add, Some(Rec(1, 0)), Linker(n, far, None, Free))
  {
    hide Reached, Known;
    s := Solo(elems, edges, Some(Rec(1, 0)), Linker(n, far, None, Free));
    s := Do(s, BeginOp(0, l, Shared));
    assert s == Solo(elems, edges, Some(Rec(1, 0)), Linker(n, far, Some(l), Shared));
    s := AddsAll(elems, edges, n, far, l, Shared, add);
    s := Do(s, EndOp(0));
  }

  /** A full list is selected anew: one link goes, the link to n comes. */
  lemma Reselects(elems: map<Elem, Element>, edges: set<Edge>, n: Elem, far: bool, cut: Edge, add: Edge)
    returns (s: State)
    requires Reached(Solo(elems, edges, Some(Rec(1, 0)), Linker(n, far, None, Free)))
    requires cut.level == 1 && Linkable(n, far, {add}, 1)
    ensures Reached(s) && s == Solo(elems, edges - {cut} + {add}, Some(Rec(1, 0)), Linker(n, far, None, Free))
  {
    hide Reached, Known, Linkable;
    s := Solo(elems, edges, Some(Rec(1, 0)), Linker(n, far, None, Free));
    s := Do(s, BeginOp(0, 1, Exclusive));
    s := Do(s, DeleteEdge(0, cut));
    assert s == Solo(elems, edges - {cut}, Some(Rec(1, 0)), Linker(n, far, Some(1), Exclusive));
    s := AddsAll(elems, edges - {cut}, n, far, 1, Exclusive, {add});
    s := Do(s, EndOp(0));
  }

  lemma Finishes(elems: map<Elem, Element>, edges: set<Edge>, n: Elem, far: bool) returns (s: State)
    requires n !in elems
    requires Reached(Solo(elems[n := Element(1, 0, Inserting(0))], edges, Some(Rec(1, 0)), Linker(n, far, None, Free)))
    ensures Reached(s) && s == Solo(elems[n := Element(1, 0, Live)], edges, Some(Rec(1, 0)), Idle())
  {
    hide Reached, Known;
    s := Do(Solo(elems[n := Element(1, 0, Inserting(0))], edges, Some(Rec(1, 0)), Linker(n, far, None, Free)),
            FinishInsert(0));
    assert s.elems == elems[n := Element(1, 0, Live)];
  }

  /** Linked both ways at both levels, as far as the others' lists have room. */
  lemma Links(elems: map<Elem, Element>, edges: set<Edge>, n: Elem, far: bool, below: set<Edge>, above: set<Edge>)
    returns (s: State)
    requires Reached(Solo(elems, edges, Some(Rec(1, 0)), Idle())) && n !in elems && 0 in elems
    requires far ==> 1 in elems && Edge(1, 0, 1) in edges
    requires Linkable(n, far, below, 0) && Linkable(n, far, above, 1)
    ensures Reached(s)
    ensures s == Solo(elems[n := Element(1, 0, Inserting(0))], edges + below + above, Some(Rec(1, 0)),
                      Linker(n, far, None, Free))
  {
    hide Reached, Known, Linkable, Linker;
    s := BeginsToLink(elems, edges, n, far);
    s := Operates(elems[n := Element(1, 0, Inserting(0))], edges, n, far, 0, below);
    s := Operates(elems[n := Element(1, 0, Inserting(0))], edges + below, n, far, 1, above);
  }

  lemma Inserts(elems: map<Elem, Element>, edges: set<Edge>, n: Elem, far: bool, below: set<Edge>, above: set<Edge>)
    returns (s: State)
    requires Reached(Solo(elems, edges, Some(Rec(1, 0)), Idle())) && n !in elems && 0 in elems
    requires far ==> 1 in elems && Edge(1, 0, 1) in edges
    requires Linkable(n, far, below, 0) && Linkable(n, far, above, 1)
    ensures Reached(s)
    ensures s == Solo(elems[n := Element(1, 0, Live)], edges + below + above, Some(Rec(1, 0)), Idle())
  {
    hide Reached, Known, Linkable, Linker;
    s := Links(elems, edges, n, far, below, above);
    s := Finishes(elems, edges + below + above, n, far);
  }

  lemma InsertsReselecting(elems: map<Elem, Element>, edges: set<Edge>, n: Elem, far: bool, below: set<Edge>,
                           above: set<Edge>,
                           cut: Edge, turn: Edge) returns (s: State)
    requires Reached(Solo(elems, edges, Some(Rec(1, 0)), Idle())) && n !in elems && 0 in elems
    requires far ==> 1 in elems && Edge(1, 0, 1) in edges
    requires Linkable(n, far, below, 0) && Linkable(n, far, above, 1) && Linkable(n, far, {turn}, 1) && cut.level == 1
    ensures Reached(s)
    ensures s == Solo(elems[n := Element(1, 0, Live)], edges + below + above - {cut} + {turn}, Some(Rec(1, 0)), Idle())
  {
    hide Reached, Known, Linkable, Linker;
    s := Links(elems, edges, n, far, below, above);
    s := Reselects(elems[n := Element(1, 0, Inserting(0))], edges + below + above, n, far, cut, turn);
    s := Finishes(elems, edges + below + above - {cut} + {turn}, n, far);
  }

  // ------------------------------------------------------------------------------------------
  // Five elements.

  function Present(es: set<Elem>): (m: map<Elem, Element>) {
    map e | e in es :: Element(1, 0, Live)
  }

  lemma OneMore(es: set<Elem>, n: Elem)
    ensures Present(es)[n := Element(1, 0, Live)] == Present(es + {n})
  {
  }

  /** The links at both levels while 0, 1 and 2 are the only elements. */
  function Triangle(): (x: set<Edge>) {
    {Edge(0, 1, 0), Edge(0, 0, 1), Edge(1, 1, 0), Edge(1, 0, 1),
     Edge(0, 2, 0), Edge(0, 2, 1), Edge(0, 0, 2), Edge(0, 1, 2),
     Edge(1, 2, 0), Edge(1, 2, 1), Edge(1, 0, 2), Edge(1, 1, 2)}
  }

  lemma SecondIsInserted() returns (s: State)
    ensures Reached(s)
    ensures s == Solo(Present({0, 1}), {Edge(0, 1, 0), Edge(0, 0, 1), Edge(1, 1, 0), Edge(1, 0, 1)}, Some(Rec(1, 0)),
                      Idle())
  {
    hide Reached;
    s := FirstIsInserted();
    s := Inserts(map[0 := Element(1, 0, Live)], {}, 1, false, {Edge(0, 1, 0), Edge(0, 0, 1)},
                 {Edge(1, 1, 0), Edge(1, 0, 1)});
  }

  lemma ThirdIsInserted() returns (s: State)
    ensures Reached(s) && s == Solo(Present({0, 1, 2}), Triangle(), Some(Rec(1, 0)), Idle())
  {
    hide Reached;
    s := SecondIsInserted();
    OneMore({0, 1}, 2);
    s := Inserts(Present({0, 1}), s.edges, 2, true,
                 {Edge(0, 2, 0), Edge(0, 2, 1), Edge(0, 0, 2), Edge(0, 1, 2)},
                 {Edge(1, 2, 0), Edge(1, 2, 1), Edge(1, 0, 2), Edge(1, 1, 2)});
  }

  /** Element 3 takes the place of 0 in the list of 1 at level 1. */
  lemma FourthIsInserted() returns (s: State)
    ensures Reached(s)
    ensures s == Solo(Present({0, 1, 2, 3}),
                      Triangle() + {Edge(0, 3, 1), Edge(0, 1, 3)} + {Edge(1, 3, 1)} - {Edge(1, 1, 0)} + {Edge(1, 1, 3)},
                      Some(Rec(1, 0)), Idle())
  {
    hide Reached;
    s := ThirdIsInserted();
    OneMore({0, 1, 2}, 3);
    s := InsertsReselecting(Present({0, 1, 2}), Triangle(), 3, true, {Edge(0, 3, 1), Edge(0, 1, 3)}, {Edge(1, 3, 1)},
                            Edge(1, 1, 0), Edge(1, 1, 3));
  }

  /** The links of all five: element 4 has taken the place of 1 in the list of 0 at level 1. */
  function Full(): (x: set<Edge>) {
    {Edge(0, 1, 0), Edge(0, 0, 1), Edge(0, 2, 0), Edge(0, 2, 1), Edge(0, 0, 2), Edge(0, 1, 2),
     Edge(0, 3, 1), Edge(0, 1, 3), Edge(0, 4, 0), Edge(0, 0, 4),
     Edge(1, 2, 0), Edge(1, 2, 1), Edge(1, 0, 2), Edge(1, 1, 2),
     Edge(1, 3, 1), Edge(1, 1, 3), Edge(1, 4, 0), Edge(1, 0, 4)}
  }

  lemma FifthIsInserted() returns (s: State)
    ensures Reached(s) && s == Solo(Present({0, 1, 2, 3, 4}), Full(), Some(Rec(1, 0)), Idle())
  {
    hide Reached;
    s := FourthIsInserted();
    OneMore({0, 1, 2, 3}, 4);
    s := InsertsReselecting(Present({0, 1, 2, 3}), s.edges, 4, false, {Edge(0, 4, 0), Edge(0, 0, 4)}, {Edge(1, 4, 0)},
                            Edge(1, 0, 1), Edge(1, 0, 4));
    FullAtLast();
  }

  lemma FullAtLast()
    ensures Triangle() + {Edge(0, 3, 1), Edge(0, 1, 3)} + {Edge(1, 3, 1)} - {Edge(1, 1, 0)} + {Edge(1, 1, 3)} +
            {Edge(0, 4, 0), Edge(0, 0, 4)} + {Edge(1, 4, 0)} - {Edge(1, 0, 1)} + {Edge(1, 0, 4)} == Full()
  {
  }

  // ------------------------------------------------------------------------------------------
  // Removing.

  function Remover(e: Elem, pc: Pc, graph: Mode, mode: Mode, held: set<Level>, cur: Level, known: set<Rec>,
                   renew: bool, spare: Option<Rec>): (th: Thread) {
    Thread(Remove(e), pc, graph, mode, held, cur, known, renew, spare, None, Free)
  }

  /** Ready to remove e, which is not registered at its top level. */
  lemma TakesOther(elems: map<Elem, Element>, edges: set<Edge>, entry: Option<Rec>, e: Elem) returns (s: State)
    requires Reached(Solo(elems, edges, entry, Idle()))
    requires e in elems && elems[e] == Element(1, 0, Live) && entry != Some(Rec(1, e))
    ensures Reached(s)
    ensures s == Solo(elems[e := Element(1, 0, Removing(0, 2))], edges, entry,
                      Remover(e, Ready, Shared, Free, {}, 0, {}, false, None))
  {
    hide Reached;
    s := Solo(elems, edges, entry, Idle());
    s := Do(s, Spawn(0, Remove(e)));
    s := Do(s, LockGraph(0));
    s := Do(s, Proceed(0));
  }

  lemma TakesEntry(elems: map<Elem, Element>, edges: set<Edge>, e: Elem) returns (s: State)
    requires Reached(Solo(elems, edges, Some(Rec(1, e)), Idle()))
    requires e in elems && elems[e] == Element(1, 0, Live)
    ensures Reached(s)
    ensures s == Solo(elems[e := Element(1, 0, Removing(0, 2))], edges, Some(Rec(1, e)),
                      Remover(e, Ready, Exclusive, Free, {}, 0, {}, true, None))
  {
    hide Reached;
    s := Solo(elems, edges, Some(Rec(1, e)), Idle());
    s := Do(s, Spawn(0, Remove(e)));
    s := Do(s, LockGraph(0));
    s := Do(s, Upgrade(0));
    s := Do(s, LockGraphExclusive(0));
  }

  /** What is linked with e at level l. */
  function Around(edges: set<Edge>, l: Level, e: Elem): (n: set<Rec>) {
    Neighbourhood(State(map[], edges, None, map[]), l, e)
  }

  /** The links that do not touch e at level l. */
  function Minus(edges: set<Edge>, l: Level, e: Elem): (x: set<Edge>) {
    set x | x in edges && !(x.level == l && (x.from == e || x.to == e))
  }

  /** A spare taken from `around`, if it has any, unless there is one already. */
  predicate SpareFrom(spare: Option<Rec>, around: set<Rec>, spare': Option<Rec>) {
    if spare.Some? then spare' == spare
    else if around == {} then spare'.None?
    else spare'.Some? && spare'.value in around
  }

  lemma UnlinkChanges(s: State, spare: Option<Elem>)
    requires Enabled(s, Unlink(0, spare))
    ensures Apply(s, Unlink(0, spare)).edges == Minus(s.edges, s.threads[0].cur, s.threads[0].job.elem)
  {
  }

  lemma SameNeighbours(s: State, l: Level, e: Elem)
    ensures Neighbourhood(s, l, e) == Around(s.edges, l, e)
  {
  }

  lemma UnlinksWith(elems: map<Elem, Element>, edges: set<Edge>, entry: Option<Rec>, e: Elem, graph: Mode, renew: bool,
                    l: Level, spare: Option<Rec>, found: Option<Elem>) returns (s: State)
    requires Reached(Solo(elems[e := Element(1, 0, Removing(0, l + 1))], edges, entry,
                          Remover(e, Walking, graph, Exclusive, {l}, l, {}, renew, spare)))
    requires if found.Some? then Rec(l, found.value) in Around(edges, l, e) else Around(edges, l, e) == {}
    ensures Reached(s)
    ensures s == Solo(elems[e := Element(1, 0, Removing(0, l))], Minus(edges, l, e), entry,
                      Remover(e, Walking, graph, Exclusive, {l}, l, Around(edges, l, e), renew,
                              if spare.None? && found.Some? then Some(Rec(l, found.value)) else spare))
  {
    hide Reached, Neighbourhood, Minus, Around;
    s := Solo(elems[e := Element(1, 0, Removing(0, l + 1))], edges, entry,
              Remover(e, Walking, graph, Exclusive, {l}, l, {}, renew, spare));
    SameNeighbours(s, l, e);
    UnlinkChanges(s, found);
    s := Do(s, Unlink(0, found));
    assert s.elems == elems[e := Element(1, 0, Removing(0, l))];
    assert s.threads[0].known == Around(edges, l, e);
  }

  lemma UnlinksLevel(elems: map<Elem, Element>, edges: set<Edge>, entry: Option<Rec>, e: Elem, graph: Mode, renew: bool,
                     l: Level, spare: Option<Rec>) returns (s: State, spare': Option<Rec>)
    requires Reached(Solo(elems[e := Element(1, 0, Removing(0, l + 1))], edges, entry,
                          Remover(e, Walking, graph, Exclusive, {l}, l, {}, renew, spare)))
    ensures Reached(s) && SpareFrom(spare, Around(edges, l, e), spare')
    ensures s == Solo(elems[e := Element(1, 0, Removing(0, l))], Minus(edges, l, e), entry,
                      Remover(e, Walking, graph, Exclusive, {l}, l, Around(edges, l, e), renew, spare'))
  {
    hide Reached, Minus, Around;
    var found: Option<Elem> := None;
    if r :| r in Around(edges, l, e) {
      AroundAtLevel(edges, l, e, r);
      found := Some(r.elem);
    }
    s := UnlinksWith(elems, edges, entry, e, graph, renew, l, spare, found);
    spare' := s.threads[0].spare;
  }

  lemma AroundAtLevel(edges: set<Edge>, l: Level, e: Elem, r: Rec)
    requires r in Around(edges, l, e)
    ensures r == Rec(l, r.elem)
  {
  }

  lemma LocksTop(elems: map<Elem, Element>, edges: set<Edge>, entry: Option<Rec>, e: Elem, graph: Mode, renew: bool)
    returns (s: State)
    requires Reached(Solo(elems[e := Element(1, 0, Removing(0, 2))], edges, entry,
                          Remover(e, Ready, graph, Free, {}, 0, {}, renew, None)))
    ensures Reached(s)
    ensures s == Solo(elems[e := Element(1, 0, Removing(0, 2))], edges, entry,
                      Remover(e, Walking, graph, Exclusive, {1}, 1, {}, renew, None))
  {
    hide Reached;
    s := Do(Solo(elems[e := Element(1, 0, Removing(0, 2))], edges, entry,
                 Remover(e, Ready, graph, Free, {}, 0, {}, renew, None)),
            LockFirst(0));
  }

  lemma UnlinksTop(elems: map<Elem, Element>, edges: set<Edge>, entry: Option<Rec>, e: Elem, graph: Mode, renew: bool)
    returns (s: State, spare: Option<Rec>)
    requires Reached(Solo(elems[e := Element(1, 0, Removing(0, 2))], edges, entry,
                          Remover(e, Ready, graph, Free, {}, 0, {}, renew, None)))
    ensures Reached(s) && SpareFrom(None, Around(edges, 1, e), spare)
    ensures s == Solo(elems[e := Element(1, 0, Removing(0, 1))], Minus(edges, 1, e), entry,
                      Remover(e, Walking, graph, Exclusive, {0}, 0, {}, renew, spare))
  {
    hide Reached, Around, Minus, SpareFrom;
    s := LocksTop(elems, edges, entry, e, graph, renew);
    assert s == Solo(elems[e := Element(1, 0, Removing(0, 1 + 1))], edges, entry,
                     Remover(e, Walking, graph, Exclusive, {1}, 1, {}, renew, None));
    s, spare := UnlinksLevel(elems, edges, entry, e, graph, renew, 1, None);
    s := Do(s, Descend(0));
    NothingLeftKnown(edges, e);
    assert s.threads[0].held == {0};
  }

  lemma NothingLeftKnown(edges: set<Edge>, e: Elem)
    ensures Without(Around(edges, 1, e), 1) == {}
  {
  }

  lemma UnlinksBoth(elems: map<Elem, Element>, edges: set<Edge>, entry: Option<Rec>, e: Elem, graph: Mode, renew: bool)
    returns (s: State, spare: Option<Rec>)
    requires Reached(Solo(elems[e := Element(1, 0, Removing(0, 2))], edges, entry,
                          Remover(e, Ready, graph, Free, {}, 0, {}, renew, None)))
    ensures Reached(s)
    ensures Around(edges, 1, e) == {} ==> SpareFrom(None, Around(Minus(edges, 1, e), 0, e), spare)
    ensures s == Solo(elems[e := Element(1, 0, Removing(0, 0))], Minus(Minus(edges, 1, e), 0, e), entry,
                      Remover(e, Between, graph, Free, {}, 0, {}, renew, spare))
  {
    hide Reached, Around, Minus;
    s, spare := UnlinksTop(elems, edges, entry, e, graph, renew);
    s, spare := UnlinksLevel(elems, Minus(edges, 1, e), entry, e, graph, renew, 0, spare);
    s := Do(s, FinishPhase1(0));
  }

  lemma Relocks(elems: map<Elem, Element>, edges: set<Edge>, entry: Option<Rec>, e: Elem, graph: Mode, renew: bool,
                spare: Option<Rec>) returns (s: State)
    requires Reached(Solo(elems[e := Element(1, 0, Removing(0, 0))], edges, entry,
                          Remover(e, Between, graph, Free, {}, 0, {}, renew, spare)))
    ensures Reached(s)
    ensures s == Solo(elems[e := Element(1, 0, Removing(0, 0))], edges, entry,
                      Remover(e, Dropping, graph, Shared, {0, 1}, 0, {}, renew, spare))
  {
    hide Reached;
    s := Solo(elems[e := Element(1, 0, Removing(0, 0))], edges, entry,
              Remover(e, Between, graph, Free, {}, 0, {}, renew, spare));
    s := Do(s, Relock(0));
    s := Do(s, Relock(0));
    assert s.threads[0].held == {0, 1};
  }

  /** Both records are dropped. */
  lemma Drops(elems: map<Elem, Element>, edges: set<Edge>, entry: Option<Rec>, e: Elem, graph: Mode, renew: bool,
              spare: Option<Rec>) returns (s: State)
    requires Reached(Solo(elems[e := Element(1, 0, Removing(0, 0))], edges, entry,
                          Remover(e, Between, graph, Free, {}, 0, {}, renew, spare)))
    ensures Reached(s)
    ensures s == Solo(elems[e := Element(1, 2, Removing(0, 0))], edges, entry,
                      Remover(e, Dropping, graph, Shared, {0, 1}, 0, {}, renew, spare))
  {
    hide Reached;
    s := Relocks(elems, edges, entry, e, graph, renew, spare);
    s := Do(s, Drop(0));
    s := Do(s, Drop(0));
    assert s.elems == elems[e := Element(1, 2, Removing(0, 0))];
  }

  lemma EndsRemoval(elems: map<Elem, Element>, edges: set<Edge>, entry: Option<Rec>, e: Elem, graph: Mode, renew: bool,
                    spare: Option<Rec>) returns (s: State)
    requires Reached(Solo(elems[e := Element(1, 0, Removing(0, 0))], edges, entry,
                          Remover(e, Between, graph, Free, {}, 0, {}, renew, spare)))
    ensures Reached(s) && s == Solo(elems - {e}, edges, if renew then spare else entry, Idle())
  {
    hide Reached;
    s := Drops(elems, edges, entry, e, graph, renew, spare);
    s := Do(s, FinishRemove(0));
    assert s.elems == elems - {e};
  }

  /** The removal of an element that is not registered at its top level, with no orphan repaired. */
  lemma RemovesOther(elems: map<Elem, Element>, edges: set<Edge>, entry: Option<Rec>, e: Elem) returns (s: State)
    requires Reached(Solo(elems, edges, entry, Idle()))
    requires e in elems && elems[e] == Element(1, 0, Live) && entry != Some(Rec(1, e))
    ensures Reached(s) && s == Solo(elems - {e}, Minus(Minus(edges, 1, e), 0, e), entry, Idle())
  {
    hide Reached, Minus, Around, SpareFrom;
    s := TakesOther(elems, edges, entry, e);
    var spare;
    s, spare := UnlinksBoth(elems, edges, entry, e, Shared, false);
    s := EndsRemoval(elems, Minus(Minus(edges, 1, e), 0, e), entry, e, Shared, false, spare);
  }

  /** The removal of the entry point, which has no neighbour at level 1 and one, r, at level 0. */
  lemma RemovesEntry(elems: map<Elem, Element>, edges: set<Edge>, e: Elem, r: Rec) returns (s: State)
    requires Reached(Solo(elems, edges, Some(Rec(1, e)), Idle()))
    requires e in elems && elems[e] == Element(1, 0, Live)
    requires Around(edges, 1, e) == {} && Around(Minus(edges, 1, e), 0, e) == {r}
    ensures Reached(s) && s == Solo(elems - {e}, Minus(Minus(edges, 1, e), 0, e), Some(r), Idle())
  {
    hide Reached, Minus, Around;
    s := TakesEntry(elems, edges, e);
    var spare;
    s, spare := UnlinksBoth(elems, edges, Some(Rec(1, e)), e, Exclusive, true);
    s := EndsRemoval(elems, Minus(Minus(edges, 1, e), 0, e), Some(Rec(1, e)), e, Exclusive, true, spare);
  }

  // ------------------------------------------------------------------------------------------
  // The run.

  lemma OneLess(es: set<Elem>, e: Elem)
    ensures Present(es) - {e} == Present(es - {e})
  {
  }

  /** What 0, 1, 3 and 4 are left with: 0 and 1 are linked at level 0 only. */
  function Split(): (x: set<Edge>) {
    {Edge(0, 1, 0), Edge(0, 0, 1), Edge(0, 3, 1), Edge(0, 1, 3), Edge(0, 4, 0), Edge(0, 0, 4),
     Edge(1, 3, 1), Edge(1, 1, 3), Edge(1, 4, 0), Edge(1, 0, 4)}
  }

  /** What 0, 1 and 3 are left with: 0 has no neighbour at level 1. */
  function Apart(): (x: set<Edge>) {
    {Edge(0, 1, 0), Edge(0, 0, 1), Edge(0, 3, 1), Edge(0, 1, 3), Edge(1, 3, 1), Edge(1, 1, 3)}
  }

  lemma SplitOff()
    ensures Minus(Minus(Full(), 1, 2), 0, 2) == Split() && Minus(Minus(Split(), 1, 4), 0, 4) == Apart()
  {
  }

  lemma FirstIsApart()
    ensures Around(Apart(), 1, 0) == {} && Around(Minus(Apart(), 1, 0), 0, 0) == {Rec(0, 1)}
  {
  }

  lemma TwoAreRemoved() returns (s: State)
    ensures Reached(s) && s == Solo(Present({0, 1, 3}), Apart(), Some(Rec(1, 0)), Idle())
  {
    hide Reached, Full, Minus, Split, Apart;
    s := FifthIsInserted();
    s := RemovesOther(Present({0, 1, 2, 3, 4}), Full(), Some(Rec(1, 0)), 2);
    OneLess({0, 1, 2, 3, 4}, 2);
    assert {0, 1, 2, 3, 4} - {2} == {0, 1, 3, 4};
    SplitOff();
    s := RemovesOther(Present({0, 1, 3, 4}), Split(), Some(Rec(1, 0)), 4);
    OneLess({0, 1, 3, 4}, 4);
    assert {0, 1, 3, 4} - {4} == {0, 1, 3};
  }

  /** Element 0 had no neighbour left at level 1, so element 1 is registered at level 0, below its top. */
  lemma RegisteredLow() returns (s: State)
    ensures Reached(s) && s.elems == Present({1, 3}) && s.entry == Some(Rec(0, 1)) &&
            s == Solo(s.elems, s.edges, s.entry, Idle())
  {
    hide Reached, Minus, Around, Apart;
    s := TwoAreRemoved();
    FirstIsApart();
    s := RemovesEntry(Present({0, 1, 3}), Apart(), 0, Rec(0, 1));
    OneLess({0, 1, 3}, 0);
    assert {0, 1, 3} - {0} == {1, 3};
  }

  /** The run goes on to remove element 1, and ends, all threads at rest, with an entry point whose
      records have been freed and with element 3 still in the index. */
  lemma RegisteredEntryCanBeFreed()
    ensures exists s :: Reached(s) && s.entry.Some? && s.entry.value.elem !in s.elems && 3 in s.elems &&
                        forall t :: t in s.threads ==> s.threads[t].pc.Done?
  {
    hide Reached;
    var s := RegisteredLow();
    s := RemovesOther(s.elems, s.edges, s.entry, 1);
  }

  // ------------------------------------------------------------------------------------------
  // The links of the run are those the heuristic selects.

  function Place(k: nat): (p: (int, int)) {
    if k == 0 then (1, 2) else if k == 1 then (4, 0) else if k == 2 then (1, 0) else if k == 3 then (5, 0) else (1, 5)
  }

  /** The squared distance, which orders pairs as the distance does. */
  function Apartness(a: nat, b: nat): (d: real) {
    var (x, y), (x', y') := Place(a), Place(b);
    ((x - x') * (x - x') + (y - y') * (y - y')) as real
  }

  function Plane(): (g: LayerSpec.Layer) {
    LayerSpec.Layer(map[], map p: (nat, nat) | p in Pairs() :: Apartness(p.0, p.1), {})
  }

  function Pairs(): (ps: set<(nat, nat)>) {
    set a: nat, b: nat | a <= 4 && b <= 4 :: (a, b)
  }

  lemma PlaneIs(a: nat, b: nat)
    requires a <= 4 && b <= 4
    ensures Plane().Between(a, b) == Apartness(a, b)
  {
    assert (a, b) in Pairs();
  }

  /** The candidates ns, as the query node q sees them. */
  function Taken(q: nat, ns: seq<nat>): (order: seq<Selection.Candidate>)
    ensures |order| == |ns|
  {
    seq(|ns|, i requires 0 <= i < |ns| => Selection.Candidate(ns[i], Apartness(q, ns[i])))
  }

  function Selected(q: nat, ns: seq<nat>): (chosen: seq<nat>) {
    Selection.Chosen(Plane(), Taken(q, ns), 2)
  }

  lemma TakesOneMore(q: nat, ns: seq<nat>, n: nat)
    ensures Taken(q, ns + [n]) == Taken(q, ns) + [Selection.Candidate(n, Apartness(q, n))]
  {
  }

  lemma SelectsNone(q: nat)
    ensures Selected(q, []) == []
  {
  }

  /** Candidate n is turned down because it is nearer to the first one selected than to q. */
  lemma SkipsNext(q: nat, ns: seq<nat>, n: nat)
    requires n <= 4 && |Selected(q, ns)| == 1 && Selected(q, ns)[0] <= 4 &&
             Apartness(n, Selected(q, ns)[0]) < Apartness(q, n)
    ensures Selected(q, ns + [n]) == Selected(q, ns)
  {
    hide Taken, Plane, Apartness;
    TakesOneMore(q, ns, n);
    PlaneIs(n, Selected(q, ns)[0]);
    Selection.TakeNext(Plane(), Taken(q, ns), Selection.Candidate(n, Apartness(q, n)), 2);
  }

  lemma SelectsNext(q: nat, ns: seq<nat>, n: nat)
    requires n <= 4 && |Selected(q, ns)| <= 1
    requires |Selected(q, ns)| == 1 ==> Selected(q, ns)[0] <= 4 && Apartness(n, Selected(q, ns)[0]) >= Apartness(q, n)
    ensures Selected(q, ns + [n]) == Selected(q, ns) + [n]
  {
    hide Taken, Plane, Apartness;
    TakesOneMore(q, ns, n);
    if |Selected(q, ns)| == 1 {
      PlaneIs(n, Selected(q, ns)[0]);
    }
    Selection.TakeNext(Plane(), Taken(q, ns), Selection.Candidate(n, Apartness(q, n)), 2);
  }

  /** Once M are selected no other is. */
  lemma StopsFull(q: nat, ns: seq<nat>, n: nat)
    requires |Selected(q, ns)| == 2
    ensures Selected(q, ns + [n]) == Selected(q, ns)
  {
    hide Taken, Plane, Apartness;
    TakesOneMore(q, ns, n);
    var e := Selection.Candidate(n, Apartness(q, n));
    assert (Taken(q, ns) + [e])[..|Taken(q, ns)|] == Taken(q, ns);
  }

  lemma SelectsFirst(q: nat, n: nat)
    requires n <= 4
    ensures Selected(q, [n]) == [n]
  {
    SelectsNone(q);
    SelectsNext(q, [], n);
    assert [] + [n] == [n];
  }

  lemma SelectsTwo(q: nat, n: nat, m: nat)
    requires n <= 4 && m <= 4 && Apartness(m, n) >= Apartness(q, m)
    ensures Selected(q, [n, m]) == [n, m]
  {
    SelectsFirst(q, n);
    SelectsNext(q, [n], m);
    assert [n] + [m] == [n, m];
  }

  lemma ThreeSelects()
    ensures Selected(3, [1, 2, 0]) == [1]
  {
    hide Selected;
    SelectsFirst(3, 1);
    SkipsNext(3, [1], 2);
    SkipsNext(3, [1] + [2], 0);
    assert [1] + [2] + [0] == [1, 2, 0];
  }

  lemma FourSelects()
    ensures Selected(4, [0, 2, 1, 3]) == [0]
  {
    hide Selected;
    SelectsFirst(4, 0);
    SkipsNext(4, [0], 2);
    SkipsNext(4, [0] + [2], 1);
    SkipsNext(4, [0] + [2] + [1], 3);
    assert [0] + [2] + [1] + [3] == [0, 2, 1, 3];
  }

  lemma ReselectsTwo(q: nat, n: nat, m: nat, k: nat)
    requires n <= 4 && m <= 4 && Apartness(m, n) >= Apartness(q, m)
    ensures Selected(q, [n, m, k]) == [n, m]
  {
    hide Selected, Apartness;
    SelectsTwo(q, n, m);
    StopsFull(q, [n, m], k);
    assert [n, m] + [k] == [n, m, k];
  }

  ghost predicate NearestFirst(q: nat, ns: seq<nat>) {
    forall i :: 0 < i < |ns| ==> Apartness(q, ns[i - 1]) < Apartness(q, ns[i])
  }

  lemma Distances()
    ensures Apartness(2, 0) < Apartness(2, 1) <= Apartness(1, 0)
    ensures Apartness(3, 1) < Apartness(3, 2) < Apartness(3, 0)
    ensures Apartness(4, 0) < Apartness(4, 2) < Apartness(4, 1) < Apartness(4, 3)
    ensures Apartness(1, 3) < Apartness(1, 2) < Apartness(1, 0) && Apartness(1, 2) <= Apartness(2, 3)
    ensures Apartness(0, 2) < Apartness(0, 4) < Apartness(0, 1) && Apartness(0, 4) <= Apartness(4, 2)
  {
  }

  /** With M = 2, on its arrival 2 selects 0 and 1, 3 selects 1, and 4 selects 0; and the full lists
      of 1 and 0 at level 1 are selected anew as 3 and 2, and as 2 and 4. */
  lemma TheHeuristicSelects()
    ensures NearestFirst(2, [0, 1]) && Selected(2, [0, 1]) == [0, 1]
    ensures NearestFirst(3, [1, 2, 0]) && Selected(3, [1, 2, 0]) == [1]
    ensures NearestFirst(4, [0, 2, 1, 3]) && Selected(4, [0, 2, 1, 3]) == [0]
    ensures NearestFirst(1, [3, 2, 0]) && Selected(1, [3, 2, 0]) == [3, 2]
    ensures NearestFirst(0, [2, 4, 1]) && Selected(0, [2, 4, 1]) == [2, 4]
  {
    hide Selected, Apartness;
    Distances();
    SelectsTwo(2, 0, 1);
    ReselectsTwo(1, 3, 2, 0);
    ReselectsTwo(0, 2, 4, 1);
    ThreeSelects();
    FourSelects();
  }
}
