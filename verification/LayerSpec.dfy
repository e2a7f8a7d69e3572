/** What one layer search is for, stated over the layer's links, the distances to the
    query and the visibility of nodes, without mentioning heaps or loops.

    A search that stops leaves behind three sets of node keys: `evaluated` (nodes whose
    distance was computed), `expanded` (nodes whose neighbours were read) and `result`.
    `Settled` is the relation between them that LayerOperations.Search establishes; the
    lemmas below say what it is worth to a caller. */
module LayerSpec {
  import opened Wrappers

  type Key = nat

  /** One layer as the search sees it. A key outside `links` is a record that has been
      freed: reading its neighbours fails. Distances and visibility are arbitrary tables. */
  datatype Layer = Layer(
    links: map<Key, seq<Key>>,
    distances: map<(Key, Key), real>,
    hidden: set<Key>)
  {
    function Between(a: Key, b: Key): real {
      if (a, b) in distances then distances[(a, b)] else 0.0
    }

    predicate Visible(k: Key) {
      k !in hidden
    }
  }

  /** The query is either fresh data or a node of the graph (`self`). */
  datatype Query = Query(self: Option<Key>, table: map<Key, real>) {
    function Dist(k: Key): real {
      if k in table then table[k] else 0.0
    }
  }

  function Max(a: nat, b: nat): (m: nat) {
    if a < b then b else a
  }

  function KeySet(ks: seq<Key>): (s: set<Key>)
    ensures forall k :: k in s <==> k in ks
  {
    set k | k in ks
  }

  /** Keys the search may never evaluate: the query node itself. */
  function Self(q: Query): (s: set<Key>)
    ensures forall k :: k in s <==> q.self == Some(k)
  {
    if q.self.None? then {} else {q.self.value}
  }

  function Neighbours(g: Layer, k: Key): (s: set<Key>) {
    if k in g.links then KeySet(g.links[k]) else {}
  }

  function VisibleSeeds(g: Layer, q: Query, seeds: set<Key>): (s: set<Key>) {
    set k | k in seeds && k !in Self(q) && g.Visible(k)
  }

  /** A walk along outgoing links that starts at a seed and avoids the query node. */
  ghost predicate Walk(g: Layer, q: Query, seeds: set<Key>, p: seq<Key>) {
    && |p| > 0
    && p[0] in seeds
    && (forall i :: 0 <= i < |p| ==> p[i] !in Self(q))
    && (forall i :: 0 < i < |p| ==> p[i] in Neighbours(g, p[i - 1]))
  }

  ghost predicate Reachable(g: Layer, q: Query, seeds: set<Key>, k: Key) {
    exists p :: Walk(g, q, seeds, p) && p[|p| - 1] == k
  }

  /** Reachable by a walk all of whose nodes but the last are within distance r. */
  ghost predicate ReachableWithin(g: Layer, q: Query, seeds: set<Key>, r: real, k: Key) {
    exists p :: Walk(g, q, seeds, p) && p[|p| - 1] == k && Within(q, p[..|p| - 1], r)
  }

  ghost predicate Within(q: Query, ks: seq<Key>, r: real) {
    forall i :: 0 <= i < |ks| ==> q.Dist(ks[i]) <= r
  }

  /** A distance the search cannot get past: every visible node it can see without going
      beyond r is itself within r. */
  ghost predicate Barrier(g: Layer, q: Query, seeds: set<Key>, r: real) {
    forall k :: ReachableWithin(g, q, seeds, r, k) && g.Visible(k) ==> q.Dist(k) <= r
  }

  /** What was evaluated and expanded, and nothing else: seeds and neighbours of expanded
      nodes, all of them reachable, and never anything beyond a barrier. */
  ghost predicate Explored(g: Layer, q: Query, seeds: set<Key>, evaluated: set<Key>, expanded: set<Key>) {
    && Covered(g, q, seeds, evaluated, expanded)
    && (forall e :: e in evaluated ==> e !in Self(q) && Reachable(g, q, seeds, e))
    && (VisibleSeeds(g, q, seeds) != {} ==> forall r :: Barrier(g, q, seeds, r) ==>
          && (forall x :: x in expanded ==> q.Dist(x) <= r)
          && (forall e :: e in evaluated ==> ReachableWithin(g, q, seeds, r, e)))
  }

  ghost predicate Covered(g: Layer, q: Query, seeds: set<Key>, evaluated: set<Key>, expanded: set<Key>) {
    && seeds - Self(q) <= evaluated
    && (forall x :: x in expanded ==> Neighbours(g, x) - Self(q) <= evaluated)
  }

  ghost predicate NoFartherThan(q: Query, result: set<Key>, d: real) {
    forall w :: w in result ==> q.Dist(w) <= d
  }

  ghost predicate NearerThan(q: Query, result: set<Key>, d: real) {
    forall w :: w in result ==> q.Dist(w) < d
  }

  ghost predicate Settled(g: Layer, q: Query, seeds: set<Key>, ef: nat,
                          evaluated: set<Key>, expanded: set<Key>, result: set<Key>)
  {
    var kept := Max(ef, |VisibleSeeds(g, q, seeds)|);
    && Explored(g, q, seeds, evaluated, expanded)
    && result <= expanded <= evaluated
    && (forall w :: w in result ==> g.Visible(w))
    && |result| <= kept
    && (forall e :: e in evaluated && e !in expanded ==>
          && result != {}
          && NoFartherThan(q, result, q.Dist(e))
          && (ef <= |result| || NearerThan(q, result, q.Dist(e))))
    && (forall e :: e in evaluated && g.Visible(e) && e !in result ==>
          kept <= |result| && NoFartherThan(q, result, q.Dist(e)))
  }

  /** Local optimality: a visible neighbour of a result is itself a result or no nearer than
      the worst one, and then the result is full. */
  lemma LocallyOptimal(g: Layer, q: Query, seeds: set<Key>, ef: nat,
                       evaluated: set<Key>, expanded: set<Key>, result: set<Key>, w: Key, v: Key)
    requires Settled(g, q, seeds, ef, evaluated, expanded, result)
    requires w in result && v in Neighbours(g, w) && g.Visible(v) && v !in Self(q)
    ensures v in result || (|result| >= ef && NoFartherThan(q, result, q.Dist(v)))
  {
    assert w in expanded;
    assert v in Neighbours(g, w) - Self(q);
    assert v in evaluated;
  }

  /** Global form: every walk that stays strictly nearer than some result is followed to its
      end, so the visible nodes on it are all in the result. */
  lemma {:induction false} BallIsExplored(g: Layer, q: Query, seeds: set<Key>, ef: nat,
                       evaluated: set<Key>, expanded: set<Key>, result: set<Key>,
                       p: seq<Key>, worst: Key)
    requires Settled(g, q, seeds, ef, evaluated, expanded, result)
    requires Walk(g, q, seeds, p) && worst in result
    requires forall i :: 0 <= i < |p| ==> q.Dist(p[i]) < q.Dist(worst)
    ensures p[|p| - 1] in expanded
    ensures g.Visible(p[|p| - 1]) ==> p[|p| - 1] in result
    decreases |p|
  {
    var last := p[|p| - 1];
    if |p| == 1 {
      assert last in seeds - Self(q);
    } else {
      var front := p[..|p| - 1];
      assert Walk(g, q, seeds, front);
      BallIsExplored(g, q, seeds, ef, evaluated, expanded, result, front, worst);
      assert last in Neighbours(g, front[|front| - 1]) - Self(q);
    }
    assert last in evaluated;
  }

  /** If every visible node nearer than the worst result can be reached without leaving that
      ball, the result is exact: no visible node outside it is nearer than its worst member. */
  lemma ExactWhenBallConnected(g: Layer, q: Query, seeds: set<Key>, ef: nat,
                               evaluated: set<Key>, expanded: set<Key>, result: set<Key>, worst: Key)
    requires Settled(g, q, seeds, ef, evaluated, expanded, result)
    requires worst in result
    requires forall k :: g.Visible(k) && q.Dist(k) < q.Dist(worst) ==>
               exists p :: Walk(g, q, seeds, p) && p[|p| - 1] == k
                 && forall i :: 0 <= i < |p| ==> q.Dist(p[i]) < q.Dist(worst)
    ensures forall k :: g.Visible(k) && k !in result ==> q.Dist(worst) <= q.Dist(k)
  {
    forall k | g.Visible(k) && q.Dist(k) < q.Dist(worst)
      ensures k in result
    {
      var p :| Walk(g, q, seeds, p) && p[|p| - 1] == k
                 && forall i :: 0 <= i < |p| ==> q.Dist(p[i]) < q.Dist(worst);
      BallIsExplored(g, q, seeds, ef, evaluated, expanded, result, p, worst);
    }
  }

  /** A walk is followed to its end as long as all its nodes but the last were expanded. */
  lemma {:induction false} WalkIsFollowed(g: Layer, q: Query, seeds: set<Key>,
                                          evaluated: set<Key>, expanded: set<Key>, p: seq<Key>)
    requires Covered(g, q, seeds, evaluated, expanded) && Walk(g, q, seeds, p)
    requires forall i :: 0 <= i < |p| - 1 && p[i] in evaluated ==> p[i] in expanded
    ensures p[|p| - 1] in evaluated
    decreases |p|
  {
    var last := p[|p| - 1];
    if |p| == 1 {
      assert last in seeds - Self(q);
    } else {
      var front := p[..|p| - 1];
      WalkIsFollowed(g, q, seeds, evaluated, expanded, front);
      assert p[|p| - 2] == front[|front| - 1];
      assert last in Neighbours(g, p[|p| - 2]) - Self(q);
    }
  }

  lemma ProperSubsetIsSmaller(a: set<Key>, b: set<Key>, x: Key)
    requires a <= b && x in b && x !in a
    ensures |a| < |b|
  {
    SubsetIsNoLarger(a, b - {x});
  }

  lemma {:induction false} SubsetIsNoLarger(a: set<Key>, b: set<Key>)
    requires a <= b
    ensures |a| <= |b|
    decreases a
  {
    if a != {} {
      var x :| x in a;
      SubsetIsNoLarger(a - {x}, b - {x});
    }
  }

  /** With room for everything reachable, no visible node that was evaluated is missing. */
  lemma RoomKeepsAllVisible(g: Layer, q: Query, seeds: set<Key>, ef: nat,
                            evaluated: set<Key>, expanded: set<Key>, result: set<Key>, reach: set<Key>)
    requires Settled(g, q, seeds, ef, evaluated, expanded, result)
    requires forall k :: k in reach <==> Reachable(g, q, seeds, k)
    requires |reach| <= ef
    ensures evaluated <= reach
    ensures forall e :: e in evaluated && g.Visible(e) ==> e in result
  {
    SubsetIsNoLarger(evaluated, reach);
    forall e | e in evaluated && g.Visible(e) ensures e in result {
      if e !in result {
        ProperSubsetIsSmaller(result, evaluated, e);
        assert false;
      }
    }
  }

  /** With every node visible and room for all of them, the result is the reachable set: the
      nodes a walk can reach without passing through the query node. */
  lemma ExhaustiveWhenAllVisible(g: Layer, q: Query, seeds: set<Key>, ef: nat,
                                 evaluated: set<Key>, expanded: set<Key>, result: set<Key>, reach: set<Key>)
    requires Settled(g, q, seeds, ef, evaluated, expanded, result)
    requires forall k :: k in reach <==> Reachable(g, q, seeds, k)
    requires forall k :: k in reach ==> g.Visible(k)
    requires |reach| <= ef
    ensures result == reach
  {
    RoomKeepsAllVisible(g, q, seeds, ef, evaluated, expanded, result, reach);
    assert result == expanded == evaluated;
    forall k | k in reach ensures k in evaluated {
      var p :| Walk(g, q, seeds, p) && p[|p| - 1] == k;
      WalkIsFollowed(g, q, seeds, evaluated, expanded, p);
    }
  }

  /** Exactly when a search with room for everything, started from a visible node, finds every
      visible reachable node: when no barrier hides one. */
  lemma ExhaustiveIffNoBarrier(g: Layer, q: Query, seeds: set<Key>, ef: nat,
                               evaluated: set<Key>, expanded: set<Key>, result: set<Key>, reach: set<Key>)
    requires Settled(g, q, seeds, ef, evaluated, expanded, result)
    requires forall k :: k in reach <==> Reachable(g, q, seeds, k)
    requires |reach| <= ef && VisibleSeeds(g, q, seeds) != {}
    ensures (forall k :: k in reach && g.Visible(k) ==> k in result)
       <==> (forall r, k :: Barrier(g, q, seeds, r) && k in reach && g.Visible(k) ==>
               ReachableWithin(g, q, seeds, r, k))
  {
    RoomKeepsAllVisible(g, q, seeds, ef, evaluated, expanded, result, reach);
    if forall r, k :: Barrier(g, q, seeds, r) && k in reach && g.Visible(k) ==> ReachableWithin(g, q, seeds, r, k) {
      var s :| s in VisibleSeeds(g, q, seeds);
      assert s in seeds - Self(q);
      var worst := FarthestExists(q, result);
      var r := q.Dist(worst);
      forall k | ReachableWithin(g, q, seeds, r, k) ensures k in evaluated {
        var p :| Walk(g, q, seeds, p) && p[|p| - 1] == k && Within(q, p[..|p| - 1], r);
        forall i | 0 <= i < |p| - 1 && p[i] in evaluated ensures p[i] in expanded {
          assert p[..|p| - 1][i] == p[i];
          if p[i] !in expanded {
            if ef <= |result| {
              ProperSubsetIsSmaller(result, reach, p[i]);
            }
            assert false;
          }
        }
        WalkIsFollowed(g, q, seeds, evaluated, expanded, p);
      }
      assert Barrier(g, q, seeds, r);
    }
  }

  lemma {:induction false} FarthestExists(q: Query, ks: set<Key>) returns (far: Key)
    requires ks != {}
    ensures far in ks && NoFartherThan(q, ks, q.Dist(far))
    decreases ks
  {
    far :| far in ks;
    if ks != {far} {
      var rest := ks - {far};
      assert ks == rest + {far};
      var other := FarthestExists(q, rest);
      if q.Dist(far) < q.Dist(other) {
        far := other;
      }
    }
  }

  /** An empty result means no visible node is reachable at all. */
  lemma EmptyMeansNothingVisible(g: Layer, q: Query, seeds: set<Key>, ef: nat,
                                 evaluated: set<Key>, expanded: set<Key>, k: Key)
    requires ef > 0
    requires Settled(g, q, seeds, ef, evaluated, expanded, {})
    requires Reachable(g, q, seeds, k)
    ensures !g.Visible(k)
  {
    var p :| Walk(g, q, seeds, p) && p[|p| - 1] == k;
    WalkIsFollowed(g, q, seeds, evaluated, expanded, p);
  }

  lemma WalkStep(g: Layer, q: Query, seeds: set<Key>, p: seq<Key>, v: Key)
    requires Walk(g, q, seeds, p) && v !in Self(q) && v in Neighbours(g, p[|p| - 1])
    ensures Walk(g, q, seeds, p + [v])
  {
    hide Neighbours, Self;
    var p' := p + [v];
    forall i | 0 < i < |p'| ensures p'[i] in Neighbours(g, p'[i - 1]) {
      assert p'[i - 1] == p[i - 1];
    }
  }

  lemma WithinStep(q: Query, p: seq<Key>, v: Key, r: real)
    requires p != [] && Within(q, p[..|p| - 1], r) && q.Dist(p[|p| - 1]) <= r
    ensures Within(q, (p + [v])[..|p|], r)
  {
    assert (p + [v])[..|p|] == p[..|p| - 1] + [p[|p| - 1]];
  }

  lemma WalkTo(g: Layer, q: Query, seeds: set<Key>, k: Key) returns (p: seq<Key>)
    requires Reachable(g, q, seeds, k)
    ensures Walk(g, q, seeds, p) && p != [] && p[|p| - 1] == k
  {
    p :| Walk(g, q, seeds, p) && p[|p| - 1] == k;
  }

  lemma WalkWithinTo(g: Layer, q: Query, seeds: set<Key>, r: real, k: Key) returns (p: seq<Key>)
    requires ReachableWithin(g, q, seeds, r, k)
    ensures Walk(g, q, seeds, p) && p != [] && p[|p| - 1] == k && Within(q, p[..|p| - 1], r)
  {
    p :| Walk(g, q, seeds, p) && p[|p| - 1] == k && Within(q, p[..|p| - 1], r);
  }

  lemma ReachedBy(g: Layer, q: Query, seeds: set<Key>, p: seq<Key>)
    requires Walk(g, q, seeds, p) && p != []
    ensures Reachable(g, q, seeds, p[|p| - 1])
  {
  }

  lemma ReachedWithinBy(g: Layer, q: Query, seeds: set<Key>, p: seq<Key>, r: real)
    requires Walk(g, q, seeds, p) && p != [] && Within(q, p[..|p| - 1], r)
    ensures ReachableWithin(g, q, seeds, r, p[|p| - 1])
  {
  }

  /** Extending a walk by one link. */
  lemma ReachStep(g: Layer, q: Query, seeds: set<Key>, c: Key, v: Key)
    requires c !in Self(q) && v !in Self(q) && v in Neighbours(g, c)
    ensures Reachable(g, q, seeds, c) ==> Reachable(g, q, seeds, v)
    ensures forall r :: ReachableWithin(g, q, seeds, r, c) && q.Dist(c) <= r ==>
              ReachableWithin(g, q, seeds, r, v)
  {
    hide Walk, Within, Neighbours, Self, Reachable, ReachableWithin;
    if Reachable(g, q, seeds, c) {
      var p := WalkTo(g, q, seeds, c);
      WalkStep(g, q, seeds, p, v);
      ReachedBy(g, q, seeds, p + [v]);
    }
    forall r | ReachableWithin(g, q, seeds, r, c) && q.Dist(c) <= r
      ensures ReachableWithin(g, q, seeds, r, v)
    {
      var p := WalkWithinTo(g, q, seeds, r, c);
      WalkStep(g, q, seeds, p, v);
      WithinStep(q, p, v, r);
      ReachedWithinBy(g, q, seeds, p + [v], r);
    }
  }

  lemma SeedsAreExplored(g: Layer, q: Query, seeds: set<Key>)
    ensures Explored(g, q, seeds, seeds - Self(q), {})
  {
    forall e | e in seeds - Self(q)
      ensures Reachable(g, q, seeds, e)
      ensures forall r :: ReachableWithin(g, q, seeds, r, e)
    {
      var p := [e];
      assert Walk(g, q, seeds, p) && p[|p| - 1] == e;
      forall r ensures ReachableWithin(g, q, seeds, r, e) {
        assert Within(q, p[..|p| - 1], r);
      }
    }
  }

  /** Expanding a node no farther than some visible evaluated node keeps `Explored`. */
  lemma ExpansionKeepsExplored(g: Layer, q: Query, seeds: set<Key>, evaluated: set<Key>, expanded: set<Key>, c: Key)
    requires Explored(g, q, seeds, evaluated, expanded) && c in evaluated
    requires VisibleSeeds(g, q, seeds) != {} ==>
               exists w :: w in evaluated && g.Visible(w) && q.Dist(c) <= q.Dist(w)
    ensures Explored(g, q, seeds, evaluated + (Neighbours(g, c) - Self(q)), expanded + {c})
  {
    forall v | v in Neighbours(g, c) - Self(q)
      ensures Reachable(g, q, seeds, v)
      ensures forall r :: ReachableWithin(g, q, seeds, r, c) && q.Dist(c) <= r ==>
                ReachableWithin(g, q, seeds, r, v)
    {
      ReachStep(g, q, seeds, c, v);
    }
  }

  function HiddenNodeLayer(): (g: Layer) {
    Layer(map[0 := [1], 1 := [2], 2 := []], map[], {1})
  }

  function HiddenNodeQuery(): (q: Query) {
    Query(None, map[0 := 1.0, 1 := 5.0, 2 := 1.0])
  }

  /** Exhaustiveness fails once a node is invisible, however large ef is: the walk 0 -> 1 -> 2
      passes the invisible, far node 1, so no outcome of a search from 0 contains 2. */
  lemma InvisibleNodeCutsSearch(ef: nat, evaluated: set<Key>, expanded: set<Key>, result: set<Key>)
    requires Settled(HiddenNodeLayer(), HiddenNodeQuery(), {0}, ef, evaluated, expanded, result)
    ensures Reachable(HiddenNodeLayer(), HiddenNodeQuery(), {0}, 2) && HiddenNodeLayer().Visible(2)
    ensures 2 !in result
  {
    var g, q := HiddenNodeLayer(), HiddenNodeQuery();
    assert Neighbours(g, 0) == {1} && Neighbours(g, 1) == {2} && Neighbours(g, 2) == {};
    assert 0 in VisibleSeeds(g, q, {0});
    assert Walk(g, q, {0}, [0, 1, 2]);
    forall p | Walk(g, q, {0}, p) && Within(q, p[..|p| - 1], 1.0)
      ensures p[|p| - 1] in {0, 1}
    {
      FirstTwoOnly(p);
    }
    assert Barrier(g, q, {0}, 1.0);
  }

  lemma {:induction false} FirstTwoOnly(p: seq<Key>)
    requires Walk(HiddenNodeLayer(), HiddenNodeQuery(), {0}, p)
    requires Within(HiddenNodeQuery(), p[..|p| - 1], 1.0)
    ensures p[|p| - 1] in {0, 1}
  {
    var g, q := HiddenNodeLayer(), HiddenNodeQuery();
    if |p| > 1 {
      assert p[1] in Neighbours(g, p[0]);
      if |p| > 2 {
        assert false;
      }
    }
  }

  // ------------------------------------------------------------------------------------------
  // Layers without freed records.

  /** Links lead to live nodes. */
  ghost predicate Closed(g: Layer) {
    forall u, v :: u in g.links && v in g.links[u] ==> v in g.links
  }

  lemma {:induction false} WalksStay(g: Layer, q: Query, seeds: set<Key>, p: seq<Key>, i: nat)
    requires Walk(g, q, seeds, p) && i < |p| && Closed(g) && forall s :: s in seeds ==> s in g.links
    ensures p[i] in g.links
  {
    if i > 0 {
      WalksStay(g, q, seeds, p, i - 1);
      assert p[i] in Neighbours(g, p[i - 1]);
    }
  }

  lemma ReachesLive(g: Layer, q: Query, seeds: set<Key>, k: Key)
    requires Closed(g) && (forall s :: s in seeds ==> s in g.links) && Reachable(g, q, seeds, k)
    ensures k in g.links && k !in Self(q)
  {
    var p := WalkTo(g, q, seeds, k);
    WalksStay(g, q, seeds, p, |p| - 1);
  }
}
