/** Algorithm 5, K-NN-SEARCH, on a quiescent index: a greedy descent through the upper levels, one
    candidate at a time, and a search of the bottom level from where it ends. */
module KnnSearch {
  import opened Wrappers
  import opened LayerSpec
  import opened LayerOps

  /** The index as a search sees it: its levels from the bottom, and LowerLevel of each node. */
  datatype Index = Index(levels: seq<Layer>, lower: seq<map<Key, Key>>)

  /** Links lead to live nodes of the same level, and every node has its vector's node below it. */
  ghost predicate Sound(index: Index, q: Query) {
    && |index.levels| == |index.lower| > 0
    && (forall l :: 0 <= l < |index.levels| ==> Closed(index.levels[l]))
    && forall l, u :: 0 < l < |index.levels| && u in index.levels[l].links ==> HasLower(index, q, l, u)
  }

  ghost predicate HasLower(index: Index, q: Query, l: nat, u: Key)
    requires 0 < l < |index.levels| == |index.lower|
  {
    u in index.lower[l] && index.lower[l][u] in index.levels[l - 1].links && q.Dist(index.lower[l][u]) == q.Dist(u)
  }

  /** Upper levels are pure navigation: every node counts as visible there. */
  function Navigable(g: Layer): (g': Layer) {
    g.(hidden := {})
  }

  /** No neighbour of the node is nearer to the query. */
  ghost predicate LocalMinimum(g: Layer, q: Query, k: Key) {
    k in g.links && forall v :: v in Neighbours(g, k) ==> q.Dist(k) <= q.Dist(v)
  }

  /** The nodes the descent settled on, from the entry level downwards, each a local minimum of its
      level and no farther than the one above; the current node is as near as the last of them. */
  ghost predicate Descent(index: Index, q: Query, entry: Key, top: nat, path: seq<Key>, current: Key) {
    && |path| <= top < |index.levels| && q.Dist(current) <= q.Dist(entry)
    && (forall i :: 0 <= i < |path| ==> q.Dist(current) <= q.Dist(path[i]))
    && (forall i :: 0 <= i < |path| ==> LocalMinimum(index.levels[top - i], q, path[i]))
    && (forall i, j :: 0 <= i < j < |path| ==> q.Dist(path[j]) <= q.Dist(path[i]))
    && (forall i :: 0 <= i < |path| ==> q.Dist(path[i]) <= q.Dist(entry))
  }

  /** A search with ef = 1 from one live node settles on exactly one node, a local minimum no
      farther than the start. */
  lemma GreedyResult(g: Layer, q: Query, start: Key, evaluated: set<Key>, expanded: set<Key>, result: set<Key>)
    requires q.self.None? && g.hidden == {} && Closed(g) && start in g.links
    requires Settled(g, q, {start}, 1, evaluated, expanded, result)
    ensures exists k :: result == {k} && LocalMinimum(g, q, k) && q.Dist(k) <= q.Dist(start)
  {
    assert start in evaluated;
    assert VisibleSeeds(g, q, {start}) == {start};
    assert result != {};
    var k :| k in result;
    OnlyOne(result, k);
    assert Reachable(g, q, {start}, k);
    ReachesLive(g, q, {start}, k);
    forall v | v in Neighbours(g, k) ensures q.Dist(k) <= q.Dist(v) {
      assert v in evaluated;
    }
  }

  lemma OnlyOne(s: set<Key>, k: Key)
    requires k in s && |s| <= 1
    ensures s == {k}
  {
    if x :| x in s && x != k {
      assert |{x, k}| == 2;
      SubsetIsNoLarger({x, k}, s);
    }
  }

  /** One level of the descent. */
  method Greedy(g: Layer, q: Query, start: Key) returns (k: Key)
    requires q.self.None? && Closed(g) && start in g.links
    ensures LocalMinimum(g, q, k) && q.Dist(k) <= q.Dist(start)
  {
    hide Settled, LocalMinimum, Closed;
    var layer := new LayerOperations(Navigable(g), q);
    SameClosed(g);
    NeverFails(Navigable(g), q, KeySet([start]));
    var failed := layer.Search([start], 1);
    assert KeySet([start]) == {start};
    GreedyResult(Navigable(g), q, start, layer.Evaluated(), layer.expanded, layer.results.Keys);
    ghost var only :| layer.results.Keys == {only} && LocalMinimum(Navigable(g), q, only) &&
              q.Dist(only) <= q.Dist(start);
    var out := layer.ConsumeAll();
    OneListed(q, out, only);
    k := out[0];
    SameMinimum(g, q, k);
  }

  lemma SameClosed(g: Layer)
    requires Closed(g)
    ensures Closed(Navigable(g))
  {
  }

  lemma SameMinimum(g: Layer, q: Query, k: Key)
    requires LocalMinimum(Navigable(g), q, k)
    ensures LocalMinimum(g, q, k)
  {
  }

  lemma OneListed(q: Query, out: seq<Key>, k: Key)
    requires Lists(q, out, {k})
    ensures out != [] && out[0] == k
  {
    assert k in {k};
    assert k in out;
    assert out[0] in out;
  }

  /** The k nearest found at the bottom, nearest first. The descent hands down exactly one node at a
      time, never moves away from the query, and never meets a missing record. */
  method SearchKnn(index: Index, q: Query, entry: Option<Key>, top: nat, k: nat, ef: nat)
    returns (out: seq<Key>, ghost path: seq<Key>, ghost start: Key, ghost found: set<Key>)
    requires Sound(index, q) && q.self.None? && k <= ef && ef > 0 && top < |index.levels|
    requires entry.Some? ==> entry.value in index.levels[top].links
    ensures entry.None? ==> out == []
    ensures entry.Some? ==>
              && Descent(index, q, entry.value, top, path, start) && |path| == top && start in index.levels[0].links
              && (exists evaluated, expanded :: Settled(index.levels[0], q, {start}, ef, evaluated, expanded, found))
              && NearestOf(q, out, found, k)
  {
    hide Settled, LocalMinimum, Closed, NearestOf, Lists, Descent, Sound, HasLower;
    path, start, found := [], 0, {};
    if entry.None? {
      return [], [], 0, {};
    }
    EntryStarts(index, q, entry.value, top);
    var current, level: nat := entry.value, top;
    SoundLevel(index, q, 0);
    while level > 0
      invariant level <= top && |path| == top - level && current in index.levels[level].links
      invariant Descent(index, q, entry.value, top, path, current)
    {
      SoundLevel(index, q, level);
      var nearest := Greedy(index.levels[level], q, current);
      NextDown(index, q, entry.value, top, path, current, nearest, level);
      path := path + [nearest];
      current := index.lower[level][nearest];
      level := level - 1;
    }
    start := current;
    var layer := new LayerOperations(index.levels[0], q);
    NeverFails(index.levels[0], q, KeySet([start]));
    var failed := layer.Search([current], ef);
    assert KeySet([start]) == {start};
    found := layer.results.Keys;
    ghost var evaluated, expanded := layer.Evaluated(), layer.expanded;
    assert Settled(index.levels[0], q, {start}, ef, evaluated, expanded, found);
    out := layer.ConsumeSimple(k);
  }

  lemma EntryStarts(index: Index, q: Query, entry: Key, top: nat)
    requires top < |index.levels|
    ensures Descent(index, q, entry, top, [], entry)
  {
  }

  lemma SoundLevel(index: Index, q: Query, l: nat)
    requires Sound(index, q) && l < |index.levels|
    ensures Closed(index.levels[l]) && |index.lower| == |index.levels|
  {
  }

  lemma NextDown(index: Index, q: Query, entry: Key, top: nat, path: seq<Key>, current: Key, nearest: Key, level: nat)
    requires Sound(index, q) && 0 < level <= top < |index.levels| && |path| == top - level
    requires Descent(index, q, entry, top, path, current)
    requires LocalMinimum(index.levels[level], q, nearest) && q.Dist(nearest) <= q.Dist(current)
    ensures |index.lower| == |index.levels| && nearest in index.lower[level]
    ensures index.lower[level][nearest] in index.levels[level - 1].links
    ensures Descent(index, q, entry, top, path + [nearest], index.lower[level][nearest])
  {
    hide Closed;
    assert HasLower(index, q, level, nearest);
    var path' := path + [nearest];
    forall i | 0 <= i < |path'|
      ensures LocalMinimum(index.levels[top - i], q, path'[i]) && q.Dist(path'[i]) <= q.Dist(entry)
    {
      if i < |path| {
        assert path'[i] == path[i];
      }
    }
    forall i, j | 0 <= i < j < |path'| ensures q.Dist(path'[j]) <= q.Dist(path'[i]) {
      assert path'[i] == path[i];
      if j < |path| {
        assert path'[j] == path[j];
      }
    }
  }

  /** With every node of the bottom level visible and ef no less than the nodes that can be reached
      from where the descent ends, the answer is the k nearest of all of them. */
  lemma KnnIsExact(g: Layer, q: Query, start: Key, ef: nat, k: nat, evaluated: set<Key>, expanded: set<Key>,
                   found: set<Key>, reach: set<Key>, out: seq<Key>)
    requires Settled(g, q, {start}, ef, evaluated, expanded, found) && NearestOf(q, out, found, k)
    requires forall n :: n in reach <==> Reachable(g, q, {start}, n)
    requires (forall n :: n in reach ==> g.Visible(n)) && |reach| <= ef
    ensures NearestOf(q, out, reach, k)
  {
    ExhaustiveWhenAllVisible(g, q, {start}, ef, evaluated, expanded, found, reach);
  }
}
