/** What a removal does to the neighbours it orphans at one level: each is given new neighbours
    found by a search from those that still have some. Quiescent: nothing else changes the level
    meanwhile, every link leads to a live node, and every node is settled, so its overflow chain
    records exactly the nodes that link to it without being linked back. */
module Repair {
  import opened Wrappers
  import opened LayerSpec
  import opened Selection
  import opened LayerOps

  class Level {
    const cap: nat
    const m: nat
    const ef: nat
    const distances: map<(Key, Key), real>
    var links: map<Key, seq<Key>>
    var chains: map<Key, set<Key>>

    constructor (cap: nat, m: nat, ef: nat, distances: map<(Key, Key), real>, links: map<Key, seq<Key>>,
                 chains: map<Key, set<Key>>)
      requires 1 <= m <= cap && ef >= 1 && Sound(links, cap) && Chained(links, chains)
      ensures Valid() && this.links == links && this.chains == chains && this.cap == cap && this.m == m && this.ef == ef
    {
      this.cap, this.m, this.ef, this.distances, this.links, this.chains := cap, m, ef, distances, links, chains;
    }

    ghost predicate Valid()
      reads this
    {
      1 <= m <= cap && ef >= 1 && Sound(links, cap) && Chained(links, chains)
    }

    /** The settled result of a search from the seeds, of which the chosen are a selection of at
        most m neighbours for node. */
    ghost predicate Found(links: map<Key, seq<Key>>, node: Key, seeds: seq<Key>, chosen: seq<Key>) {
      var g, q := LayerOf(links, distances), QueryOf(links, distances, node);
      exists evaluated, expanded, result ::
        && Settled(g, q, KeySet(seeds), ef, evaluated, expanded, result) && result != {}
        && Selects(g, q, result, m, chosen)
    }

    /** A neighbour v without room: its list becomes a selection from what it named before and node. */
    ghost predicate ShrinkStep(before: map<Key, seq<Key>>, after: map<Key, seq<Key>>, node: Key, v: Key) {
      && v in before
      && exists want, withheld ::
           && Selects(LayerOf(before, distances), QueryOf(before, distances, v), KeySet(before[v]) + {node}, cap, want)
           && Linked(before, after, cap, v, want, |want|, withheld)
    }

    ghost predicate ShrinksTo(before: map<Key, seq<Key>>, after: map<Key, seq<Key>>, node: Key, overflowed: seq<Key>)
      decreases |overflowed|
    {
      if overflowed == [] then after == before
      else
        var front, v := overflowed[..|overflowed| - 1], overflowed[|overflowed| - 1];
        exists middle :: ShrinksTo(before, middle, node, front) && ShrinkStep(middle, after, node, v)
    }

    /** One orphan is given neighbours found from the pool, and those without room choose anew.
        Nothing can be done while the pool is empty. */
    ghost predicate RepairStep(before: map<Key, seq<Key>>, after: map<Key, seq<Key>>, orphan: Key, pool: seq<Key>) {
      if pool == [] then after == before
      else exists chosen, overflowed, replaced ::
        && Found(before, orphan, pool, chosen)
        && Linked(before, replaced, cap, orphan, chosen, |chosen|, overflowed)
        && ShrinksTo(replaced, after, orphan, overflowed)
    }

    /** The orphans in turn, each from the survivors and the orphans before it. */
    ghost predicate RepairsTo(before: map<Key, seq<Key>>, after: map<Key, seq<Key>>, survivors: seq<Key>,
                              orphans: seq<Key>)
      decreases |orphans|
    {
      if orphans == [] then after == before
      else
        var front, orphan := orphans[..|orphans| - 1], orphans[|orphans| - 1];
        exists middle ::
          && RepairsTo(before, middle, survivors, front) && RepairStep(middle, after, orphan, survivors + front)
    }

    lemma ShrinksNext(before: map<Key, seq<Key>>, middle: map<Key, seq<Key>>, after: map<Key, seq<Key>>, node: Key,
                      overflowed: seq<Key>, t: nat)
      requires t < |overflowed| && ShrinksTo(before, middle, node, overflowed[..t])
      requires ShrinkStep(middle, after, node, overflowed[t])
      ensures ShrinksTo(before, after, node, overflowed[..t + 1])
    {
      hide ShrinkStep;
      assert overflowed[..t + 1][..t] == overflowed[..t];
    }

    lemma RepairsNext(before: map<Key, seq<Key>>, middle: map<Key, seq<Key>>, after: map<Key, seq<Key>>,
                      survivors: seq<Key>, orphans: seq<Key>, i: nat)
      requires i < |orphans| && RepairsTo(before, middle, survivors, orphans[..i])
      requires RepairStep(middle, after, orphans[i], survivors + orphans[..i])
      ensures RepairsTo(before, after, survivors, orphans[..i + 1])
    {
      hide RepairStep;
      assert orphans[..i + 1][..i] == orphans[..i];
    }

    lemma EmptyPool(links: map<Key, seq<Key>>, orphan: Key)
      ensures RepairStep(links, links, orphan, [])
    {
    }

    lemma NothingYet(links: map<Key, seq<Key>>, node: Key, survivors: seq<Key>)
      ensures ShrinksTo(links, links, node, []) && RepairsTo(links, links, survivors, [])
    {
    }

    lemma FoundBy(links: map<Key, seq<Key>>, node: Key, seeds: seq<Key>, evaluated: set<Key>, expanded: set<Key>,
                  result: set<Key>, chosen: seq<Key>)
      requires Settled(LayerOf(links, distances), QueryOf(links, distances, node), KeySet(seeds), ef, evaluated,
                       expanded, result)
      requires result != {} &&
               Selects(LayerOf(links, distances), QueryOf(links, distances, node), result, m, chosen)
      ensures Found(links, node, seeds, chosen)
    {
    }

    lemma ShrunkBy(before: map<Key, seq<Key>>, after: map<Key, seq<Key>>, node: Key, v: Key, want: seq<Key>,
                   withheld: seq<Key>)
      requires v in before && Linked(before, after, cap, v, want, |want|, withheld)
      requires Selects(LayerOf(before, distances), QueryOf(before, distances, v), KeySet(before[v]) + {node}, cap, want)
      ensures ShrinkStep(before, after, node, v)
    {
    }

    lemma RepairedBy(before: map<Key, seq<Key>>, replaced: map<Key, seq<Key>>, after: map<Key, seq<Key>>, orphan: Key,
                     pool: seq<Key>, chosen: seq<Key>, overflowed: seq<Key>)
      requires pool != [] && Found(before, orphan, pool, chosen) && ShrinksTo(replaced, after, orphan, overflowed)
      requires Linked(before, replaced, cap, orphan, chosen, |chosen|, overflowed)
      ensures RepairStep(before, after, orphan, pool)
    {
    }

    /** Searches from the seeds and selects neighbours for node: at least one, if there is a seed
        besides node itself. */
    method SelectNeighbours(node: Key, seeds: seq<Key>) returns (chosen: seq<Key>)
      requires Valid() && node in links && (forall s :: s in seeds ==> s in links) &&
               exists s :: s in seeds && s != node
      ensures chosen != [] && Chosable(links, node, chosen, m) && Found(links, node, seeds, chosen)
      ensures (forall s :: s in seeds ==> links[s] == []) ==> forall c :: c in chosen ==> c in seeds
    {
      hide Settled, TakenInOrder, Selects, Chosen, Reachable, Sound, Closed, Found;
      var g, q := LayerOf(links, distances), QueryOf(links, distances, node);
      var layer := new LayerOperations(g, q);
      SoundIsClosed(g, cap);
      var failed := layer.Search(seeds, ef);
      if failed {
        NeverFails(g, q, KeySet(seeds));
      }
      ghost var evaluated, expanded, results := layer.Evaluated(), layer.expanded, layer.results.Keys;
      ResultsExist(g, q, KeySet(seeds), ef, evaluated, expanded, results);
      ghost var order;
      var pool;
      failed, chosen, pool, order := layer.ConsumeHeuristic(m, false, false, []);
      TakenSelects(g, q, results, m, order);
      NearestIsSelected(g, q, results, m, chosen);
      SelectedAre(g, q, results, m, chosen);
      FoundBy(links, node, seeds, evaluated, expanded, results, chosen);
      forall c | c in chosen ensures c in links && c != node {
        ReachesLive(g, q, KeySet(seeds), c);
      }
      if forall s :: s in seeds ==> links[s] == [] {
        forall c | c in chosen ensures c in seeds {
          StaysAtSeeds(g, q, KeySet(seeds), c);
        }
      }
    }

    /** The links the wanted list does not name are given up: a neighbour that links back is recorded
        in the node's own chain from now on, one that does not forgets the node. */
    method DropLinks(node: Key, want: seq<Key>)
      requires Valid() && node in links
      modifies this`chains
      ensures Fits(links, chains, node, KeySet(links[node]) * KeySet(want))
      ensures node in old(chains) && node in chains &&
              forall v :: v in want ==> (v in chains[node] <==> v in old(chains)[node])
    {
      hide Fits, Chained, Sound;
      var had := links[node];
      OwnLinksFit(links, chains, cap, node);
      ghost var first := chains;
      ghost var named := KeySet(had);
      for i := 0 to |had|
        invariant Fits(links, chains, node, named) && node in chains && node in first
        invariant forall v :: v in named <==> v in had && (v in had[..i] ==> v in want)
        invariant forall v :: v in want ==> (v in chains[node] <==> v in first[node])
      {
        var c := had[i];
        NextIsNamed(links, cap, node, i);
        if c !in want {
          DropFits(links, chains, node, named, c);
          if node in links[c] {
            chains := chains[node := chains[node] + {c}];
          } else {
            chains := chains[c := chains[c] - {node}];
          }
          named := named - {c};
        }
      }
      assert named == KeySet(had) * KeySet(want);
    }

    /** The node's list becomes the wanted one. A wanted neighbour found in the node's chain links to
        it already and leaves the chain; any other new one links back, or records the node in its
        own chain if its list has no room. */
    method ReplaceNeighbours(node: Key, want: seq<Key>) returns (overflowed: seq<Key>)
      requires Valid() && node in links && Chosable(links, node, want, cap)
      modifies this`links, this`chains
      ensures Valid() && Replaced(old(links), links, node, want)
      ensures Linked(old(links), links, cap, node, want, |want|, overflowed)
    {
      hide Sound, Linked, Replaced, Fits, Chained;
      ghost var before := links;
      var had := links[node];
      ChainKeys(links, chains);
      var recorded := chains[node];
      RecordedLinkBack(links, chains, cap, node);
      DropLinks(node, want);
      WriteFits(links, chains, cap, node, KeySet(had) * KeySet(want), want);
      ListReplaced(links, cap, node, want);
      assert KeySet(want) * chains[node] == KeySet(want) * recorded;
      links := links[node := want];
      chains := chains[node := chains[node] - KeySet(want)];
      overflowed := [];
      NothingLinked(before, links, cap, node, want);
      ghost var named := KeySet(had) * KeySet(want) + KeySet(want) * recorded;
      for t := 0 to |want|
        invariant Sound(links, cap) && Linked(before, links, cap, node, want, t, overflowed)
        invariant Fits(links, chains, node, named) && node in chains && chains[node] !! KeySet(want)
        invariant forall v :: v in named <==> v in want && (v in want[..t] || v in had || v in recorded)
      {
        var v := want[t];
        LinkNext(before, links, cap, node, want, t, overflowed);
        NextIsFresh(before, cap, node, want, t);
        if v !in had && v !in recorded {
          LinkFits(links, chains, node, named, v);
          if |links[v]| < cap {
            LinkedBack(links, cap, v, node);
            links := links[v := links[v] + [node]];
          } else {
            chains := chains[v := chains[v] + {node}];
            overflowed := overflowed + [v];
          }
          named := named + {v};
        }
      }
      LinkedIsReplaced(before, links, cap, node, want, overflowed);
      assert named == KeySet(links[node]);
      FitsIsChained(links, chains, cap, node);
    }

    /** Neighbours without room choose anew among their links and the node linked to them, one after
        another. What they in turn have no room for stays withheld. */
    method ShrinkNeighbours(node: Key, overflowed: seq<Key>)
      requires Valid() && node in links && forall v :: v in overflowed ==> v in links && v != node
      modifies this`links, this`chains
      ensures Valid() && NoneIsolated(old(links), links) && ShrinksTo(old(links), links, node, overflowed)
    {
      hide Sound, Chained, Selects, Linked, ShrinksTo, ShrinkStep;
      ghost var before := links;
      NothingYet(links, node, []);
      for t := 0 to |overflowed|
        invariant Valid() && NoneIsolated(before, links) && ShrinksTo(before, links, node, overflowed[..t])
      {
        var v := overflowed[t];
        var connections := links[v] + [node];
        assert node in connections;
        OwnListIsSound(links, cap, v);
        var shrunk := Choose(v, connections);
        ghost var middle := links;
        assert KeySet(connections) - {v} == KeySet(middle[v]) + {node};
        var withheld := ReplaceNeighbours(v, shrunk);
        NeverIsolated(before, middle, links, v, shrunk);
        ShrunkBy(middle, links, node, v, shrunk, withheld);
        ShrinksNext(before, middle, links, node, overflowed, t);
      }
      assert overflowed[..|overflowed|] == overflowed;
    }

    /** Selects from the given nodes themselves, without a traversal. */
    method Choose(node: Key, connections: seq<Key>) returns (chosen: seq<Key>)
      requires Valid() && node in links && (forall c :: c in connections ==> c in links) &&
               exists c :: c in connections && c != node
      ensures chosen != [] && Chosable(links, node, chosen, cap)
      ensures Selects(LayerOf(links, distances), QueryOf(links, distances, node), KeySet(connections) - {node}, cap,
                      chosen)
    {
      hide TakenInOrder, Selects, Chosen, Sound, VisibleSeeds, Scored, Lists;
      var g, q := LayerOf(links, distances), QueryOf(links, distances, node);
      var layer := new LayerOperations(g, q);
      layer.Seed(connections);
      ghost var results := layer.results.Keys;
      SeededAre(links, distances, node, connections);
      ghost var order;
      var failed, pool;
      failed, chosen, pool, order := layer.ConsumeHeuristic(cap, false, false, []);
      TakenSelects(g, q, results, cap, order);
      NearestIsSelected(g, q, results, cap, chosen);
      SelectedAre(g, q, results, cap, chosen);
    }

    /** The repair loop of a removal. Afterwards every former neighbour of the removed node has a
        link, those that had one before included, unless there was a single orphan and nobody to
        connect it to. */
    method RepairOrphans(survivors: seq<Key>, orphans: seq<Key>)
      requires Valid() && (forall s :: s in survivors ==> s in links && links[s] != [])
      requires forall o :: o in orphans ==> o in links && links[o] == [] && o !in survivors
      requires forall i, j :: 0 <= i < j < |orphans| ==> orphans[i] != orphans[j]
      modifies this`links, this`chains
      ensures Valid() && NoneIsolated(old(links), links)
      ensures survivors == [] && |orphans| == 1 ==> links == old(links)
      ensures !(survivors == [] && |orphans| == 1) ==> AllLinked(links, orphans)
      ensures RepairsTo(old(links), links, survivors, orphans)
    {
      hide Sound, Chained, NoneIsolated, AllLinked, Repairing, RepairsTo, RepairStep;
      ghost var before := links;
      var pool := survivors;
      NothingRepaired(links, survivors, orphans);
      NothingYet(links, 0, survivors);
      for i := 0 to |orphans|
        invariant Valid() && Repairing(before, links, survivors, orphans, i)
        invariant links.Keys == before.Keys && pool == survivors + orphans[..i]
        invariant RepairsTo(before, links, survivors, orphans[..i])
      {
        ghost var middle := links;
        var orphan := orphans[i];
        if pool == [] {
          SeedsItself(before, links, survivors, orphans);
          EmptyPool(links, orphan);
        } else {
          PoolIsOthers(survivors, orphans, i);
          assert pool[0] in pool;
          RepairOne(orphan, pool);
          RepairedNext(before, middle, links, survivors, orphans, i);
        }
        RepairsNext(before, middle, links, survivors, orphans, i);
        pool := pool + [orphan];
        assert orphans[..i + 1] == orphans[..i] + [orphan];
      }
      AllRepaired(before, links, survivors, orphans);
      assert orphans[..|orphans|] == orphans;
    }

    /** One orphan: searched for from the pool, linked, and the neighbours without room shrunk. */
    method RepairOne(orphan: Key, pool: seq<Key>)
      requires Valid() && orphan in links && (forall s :: s in pool ==> s in links) &&
               exists s :: s in pool && s != orphan
      modifies this`links, this`chains
      ensures Valid() && NoneIsolated(old(links), links) && links.Keys == old(links).Keys && links[orphan] != []
      ensures old(links)[orphan] == [] && (forall s :: s in pool ==> old(links)[s] == []) ==>
                exists s :: s in pool && s in links && links[s] != []
      ensures RepairStep(old(links), links, orphan, pool)
    {
      hide Sound, Chained, Linked, Found, ShrinksTo, RepairStep;
      ghost var before := links;
      var chosen := SelectNeighbours(orphan, pool);
      assert chosen[0] in chosen;
      var overflowed := ReplaceNeighbours(orphan, chosen);
      ghost var replaced := links;
      if before[orphan] == [] && forall s :: s in pool ==> before[s] == [] {
        EmptyLinksBack(before, links, cap, orphan, chosen, overflowed, chosen[0]);
      }
      NeverIsolated(before, before, replaced, orphan, chosen);
      WithheldAre(before, links, cap, orphan, chosen, overflowed);
      ShrinkNeighbours(orphan, overflowed);
      NoneIsolatedAcross(before, replaced, links);
      RepairedBy(before, replaced, links, orphan, pool, chosen, overflowed);
    }
  }

  function LayerOf(links: map<Key, seq<Key>>, distances: map<(Key, Key), real>): (g: Layer) {
    Layer(links, distances, {})
  }

  /** A node of the layer as the query: the distances are those between it and the others. */
  function QueryOf(links: map<Key, seq<Key>>, distances: map<(Key, Key), real>, node: Key): (q: Query) {
    Query(Some(node), map k | k in links :: LayerOf(links, distances).Between(node, k))
  }

  lemma SeededAre(links: map<Key, seq<Key>>, distances: map<(Key, Key), real>, node: Key, nodes: seq<Key>)
    requires exists c :: c in nodes && c != node
    ensures VisibleSeeds(LayerOf(links, distances), QueryOf(links, distances, node), KeySet(nodes)) ==
            KeySet(nodes) - {node}
    ensures KeySet(nodes) - {node} != {}
  {
    var c :| c in nodes && c != node;
    assert c in KeySet(nodes) - {node};
  }

  lemma SelectedAre(g: Layer, q: Query, work: set<Key>, m: nat, chosen: seq<Key>)
    requires Selects(g, q, work, m, chosen)
    ensures |chosen| <= m && (forall c :: c in chosen ==> c in work) &&
            forall i, j :: 0 <= i < j < |chosen| ==> chosen[i] != chosen[j]
  {
  }

  lemma OwnListIsSound(links: map<Key, seq<Key>>, cap: nat, v: Key)
    requires Sound(links, cap) && v in links
    ensures v !in links[v] && forall c :: c in links[v] ==> c in links
  {
  }

  /** The chain of each node records exactly the nodes that link to it without being linked back. */
  ghost predicate Chained(links: map<Key, seq<Key>>, chains: map<Key, set<Key>>) {
    && chains.Keys == links.Keys
    && forall u, v :: u in chains ==> (v in chains[u] <==> v in links && u in links[v] && v !in links[u])
  }

  lemma ChainKeys(links: map<Key, seq<Key>>, chains: map<Key, set<Key>>)
    requires Chained(links, chains)
    ensures chains.Keys == links.Keys
  {
  }

  /** The chains of node and of v agree with the link from node to v being there or not. */
  ghost predicate PairFits(links: map<Key, seq<Key>>, chains: map<Key, set<Key>>, node: Key, v: Key, linked: bool)
    requires v in links && v in chains && node in chains
  {
    (v in chains[node] <==> node in links[v] && !linked) && (node in chains[v] <==> linked && node !in links[v])
  }

  /** The chains are right if node is linked to exactly the named ones. */
  ghost predicate Fits(links: map<Key, seq<Key>>, chains: map<Key, set<Key>>, node: Key, named: set<Key>) {
    && chains.Keys == links.Keys && node in links && node !in chains[node] && chains[node] <= links.Keys
    && (forall v :: v in links && v != node ==> PairFits(links, chains, node, v, v in named))
    && forall u, v :: u in chains && u != node && v != node ==>
         (v in chains[u] <==> v in links && u in links[v] && v !in links[u])
  }

  lemma OwnLinksFit(links: map<Key, seq<Key>>, chains: map<Key, set<Key>>, cap: nat, node: Key)
    requires Sound(links, cap) && Chained(links, chains) && node in links
    ensures Fits(links, chains, node, KeySet(links[node])) && chains.Keys == links.Keys
  {
  }

  lemma FitsIsChained(links: map<Key, seq<Key>>, chains: map<Key, set<Key>>, cap: nat, node: Key)
    requires Sound(links, cap) && node in links && Fits(links, chains, node, KeySet(links[node]))
    ensures Chained(links, chains)
  {
    forall u, v | u in chains ensures v in chains[u] <==> v in links && u in links[v] && v !in links[u] {
      if u == node && v in links && v != node {
        assert PairFits(links, chains, node, v, v in links[node]);
      } else if v == node && u != node {
        assert PairFits(links, chains, node, u, u in links[node]);
      }
    }
  }

  lemma DropFits(links: map<Key, seq<Key>>, chains: map<Key, set<Key>>, node: Key, named: set<Key>, c: Key)
    requires c in named && c != node && c in links && Fits(links, chains, node, named)
    ensures chains.Keys == links.Keys && node in chains
    ensures if node in links[c] then Fits(links, chains[node := chains[node] + {c}], node, named - {c})
            else Fits(links, chains[c := chains[c] - {node}], node, named - {c})
  {
    assert PairFits(links, chains, node, c, true);
  }

  /** Writing the list: of the wanted ones, those in the chain link back already. */
  lemma WriteFits(links: map<Key, seq<Key>>, chains: map<Key, set<Key>>, cap: nat, node: Key, named: set<Key>,
                  want: seq<Key>)
    requires Chosable(links, node, want, cap) && node in chains && Fits(links, chains, node, named)
    ensures Fits(links[node := want], chains[node := chains[node] - KeySet(want)], node,
                 named + KeySet(want) * chains[node])
  {
    var links', chains' := links[node := want], chains[node := chains[node] - KeySet(want)];
    forall v | v in links' && v != node
      ensures PairFits(links', chains', node, v, v in named + KeySet(want) * chains[node])
    {
      assert PairFits(links, chains, node, v, v in named);
    }
  }

  /** A new neighbour v links back, or records node if it has no room. */
  lemma LinkFits(links: map<Key, seq<Key>>, chains: map<Key, set<Key>>, node: Key, named: set<Key>, v: Key)
    requires v !in named && v != node && v in links && node in chains && v !in chains[node] &&
             Fits(links, chains, node, named)
    ensures chains.Keys == links.Keys && node !in links[v]
    ensures Fits(links[v := links[v] + [node]], chains, node, named + {v})
    ensures Fits(links, chains[v := chains[v] + {node}], node, named + {v})
  {
    assert PairFits(links, chains, node, v, false);
    LinkBackFits(links, chains, node, named, v);
  }

  lemma LinkBackFits(links: map<Key, seq<Key>>, chains: map<Key, set<Key>>, node: Key, named: set<Key>, v: Key)
    requires v !in named && v != node && v in links && node in chains && v !in chains[node] &&
             Fits(links, chains, node, named)
    ensures Fits(links[v := links[v] + [node]], chains, node, named + {v})
  {
    var links' := links[v := links[v] + [node]];
    assert PairFits(links, chains, node, v, false);
    forall w | w in links' && w != node ensures PairFits(links', chains, node, w, w in named + {v}) {
      assert PairFits(links, chains, node, w, w in named);
    }
  }

  lemma RecordedLinkBack(links: map<Key, seq<Key>>, chains: map<Key, set<Key>>, cap: nat, node: Key)
    requires Sound(links, cap) && Chained(links, chains) && node in links && node in chains
    ensures forall v :: v in chains[node] ==> v in links && node in links[v] && v !in links[node]
  {
  }

  lemma NextIsNamed(links: map<Key, seq<Key>>, cap: nat, node: Key, i: nat)
    requires Sound(links, cap) && node in links && i < |links[node]|
    ensures links[node][i] in links && links[node][i] != node && links[node][i] !in links[node][..i]
  {
    assert links[node][i] in links[node];
  }

  lemma NextIsFresh(links: map<Key, seq<Key>>, cap: nat, node: Key, want: seq<Key>, t: nat)
    requires Chosable(links, node, want, cap) && t < |want|
    ensures want[t] in links && want[t] != node && want[t] !in want[..t]
  {
    assert want[t] in want;
  }

  /** Whoever had a link still has one. */
  ghost predicate NoneIsolated(before: map<Key, seq<Key>>, after: map<Key, seq<Key>>) {
    after.Keys == before.Keys && forall u :: u in before && before[u] != [] ==> after[u] != []
  }

  ghost predicate AllLinked(links: map<Key, seq<Key>>, nodes: seq<Key>) {
    forall n :: n in nodes ==> n in links && links[n] != []
  }

  /** Nobody has been isolated, and the orphans seen are linked, but for a first one that nobody
      could be connected to yet. */
  ghost predicate Repairing(before: map<Key, seq<Key>>, links: map<Key, seq<Key>>, survivors: seq<Key>,
                            orphans: seq<Key>, i: nat)
    requires i <= |orphans|
  {
    && NoneIsolated(before, links) && (i <= 1 && survivors == [] ==> links == before)
    && (survivors != [] || i >= 2 || i == 0 ==> AllLinked(links, orphans[..i]))
  }

  lemma NothingRepaired(links: map<Key, seq<Key>>, survivors: seq<Key>, orphans: seq<Key>)
    ensures Repairing(links, links, survivors, orphans, 0)
  {
  }

  lemma SeedsItself(before: map<Key, seq<Key>>, links: map<Key, seq<Key>>, survivors: seq<Key>, orphans: seq<Key>)
    requires |orphans| >= 1 && survivors == [] && Repairing(before, links, survivors, orphans, 0)
    ensures Repairing(before, links, survivors, orphans, 1)
  {
  }

  lemma RepairedNext(before: map<Key, seq<Key>>, middle: map<Key, seq<Key>>, links: map<Key, seq<Key>>,
                     survivors: seq<Key>, orphans: seq<Key>, i: nat)
    requires i < |orphans| && survivors + orphans[..i] != [] && Repairing(before, middle, survivors, orphans, i)
    requires NoneIsolated(middle, links) && orphans[i] in links && links[orphans[i]] != []
    requires forall j :: 0 <= j < |orphans| ==> orphans[j] in before && before[orphans[j]] == []
    requires orphans[i] in middle && middle[orphans[i]] == [] &&
             (forall s :: s in survivors + orphans[..i] ==> s in middle && middle[s] == []) ==>
               exists s :: s in survivors + orphans[..i] && s in links && links[s] != []
    ensures Repairing(before, links, survivors, orphans, i + 1)
  {
    hide NoneIsolated, AllLinked;
    NoneIsolatedAcross(before, middle, links);
    if survivors == [] && i == 1 {
      assert survivors + orphans[..1] == [orphans[0]];
      assert exists s :: s in survivors + orphans[..i] && s in links && links[s] != [];
      FirstTwoLinked(links, orphans);
    } else {
      OneMoreLinked(middle, links, orphans, i);
    }
  }

  lemma AllRepaired(before: map<Key, seq<Key>>, links: map<Key, seq<Key>>, survivors: seq<Key>, orphans: seq<Key>)
    requires Repairing(before, links, survivors, orphans, |orphans|)
    ensures NoneIsolated(before, links) && (survivors == [] && |orphans| == 1 ==> links == before)
    ensures !(survivors == [] && |orphans| == 1) ==> AllLinked(links, orphans)
  {
    hide NoneIsolated, AllLinked;
    assert orphans[..|orphans|] == orphans;
  }

  lemma FirstTwoLinked(links: map<Key, seq<Key>>, orphans: seq<Key>)
    requires |orphans| >= 2 && orphans[0] in links && links[orphans[0]] != [] && orphans[1] in links &&
             links[orphans[1]] != []
    ensures AllLinked(links, orphans[..2])
  {
  }

  lemma OneMoreLinked(before: map<Key, seq<Key>>, after: map<Key, seq<Key>>, orphans: seq<Key>, i: nat)
    requires i < |orphans| && NoneIsolated(before, after) && AllLinked(before, orphans[..i])
    requires orphans[i] in after && after[orphans[i]] != []
    ensures AllLinked(after, orphans[..i + 1])
  {
    assert orphans[..i + 1] == orphans[..i] + [orphans[i]];
  }

  lemma NoneIsolatedAcross(a: map<Key, seq<Key>>, b: map<Key, seq<Key>>, c: map<Key, seq<Key>>)
    requires NoneIsolated(a, b) && NoneIsolated(b, c)
    ensures NoneIsolated(a, c)
  {
  }

  /** A replacement writes the node's own list; others at most gain the link back. */
  ghost predicate Replaced(before: map<Key, seq<Key>>, after: map<Key, seq<Key>>, node: Key, want: seq<Key>) {
    && node in before && after.Keys == before.Keys && after[node] == want
    && forall u :: u in before && u != node ==> after[u] == before[u] || (u in want && after[u] == before[u] + [node])
  }

  /** v is a new neighbour of node that does not link to it. */
  ghost predicate MustLink(before: map<Key, seq<Key>>, node: Key, v: Key) {
    node in before && v in before && v !in before[node] && node !in before[v]
  }

  /** Those of the new neighbours that have no room for a link back. */
  ghost function WithheldOf(before: map<Key, seq<Key>>, cap: nat, node: Key, vs: seq<Key>): seq<Key> {
    if vs == [] then []
    else
      var front, v := vs[..|vs| - 1], vs[|vs| - 1];
      WithheldOf(before, cap, node, front) + if MustLink(before, node, v) && |before[v]| >= cap then [v] else []
  }

  /** Node's list is the wanted one, and the first t wanted neighbours have been seen to: a new one
      that did not link to node gains the link back, at its end, or had no room and is withheld.
      All other lists are as before. */
  ghost predicate Linked(before: map<Key, seq<Key>>, links: map<Key, seq<Key>>, cap: nat, node: Key, want: seq<Key>,
                         t: nat, overflowed: seq<Key>)
    requires t <= |want|
  {
    && node in before && Chosable(before, node, want, cap) && links.Keys == before.Keys && links[node] == want
    && (forall u :: u in before && u != node ==>
          links[u] == if u in want[..t] && MustLink(before, node, u) && |before[u]| < cap
                      then before[u] + [node] else before[u])
    && overflowed == WithheldOf(before, cap, node, want[..t])
  }

  lemma NothingLinked(before: map<Key, seq<Key>>, links: map<Key, seq<Key>>, cap: nat, node: Key, want: seq<Key>)
    requires node in before && Chosable(before, node, want, cap) && links == before[node := want]
    ensures Linked(before, links, cap, node, want, 0, [])
  {
  }

  lemma {:induction false} WithheldIn(before: map<Key, seq<Key>>, cap: nat, node: Key, vs: seq<Key>, v: Key)
    ensures v in WithheldOf(before, cap, node, vs) <==> v in vs && MustLink(before, node, v) && |before[v]| >= cap
    decreases |vs|
  {
    if vs != [] {
      WithheldIn(before, cap, node, vs[..|vs| - 1], v);
      assert vs == vs[..|vs| - 1] + [vs[|vs| - 1]];
    }
  }

  lemma WithheldAre(before: map<Key, seq<Key>>, links: map<Key, seq<Key>>, cap: nat, node: Key, want: seq<Key>,
                    overflowed: seq<Key>)
    requires Linked(before, links, cap, node, want, |want|, overflowed)
    ensures forall v :: v in overflowed ==> v in links && v != node
  {
    forall v | v in overflowed ensures v in links && v != node {
      WithheldIn(before, cap, node, want[..|want|], v);
    }
  }

  /** The next wanted neighbour. */
  lemma LinkNext(before: map<Key, seq<Key>>, links: map<Key, seq<Key>>, cap: nat, node: Key, want: seq<Key>, t: nat,
                 overflowed: seq<Key>)
    requires t < |want| && Linked(before, links, cap, node, want, t, overflowed)
    ensures var v := want[t];
            && node in before && v in links && node in links && v != node && v in before && links[v] == before[v]
            && if !MustLink(before, node, v) then Linked(before, links, cap, node, want, t + 1, overflowed)
               else if |links[v]| >= cap then Linked(before, links, cap, node, want, t + 1, overflowed + [v])
               else Linked(before, links[v := links[v] + [node]], cap, node, want, t + 1, overflowed)
  {
    var v := want[t];
    assert v in want && v !in want[..t];
    assert want[..t + 1] == want[..t] + [v];
    assert want[..t + 1][..t] == want[..t];
  }

  lemma LinkedIsReplaced(before: map<Key, seq<Key>>, links: map<Key, seq<Key>>, cap: nat, node: Key, want: seq<Key>,
                         overflowed: seq<Key>)
    requires Linked(before, links, cap, node, want, |want|, overflowed)
    ensures Replaced(before, links, node, want)
  {
  }

  /** A neighbour with an empty list that was not linked before ends up linked. */
  lemma EmptyLinksBack(before: map<Key, seq<Key>>, links: map<Key, seq<Key>>, cap: nat, node: Key, want: seq<Key>,
                       overflowed: seq<Key>, v: Key)
    requires cap >= 1 && Linked(before, links, cap, node, want, |want|, overflowed)
    requires v in want && v !in before[node] && v in before && before[v] == []
    ensures v in links && node in links[v]
  {
    assert want[..|want|] == want;
  }

  lemma NeverIsolated(before: map<Key, seq<Key>>, middle: map<Key, seq<Key>>, after: map<Key, seq<Key>>, node: Key,
                      want: seq<Key>)
    requires NoneIsolated(before, middle) && Replaced(middle, after, node, want) && want != []
    ensures NoneIsolated(before, after)
  {
  }

  lemma ListReplaced(links: map<Key, seq<Key>>, cap: nat, node: Key, want: seq<Key>)
    requires Sound(links, cap) && node in links && Chosable(links, node, want, cap)
    ensures Sound(links[node := want], cap)
  {
  }

  lemma LinkedBack(links: map<Key, seq<Key>>, cap: nat, v: Key, node: Key)
    requires Sound(links, cap) && v in links && node in links && v != node && node !in links[v] && |links[v]| < cap
    ensures Sound(links[v := links[v] + [node]], cap)
  {
    var list := links[v] + [node];
    forall i, j | 0 <= i < j < |list| ensures list[i] != list[j] {
      if j == |links[v]| {
        assert list[i] in links[v];
      }
    }
  }

  lemma PoolIsOthers(survivors: seq<Key>, orphans: seq<Key>, i: nat)
    requires i < |orphans| && survivors + orphans[..i] != [] && orphans[i] !in survivors
    requires forall i, j :: 0 <= i < j < |orphans| ==> orphans[i] != orphans[j]
    ensures (survivors + orphans[..i])[0] != orphans[i]
  {
  }

  /** Links lead to other live nodes, each once, and no more than cap of them. */
  ghost predicate Sound(links: map<Key, seq<Key>>, cap: nat) {
    forall u :: u in links ==>
      && |links[u]| <= cap && (forall i, j :: 0 <= i < j < |links[u]| ==> links[u][i] != links[u][j])
      && forall v :: v in links[u] ==> v in links && v != u
  }

  /** A list that node may be given. */
  ghost predicate Chosable(links: map<Key, seq<Key>>, node: Key, chosen: seq<Key>, m: nat) {
    && |chosen| <= m && (forall i, j :: 0 <= i < j < |chosen| ==> chosen[i] != chosen[j])
    && forall c :: c in chosen ==> c in links && c != node
  }

  lemma SoundIsClosed(g: Layer, cap: nat)
    requires Sound(g.links, cap)
    ensures Closed(g)
  {
  }

  lemma {:induction false} WalkIsClosedIn(g: Layer, q: Query, seeds: set<Key>, p: seq<Key>, i: nat)
    requires Walk(g, q, seeds, p) && i < |p| && forall s :: s in seeds ==> Neighbours(g, s) <= seeds
    ensures p[i] in seeds
  {
    if i > 0 {
      WalkIsClosedIn(g, q, seeds, p, i - 1);
      assert p[i] in Neighbours(g, p[i - 1]);
    }
  }

  lemma StaysAtSeeds(g: Layer, q: Query, seeds: set<Key>, k: Key)
    requires Reachable(g, q, seeds, k) && forall s :: s in seeds ==> s in g.links && g.links[s] == []
    ensures k in seeds
  {
    var p :| Walk(g, q, seeds, p) && p[|p| - 1] == k;
    WalkIsClosedIn(g, q, seeds, p, |p| - 1);
  }

  /** With all nodes visible and a seed besides the query, the result is not empty, and everything
      in it can be reached. */
  lemma ResultsExist(g: Layer, q: Query, seeds: set<Key>, ef: nat, evaluated: set<Key>, expanded: set<Key>,
                     result: set<Key>)
    requires Settled(g, q, seeds, ef, evaluated, expanded, result) && ef >= 1 && g.hidden == {}
    requires exists s :: s in seeds && s !in Self(q)
    ensures result != {} && forall r :: r in result ==> Reachable(g, q, seeds, r)
  {
    var s :| s in seeds && s !in Self(q);
    assert s in evaluated;
  }
}
