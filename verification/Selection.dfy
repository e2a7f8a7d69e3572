/** Algorithm 4 of the HNSW paper, SELECT-NEIGHBORS-HEURISTIC, as a recursion over the
    candidates in the order they are taken, and what that recursion selects. */
module Selection {
  import opened LayerSpec

  datatype Candidate = Candidate(node: Key, distance: real)

  ghost predicate Ascending(order: seq<Candidate>) {
    forall i, j :: 0 <= i < j < |order| ==> order[i].distance <= order[j].distance
  }

  /** Some selected node is nearer to e than the query is. */
  predicate Dominated(g: Layer, e: Candidate, chosen: seq<Key>) {
    exists i :: 0 <= i < |chosen| && g.Between(e.node, chosen[i]) < e.distance
  }

  lemma DominatedIs(g: Layer, e: Candidate, chosen: seq<Key>)
    ensures Dominated(g, e, chosen) <==> exists i :: 0 <= i < |chosen| && g.Between(e.node, chosen[i]) < e.distance
  {
  }

  function Chosen(g: Layer, order: seq<Candidate>, m: nat): (chosen: seq<Key>)
    ensures |chosen| <= m
  {
    if order == [] then []
    else
      var before := Chosen(g, order[..|order| - 1], m);
      var e := order[|order| - 1];
      if |before| >= m || Dominated(g, e, before) then before else before + [e.node]
  }

  /** The candidates that were looked at and turned down, in the same order. */
  function Discarded(g: Layer, order: seq<Candidate>, m: nat): (discarded: seq<Key>) {
    if order == [] then []
    else
      var front := order[..|order| - 1];
      var before := Chosen(g, front, m);
      var e := order[|order| - 1];
      if |before| < m && Dominated(g, e, before)
      then Discarded(g, front, m) + [e.node]
      else Discarded(g, front, m)
  }

  /** One more candidate taken while fewer than m are chosen. */
  lemma TakeNext(g: Layer, order: seq<Candidate>, e: Candidate, m: nat)
    requires |Chosen(g, order, m)| < m
    ensures var chosen, discarded := Chosen(g, order, m), Discarded(g, order, m);
            && Chosen(g, order + [e], m) ==
                 (if Dominated(g, e, chosen) then chosen else chosen + [e.node])
            && Discarded(g, order + [e], m) ==
                 (if Dominated(g, e, chosen) then discarded + [e.node] else discarded)
  {
    assert (order + [e])[..|order|] == order;
  }

  function Backfill(chosen: seq<Key>, discarded: seq<Key>, m: nat): (r: seq<Key>)
    requires |chosen| <= m
    ensures chosen <= r && |r| <= m
    ensures r <= chosen + discarded && (|r| == m || r == chosen + discarded)
  {
    if m - |chosen| <= |discarded| then chosen + discarded[..m - |chosen|] else chosen + discarded
  }

  /** No node is nearer to a node selected before it than to the query. */
  ghost predicate Diverse(g: Layer, chosen: seq<Key>, q: Query) {
    forall i, j :: 0 <= i < j < |chosen| ==> !(g.Between(chosen[j], chosen[i]) < q.Dist(chosen[j]))
  }

  lemma {:induction false} ChosenIsDiverse(g: Layer, order: seq<Candidate>, m: nat, q: Query)
    requires forall i :: 0 <= i < |order| ==> order[i].distance == q.Dist(order[i].node)
    ensures Diverse(g, Chosen(g, order, m), q)
  {
    if order != [] {
      var e := order[|order| - 1];
      ChosenIsDiverse(g, order[..|order| - 1], m, q);
      assert e.distance == q.Dist(e.node);
    }
  }

  /** Chosen nodes come in the order they were taken: nearest first. */
  lemma {:induction false} ChosenIsAscending(g: Layer, order: seq<Candidate>, m: nat, q: Query)
    requires Ascending(order)
    requires forall i :: 0 <= i < |order| ==> order[i].distance == q.Dist(order[i].node)
    ensures var c := Chosen(g, order, m); forall i, j :: 0 <= i < j < |c| ==> q.Dist(c[i]) <= q.Dist(c[j])
  {
    if order != [] {
      var front := order[..|order| - 1];
      ChosenIsAscending(g, front, m, q);
      var before, c := Chosen(g, front, m), Chosen(g, order, m);
      forall i, j | 0 <= i < j < |c| ensures q.Dist(c[i]) <= q.Dist(c[j]) {
        assert c[i] == before[i];
        var k := ChosenWasTaken(g, front, m, i);
        assert order[k].distance <= order[|order| - 1].distance;
        assert j < |before| ==> c[j] == before[j];
      }
    }
  }

  lemma {:induction false} ChosenWasTaken(g: Layer, order: seq<Candidate>, m: nat, i: nat) returns (k: nat)
    requires i < |Chosen(g, order, m)|
    ensures k < |order| && order[k].node == Chosen(g, order, m)[i]
  {
    var front := order[..|order| - 1];
    if i < |Chosen(g, front, m)| {
      k := ChosenWasTaken(g, front, m, i);
    } else {
      k := |order| - 1;
    }
  }

  /** Taking more candidates never takes a chosen one back. */
  lemma {:induction false} ChosenOnlyGrows(g: Layer, order: seq<Candidate>, m: nat, i: nat)
    requires i <= |order|
    ensures Chosen(g, order[..i], m) <= Chosen(g, order, m)
    decreases |order|
  {
    if i < |order| {
      var front := order[..|order| - 1];
      ChosenOnlyGrows(g, front, m, i);
      assert front[..i] == order[..i];
    } else {
      assert order[..i] == order;
    }
  }

  /** A candidate is left out only if m were chosen before it, or one of those chosen before it is
      nearer to it than the query is. */
  lemma LeftOutIsDominated(g: Layer, order: seq<Candidate>, m: nat, i: nat)
    requires i < |order| && order[i].node !in Chosen(g, order, m)
    ensures Chosen(g, order[..i], m) <= Chosen(g, order, m)
    ensures |Chosen(g, order[..i], m)| == m ||
            exists c :: c in Chosen(g, order[..i], m) && g.Between(order[i].node, c) < order[i].distance
  {
    ChosenOnlyGrows(g, order, m, i);
    ChosenOnlyGrows(g, order, m, i + 1);
    var before, after := Chosen(g, order[..i], m), Chosen(g, order[..i + 1], m);
    assert order[..i + 1][..i] == order[..i] && order[..i + 1][i] == order[i];
    assert order[i].node !in after;
    if |before| < m {
      var k :| 0 <= k < |before| && g.Between(order[i].node, before[k]) < order[i].distance;
      assert before[k] in before;
    }
  }

  /** The nearest candidate is never dominated, so a non-empty pool yields a neighbour. */
  lemma {:induction false} NearestIsChosen(g: Layer, order: seq<Candidate>, m: nat)
    requires order != [] && m > 0
    ensures Chosen(g, order, m) != [] && Chosen(g, order, m)[0] == order[0].node
  {
    if |order| > 1 {
      NearestIsChosen(g, order[..|order| - 1], m);
    }
  }

  function NodesOf(order: seq<Candidate>): (ns: seq<Key>) {
    if order == [] then [] else NodesOf(order[..|order| - 1]) + [order[|order| - 1].node]
  }

  /** Chosen and discarded together are everything that was looked at before m were found. */
  lemma {:induction false} ChosenAndDiscardedAreAll(g: Layer, order: seq<Candidate>, m: nat)
    requires |Chosen(g, order, m)| < m
    ensures multiset(Chosen(g, order, m)) + multiset(Discarded(g, order, m)) == multiset(NodesOf(order))
  {
    if order != [] {
      ChosenAndDiscardedAreAll(g, order[..|order| - 1], m);
    }
  }

  lemma ChosenGrows(g: Layer, order: seq<Candidate>, m: nat)
    requires order != []
    ensures var before := Chosen(g, order[..|order| - 1], m);
            Chosen(g, order, m) == before || Chosen(g, order, m) == before + [order[|order| - 1].node]
  {
  }

  lemma {:induction false} ChosenDistinct(g: Layer, order: seq<Candidate>, m: nat)
    requires forall i, j :: 0 <= i < j < |order| ==> order[i].node != order[j].node
    ensures var c := Chosen(g, order, m); forall i, j :: 0 <= i < j < |c| ==> c[i] != c[j]
    decreases |order|
  {
    hide Chosen;
    if order == [] {
      NoneChosen(g, m);
    } else {
      var front, last := order[..|order| - 1], order[|order| - 1].node;
      ChosenDistinct(g, front, m);
      ChosenGrows(g, order, m);
      var before := Chosen(g, front, m);
      forall i | 0 <= i < |before| ensures before[i] != last {
        var k := ChosenWasTaken(g, front, m, i);
        assert front[k] == order[k];
      }
      OneMoreDistinct(before, last);
    }
  }

  lemma NoneChosen(g: Layer, m: nat)
    ensures Chosen(g, [], m) == []
  {
  }

  lemma OneMoreDistinct(before: seq<Key>, last: Key)
    requires forall i, j :: 0 <= i < j < |before| ==> before[i] != before[j]
    requires forall i :: 0 <= i < |before| ==> before[i] != last
    ensures var c := before + [last]; forall i, j :: 0 <= i < j < |c| ==> c[i] != c[j]
  {
  }

  /** Why w may be left out: a node selected no later is nearer to it than the query is, or m are
      selected and none of them is farther. */
  ghost predicate TurnedDown(g: Layer, q: Query, m: nat, chosen: seq<Key>, w: Key) {
    || (exists c :: c in chosen && g.Between(w, c) < q.Dist(w) && q.Dist(c) <= q.Dist(w))
    || (|chosen| == m && forall c :: c in chosen ==> q.Dist(c) <= q.Dist(w))
  }

  /** What a selection of neighbours from `work` is, without the order of the candidates: at most m
      of them, each once and nearest first, diverse, and nothing left out without cause. */
  ghost predicate Selects(g: Layer, q: Query, work: set<Key>, m: nat, chosen: seq<Key>) {
    && |chosen| <= m && (forall c :: c in chosen ==> c in work)
    && (forall i, j :: 0 <= i < j < |chosen| ==> chosen[i] != chosen[j])
    && (forall i, j :: 0 <= i < j < |chosen| ==> q.Dist(chosen[i]) <= q.Dist(chosen[j]))
    && Diverse(g, chosen, q)
    && forall w :: w in work && w !in chosen ==> TurnedDown(g, q, m, chosen, w)
  }

  lemma NoFarther(g: Layer, q: Query, work: set<Key>, m: nat, chosen: seq<Key>, w: Key) returns (c: Key)
    requires Selects(g, q, work, m, chosen) && w in work && m > 0
    ensures c in chosen && q.Dist(c) <= q.Dist(w)
  {
    if w in chosen {
      c := w;
    } else if k :| k in chosen && g.Between(w, k) < q.Dist(w) && q.Dist(k) <= q.Dist(w) {
      c := k;
    } else {
      assert TurnedDown(g, q, m, chosen, w);
      c := chosen[0];
    }
  }

  /** The nearest candidate is always selected, first. */
  lemma NearestIsSelected(g: Layer, q: Query, work: set<Key>, m: nat, chosen: seq<Key>)
    requires Selects(g, q, work, m, chosen) && work != {} && m > 0
    ensures chosen != [] && chosen[0] in work && forall w :: w in work ==> q.Dist(chosen[0]) <= q.Dist(w)
  {
    var some :| some in work;
    var s := NoFarther(g, q, work, m, chosen, some);
    forall w | w in work ensures q.Dist(chosen[0]) <= q.Dist(w) {
      var c := NoFarther(g, q, work, m, chosen, w);
      var i :| 0 <= i < |chosen| && chosen[i] == c;
    }
  }

  /** What is left out although it is nearer than a selected node, or although there was room, was
      turned down for a selected one. */
  lemma TurnedDownBy(g: Layer, q: Query, work: set<Key>, m: nat, chosen: seq<Key>, w: Key, i: nat) returns (k: nat)
    requires Selects(g, q, work, m, chosen) && w in work && w !in chosen
    requires |chosen| < m || (i < |chosen| && q.Dist(w) < q.Dist(chosen[i]))
    ensures k < |chosen| && g.Between(w, chosen[k]) < q.Dist(w) && q.Dist(chosen[k]) <= q.Dist(w)
    ensures i < |chosen| && q.Dist(w) < q.Dist(chosen[i]) ==> k < i
  {
    assert i < |chosen| ==> chosen[i] in chosen;
    assert TurnedDown(g, q, m, chosen, w);
    var c :| c in chosen && g.Between(w, c) < q.Dist(w) && q.Dist(c) <= q.Dist(w);
    k :| 0 <= k < |chosen| && chosen[k] == c;
  }

  lemma SelectedIsSound(g: Layer, q: Query, work: set<Key>, m: nat, chosen: seq<Key>, i: nat)
    requires Selects(g, q, work, m, chosen) && i < |chosen|
    ensures i < m && chosen[i] in work
    ensures forall j :: 0 <= j < i ==>
              chosen[j] != chosen[i] && !(g.Between(chosen[i], chosen[j]) < q.Dist(chosen[i]))
  {
    assert chosen[i] in chosen;
  }

  /** Two selections that agree on their first i nodes: the next one of b is not the nearer. */
  lemma NextIsNoNearer(g: Layer, q: Query, work: set<Key>, m: nat, a: seq<Key>, b: seq<Key>, i: nat)
    requires Selects(g, q, work, m, a) && Selects(g, q, work, m, b)
    requires i < |a| && i < |b| && forall j :: 0 <= j < i ==> a[j] == b[j]
    ensures q.Dist(a[i]) <= q.Dist(b[i])
  {
    if q.Dist(b[i]) < q.Dist(a[i]) {
      assert b[i] in b;
      forall k | 0 <= k < |a| ensures a[k] != b[i] {
        assert k < i ==> a[k] == b[k];
      }
      var k := TurnedDownBy(g, q, work, m, a, b[i], i);
      assert false;
    }
  }

  lemma {:induction false} SelectedBothTimes(g: Layer, q: Query, work: set<Key>, m: nat, a: seq<Key>, b: seq<Key>,
                                             i: nat)
    requires Selects(g, q, work, m, a) && Selects(g, q, work, m, b)
    requires forall v, w :: v in work && w in work && v != w ==> q.Dist(v) != q.Dist(w)
    requires i < |a|
    ensures i < |b| && a[i] == b[i]
    decreases i
  {
    hide Selects;
    if i > 0 {
      SelectedBothTimes(g, q, work, m, a, b, i - 1);
    }
    forall j: nat | j < i ensures a[j] == b[j] {
      SelectedBothTimes(g, q, work, m, a, b, j);
    }
    SelectedIsSound(g, q, work, m, a, i);
    if i == |b| {
      forall k | 0 <= k < |b| ensures b[k] != a[i] {
        assert b[k] == a[k];
      }
      var k := TurnedDownBy(g, q, work, m, b, a[i], i);
      assert false;
    } else {
      SelectedIsSound(g, q, work, m, b, i);
      NextIsNoNearer(g, q, work, m, a, b, i);
      NextIsNoNearer(g, q, work, m, b, a, i);
    }
  }

  /** With no two candidates at the same distance, there is only one selection. */
  lemma SelectionIsUnique(g: Layer, q: Query, work: set<Key>, m: nat, a: seq<Key>, b: seq<Key>)
    requires Selects(g, q, work, m, a) && Selects(g, q, work, m, b)
    requires forall v, w :: v in work && w in work && v != w ==> q.Dist(v) != q.Dist(w)
    ensures a == b
  {
    hide Selects;
    if |a| > 0 {
      SelectedBothTimes(g, q, work, m, a, b, |a| - 1);
    }
    if |b| > 0 {
      SelectedBothTimes(g, q, work, m, b, a, |b| - 1);
    }
    forall i: nat | i < |a| ensures a[i] == b[i] {
      SelectedBothTimes(g, q, work, m, a, b, i);
    }
  }
}
