/** LayerOperations: greedy best-first search of one layer (Algorithm 2 of the HNSW paper)
    and the three ways of consuming its result, over the heaps and buffers the class keeps. */
module LayerOps {
  import opened LayerSpec
  import opened Selection

  datatype State = Init | Consume

  /** A priority queue of candidates, each node with its distance. Popping takes any extremal
      element, so nothing below depends on how ties are broken; pushing a node that is already
      queued is ruled out, so a queue never holds a node twice. */
  type Queue = map<Key, real>

  function Push(m: Queue, c: Candidate): (r: Queue)
    requires c.node !in m
    ensures |r| == |m| + 1
  {
    m[c.node := c.distance]
  }

  function Pop(m: Queue, k: Key): (r: Queue)
    requires k in m
    ensures |r| == |m| - 1
  {
    assert (m - {k}).Keys == m.Keys - {k};
    m - {k}
  }

  ghost predicate Scored(q: Query, m: Queue) {
    forall k :: k in m ==> m[k] == q.Dist(k)
  }

  lemma PushKeepsScored(q: Query, m: Queue, c: Candidate)
    requires Scored(q, m) && c == Score(q, c.node) && c.node !in m
    ensures Scored(q, Push(m, c)) && Push(m, c).Keys == m.Keys + {c.node}
  {
  }

  lemma PopKeepsScored(q: Query, m: Queue, k: Key)
    requires Scored(q, m) && k in m
    ensures Scored(q, Pop(m, k)) && Pop(m, k).Keys == m.Keys - {k}
  {
  }

  lemma FarthestBounds(q: Query, m: Queue, far: Key)
    requires Scored(q, m) && IsFarthest(m, far)
    ensures NoFartherThan(q, m.Keys, q.Dist(far)) && m[far] == q.Dist(far)
  {
  }

  predicate IsNearest(m: Queue, c: Key) {
    c in m && forall k :: k in m ==> m[c] <= m[k]
  }

  predicate IsFarthest(m: Queue, c: Key) {
    c in m && forall k :: k in m ==> m[k] <= m[c]
  }

  lemma {:induction false} ExtremesExist(m: Queue) returns (near: Key, far: Key)
    requires |m| > 0
    ensures IsNearest(m, near) && IsFarthest(m, far)
    decreases |m|
  {
    assert m.Keys != {};
    var x :| x in m;
    near, far := x, x;
    var rest := Pop(m, x);
    assert m.Keys == rest.Keys + {x};
    if |rest| > 0 {
      var n, f := ExtremesExist(rest);
      near := if m[n] < m[x] then n else x;
      far := if m[x] < m[f] then f else x;
      assert forall k :: k in m ==> k == x || (k in rest && rest[k] == m[k]);
    } else {
      assert rest.Keys == {};
    }
  }

  method Nearest(m: Queue) returns (c: Key)
    requires |m| > 0
    ensures IsNearest(m, c)
  {
    ghost var near, far := ExtremesExist(m);
    c :| c in m && IsNearest(m, c);
  }

  method Farthest(m: Queue) returns (c: Key)
    requires |m| > 0
    ensures IsFarthest(m, c)
  {
    ghost var near, far := ExtremesExist(m);
    c :| c in m && IsFarthest(m, c);
  }

  function Score(q: Query, k: Key): (c: Candidate) {
    Candidate(k, q.Dist(k))
  }

  /** `out` names each node of W once, nearest first. */
  ghost predicate Lists(q: Query, out: seq<Key>, W: set<Key>) {
    && KeySet(out) == W
    && (forall i, j :: 0 <= i < j < |out| ==> out[i] != out[j])
    && (forall i, j :: 0 <= i < j < |out| ==> q.Dist(out[i]) <= q.Dist(out[j]))
  }

  /** The loop invariant of the search: how the open nodes C and the result W relate to what
      has been evaluated (E) and expanded (X). `kept` is the size W may reach. */
  ghost predicate Frontier(g: Layer, q: Query, ef: nat, kept: nat,
                           E: set<Key>, X: set<Key>, C: set<Key>, W: set<Key>)
  {
    && X <= E && C <= E - X && W <= X + C
    && (|W| == kept || |W| < ef == kept)
    && (forall w :: w in W ==> g.Visible(w))
    && (forall e :: e in E && e !in X ==> e in C || (ef <= |W| && NoFartherThan(q, W, q.Dist(e))))
    && (forall e :: e in E && g.Visible(e) ==> e in W || (kept <= |W| && NoFartherThan(q, W, q.Dist(e))))
  }

  /** When everything still open is farther than the whole result, the search has settled. */
  lemma FrontierSettles(g: Layer, q: Query, seeds: set<Key>, ef: nat,
                        E: set<Key>, X: set<Key>, C: set<Key>, W: set<Key>)
    requires ef > 0 && Explored(g, q, seeds, E, X)
    requires Frontier(g, q, ef, Max(ef, |VisibleSeeds(g, q, seeds)|), E, X, C, W)
    requires C != {} ==> W != {}
    requires forall c :: c in C ==> NearerThan(q, W, q.Dist(c))
    ensures Settled(g, q, seeds, ef, E, X, W)
  {
    assert W <= X by {
      forall w | w in W && w in C ensures false {
        assert false;
      }
    }
  }

  /** A node turned away because the result is full and none of it is farther. */
  lemma RejectionKeepsFrontier(g: Layer, q: Query, ef: nat, kept: nat, E: set<Key>, X: set<Key>,
                               C: set<Key>, W: set<Key>, c: Key)
    requires Frontier(g, q, ef, kept, E, X, C, W) && c !in E
    requires ef <= |W| && NoFartherThan(q, W, q.Dist(c))
    ensures Frontier(g, q, ef, kept, E + {c}, X, C, W)
  {
    assert C <= E + {c} - X;
  }

  /** A node admitted while the result still has room, or that is only traversed. */
  lemma AdmissionKeepsFrontier(g: Layer, q: Query, ef: nat, kept: nat, E: set<Key>, X: set<Key>,
                               C: set<Key>, W: set<Key>, c: Key)
    requires Frontier(g, q, ef, kept, E, X, C, W) && c !in E && ef <= kept
    ensures !g.Visible(c) ==> Frontier(g, q, ef, kept, E + {c}, X, C + {c}, W)
    ensures g.Visible(c) && |W| < ef ==> Frontier(g, q, ef, kept, E + {c}, X, C + {c}, W + {c})
  {
    assert |W + {c}| == |W| + 1;
  }

  /** A node that takes the place of the farthest result. */
  lemma EvictionKeepsFrontier(g: Layer, q: Query, ef: nat, kept: nat, E: set<Key>, X: set<Key>,
                              C: set<Key>, W: set<Key>, c: Key, worst: Key)
    requires Frontier(g, q, ef, kept, E, X, C, W) && c !in E && g.Visible(c) && ef <= |W|
    requires worst in W + {c} && NoFartherThan(q, W + {c}, q.Dist(worst))
    ensures Frontier(g, q, ef, kept, E + {c}, X, C + {c}, W + {c} - {worst})
  {
    var W' := W + {c} - {worst};
    assert |W + {c}| == |W| + 1 && |W'| == |W|;
  }

  /** Algorithm 2, line 13, for one freshly evaluated candidate. */
  method Admit(g: Layer, q: Query, candidates: Queue, results: Queue, c: Candidate, ef: nat,
               ghost kept: nat, ghost E: set<Key>, ghost X: set<Key>)
    returns (candidates': Queue, results': Queue)
    requires 0 < ef <= kept && Searching(g, q, ef, kept, E, X, candidates, results)
    requires c == Score(q, c.node) && c.node !in E
    ensures Searching(g, q, ef, kept, E + {c.node}, X, candidates', results')
  {
    ghost var C, W := candidates.Keys, results.Keys;
    assert c.node !in C && c.node !in W;
    hide Scored, Frontier, IsFarthest, NoFartherThan;
    candidates', results' := candidates, results;
    if |results| >= ef {
      var worst := Farthest(results);
      FarthestBounds(q, results, worst);
      if !(c.distance < results[worst]) {
        BoundIsMonotone(q, W, q.Dist(worst), q.Dist(c.node));
        RejectionKeepsFrontier(g, q, ef, kept, E, X, C, W, c.node);
        return;
      }
    }
    PushKeepsScored(q, candidates, c);
    candidates' := Push(candidates, c);
    AdmissionKeepsFrontier(g, q, ef, kept, E, X, C, W, c.node);
    if g.Visible(c.node) {
      PushKeepsScored(q, results, c);
      results' := Push(results, c);
      if |results'| > ef {
        var worst := Farthest(results');
        FarthestBounds(q, results', worst);
        EvictionKeepsFrontier(g, q, ef, kept, E, X, C, W, c.node, worst);
        PopKeepsScored(q, results', worst);
        results' := Pop(results', worst);
      }
    }
  }

  /** The frontier invariant for the two heaps the class keeps. */
  ghost predicate Searching(g: Layer, q: Query, ef: nat, kept: nat,
                            E: set<Key>, X: set<Key>, candidates: Queue, results: Queue)
  {
    && Scored(q, candidates) && Scored(q, results)
    && Frontier(g, q, ef, kept, E, X, candidates.Keys, results.Keys)
  }

  function NodeSet(buf: seq<Candidate>): (s: set<Key>) {
    if buf == [] then {} else NodeSet(buf[..|buf| - 1]) + {buf[|buf| - 1].node}
  }

  lemma NodeSetAppend(buf: seq<Candidate>, c: Candidate)
    ensures NodeSet(buf + [c]) == NodeSet(buf) + {c.node}
  {
    assert (buf + [c])[..|buf|] == buf;
  }

  lemma NodeSetGrows(buf: seq<Candidate>, i: nat)
    requires i < |buf|
    ensures NodeSet(buf[..i + 1]) == NodeSet(buf[..i]) + {buf[i].node}
  {
    assert buf[..i + 1][..i] == buf[..i];
  }

  lemma {:induction false} NodeSetHas(buf: seq<Candidate>, k: Key)
    ensures k in NodeSet(buf) <==> exists i :: 0 <= i < |buf| && buf[i].node == k
  {
    if buf != [] {
      var front := buf[..|buf| - 1];
      NodeSetHas(front, k);
      if i :| 0 <= i < |front| && front[i].node == k {
        assert buf[i].node == k;
      }
      if i :| 0 <= i < |buf| && buf[i].node == k {
        assert i < |front| ==> front[i].node == k;
      }
    }
  }

  lemma {:induction false} SameNodes(a: seq<Candidate>, b: seq<Candidate>)
    requires |a| == |b| && forall i :: 0 <= i < |a| ==> a[i].node == b[i].node
    ensures NodeSet(a) == NodeSet(b)
  {
    if a != [] {
      SameNodes(a[..|a| - 1], b[..|b| - 1]);
    }
  }

  ghost predicate Distinct(buf: seq<Candidate>) {
    forall i, j :: 0 <= i < j < |buf| ==> buf[i].node != buf[j].node
  }

  lemma DistinctAppend(buf: seq<Candidate>, c: Candidate)
    requires Distinct(buf) && c.node !in NodeSet(buf)
    ensures Distinct(buf + [c])
  {
    NodeSetHas(buf, c.node);
  }

  /** Distinct candidates for exactly `nodes`, all scored. */
  ghost predicate Candidates(q: Query, buf: seq<Candidate>, nodes: set<Key>) {
    && (forall i :: 0 <= i < |buf| ==> buf[i].distance == q.Dist(buf[i].node))
    && Distinct(buf)
    && NodeSet(buf) == nodes
  }

  lemma NextIsNew(q: Query, buf: seq<Candidate>, nodes: set<Key>, i: nat)
    requires Candidates(q, buf, nodes) && i < |buf|
    ensures buf[i].node !in NodeSet(buf[..i]) && buf[i].node in nodes && buf[i] == Score(q, buf[i].node)
    ensures nodes != {}
  {
    NodeSetHas(buf, buf[i].node);
    NodeSetHas(buf[..i], buf[i].node);
  }

  lemma CandidatesAre(q: Query, buf: seq<Candidate>, nodes: set<Key>)
    requires Candidates(q, buf, nodes)
    ensures NodeSet(buf) == nodes && (nodes == {} ==> buf == [])
  {
  }

  /** The queue of a run of candidates. */
  method HeapOf(q: Query, buf: seq<Candidate>, ghost nodes: set<Key>) returns (heap: Queue)
    requires Candidates(q, buf, nodes)
    ensures Scored(q, heap) && heap.Keys == nodes
  {
    hide NodeSet, Candidates, Scored;
    heap := map[];
    assert Scored(q, heap) by { EmptyIsScored(q); }
    assert NodeSet(buf[..0]) == {} by { NodeSetEmpty(); }
    for i := 0 to |buf|
      invariant Scored(q, heap) && heap.Keys == NodeSet(buf[..i])
    {
      NextIsNew(q, buf, nodes, i);
      NodeSetGrows(buf, i);
      PushKeepsScored(q, heap, buf[i]);
      heap := Push(heap, buf[i]);
    }
    CandidatesAre(q, buf, nodes);
    assert buf[..|buf|] == buf;
  }

  lemma NodeSetEmpty()
    ensures NodeSet([]) == {}
  {
  }

  lemma EmptyIsScored(q: Query)
    ensures Scored(q, map[])
  {
  }

  /** The seeding loop: every entry point is traversed from, visible ones are results. */
  method SeedHeaps(g: Layer, q: Query, buf: seq<Candidate>, ghost nodes: set<Key>)
    returns (candidates: Queue, results: Queue)
    requires Candidates(q, buf, nodes)
    ensures Scored(q, candidates) && candidates.Keys == nodes
    ensures Scored(q, results) && results.Keys == (set k | k in nodes && g.Visible(k))
  {
    hide NodeSet, Candidates, Scored;
    candidates, results := map[], map[];
    assert Scored(q, candidates) by { EmptyIsScored(q); }
    assert NodeSet(buf[..0]) == {} by { NodeSetEmpty(); }
    for i := 0 to |buf|
      invariant Scored(q, candidates) && candidates.Keys == NodeSet(buf[..i])
      invariant Scored(q, results) && forall k :: k in results <==> k in candidates && g.Visible(k)
    {
      NextIsNew(q, buf, nodes, i);
      NodeSetGrows(buf, i);
      PushKeepsScored(q, candidates, buf[i]);
      candidates := Push(candidates, buf[i]);
      if g.Visible(buf[i].node) {
        PushKeepsScored(q, results, buf[i]);
        results := Push(results, buf[i]);
      }
    }
    CandidatesAre(q, buf, nodes);
    assert buf[..|buf|] == buf;
  }

  /** The admission loop of an expansion. */
  method AdmitAll(g: Layer, q: Query, candidates: Queue, results: Queue, buf: seq<Candidate>, ef: nat,
                  ghost kept: nat, ghost E: set<Key>, ghost nodes: set<Key>, ghost X: set<Key>)
    returns (candidates': Queue, results': Queue)
    requires 0 < ef <= kept && Candidates(q, buf, nodes) && nodes !! E
    requires Searching(g, q, ef, kept, E, X, candidates, results)
    ensures nodes == {} ==> candidates' == candidates
    ensures Searching(g, q, ef, kept, E + nodes, X, candidates', results')
  {
    hide Searching, NodeSet, Candidates;
    candidates', results' := candidates, results;
    assert E + NodeSet(buf[..0]) == E by { NodeSetEmpty(); }
    for i := 0 to |buf|
      invariant i == 0 ==> candidates' == candidates
      invariant Searching(g, q, ef, kept, E + NodeSet(buf[..i]), X, candidates', results')
    {
      NextIsNew(q, buf, nodes, i);
      NodeSetGrows(buf, i);
      candidates', results' := Admit(g, q, candidates', results', buf[i], ef, kept, E + NodeSet(buf[..i]), X);
      assert E + NodeSet(buf[..i]) + {buf[i].node} == E + NodeSet(buf[..i + 1]);
    }
    CandidatesAre(q, buf, nodes);
    assert buf[..|buf|] == buf;
  }

  ghost predicate Descending(buf: seq<Candidate>) {
    forall i, j :: 0 <= i < j < |buf| ==> buf[j].distance <= buf[i].distance
  }

  ghost predicate Above(buf: seq<Candidate>, rest: Queue) {
    forall i, k :: 0 <= i < |buf| && k in rest ==> rest[k] <= buf[i].distance
  }

  lemma AboveStep(buf: seq<Candidate>, rest: Queue, w: Key)
    requires Above(buf, rest) && Descending(buf) && IsFarthest(rest, w)
    ensures Above(buf + [Candidate(w, rest[w])], Pop(rest, w)) && Descending(buf + [Candidate(w, rest[w])])
  {
  }

  ghost predicate Below(buf: seq<Candidate>, rest: Queue) {
    forall i, k :: 0 <= i < |buf| && k in rest ==> buf[i].distance <= rest[k]
  }

  lemma BelowStep(buf: seq<Candidate>, rest: Queue, w: Key)
    requires Below(buf, rest) && Ascending(buf) && IsNearest(rest, w)
    ensures Below(buf + [Candidate(w, rest[w])], Pop(rest, w)) && Ascending(buf + [Candidate(w, rest[w])])
  {
  }

  lemma NearestIsScored(q: Query, m: Queue, near: Key)
    requires Scored(q, m) && IsNearest(m, near)
    ensures near in m && m[near] == q.Dist(near)
  {
  }

  /** `buf` is what has been taken out of the heap, farthest first. */
  ghost predicate Draining(q: Query, heap: Queue, rest: Queue, taken: set<Key>, buf: seq<Candidate>) {
    Scored(q, rest) && Parted(heap, rest, taken) && Candidates(q, buf, taken) && Descending(buf) && Above(buf, rest)
  }

  lemma DrainBegins(q: Query, heap: Queue)
    requires Scored(q, heap)
    ensures Draining(q, heap, heap, {}, [])
  {
  }

  lemma DrainStep(q: Query, heap: Queue, rest: Queue, taken: set<Key>, buf: seq<Candidate>, w: Key)
    requires IsFarthest(rest, w) && Draining(q, heap, rest, taken, buf)
    ensures w in rest && |Pop(rest, w)| < |rest|
    ensures Draining(q, heap, Pop(rest, w), taken + {w}, buf + [Candidate(w, rest[w])])
  {
    hide Candidates, Scored, Descending, Above, Parted;
    FarthestBounds(q, rest, w);
    PopKeepsScored(q, rest, w);
    AboveStep(buf, rest, w);
    PartedStep(heap, rest, taken, w);
    CandidatesAppend(q, buf, taken, Candidate(w, rest[w]));
  }

  lemma DrainEnds(q: Query, heap: Queue, rest: Queue, taken: set<Key>, buf: seq<Candidate>)
    requires |rest| == 0 && Draining(q, heap, rest, taken, buf)
    ensures Candidates(q, buf, heap.Keys) && Descending(buf)
  {
    hide Candidates;
    assert rest.Keys == {};
  }

  /** Empties a max-heap: farthest first. */
  method Drain(q: Query, heap: Queue) returns (buf: seq<Candidate>)
    requires Scored(q, heap)
    ensures Candidates(q, buf, heap.Keys) && Descending(buf)
  {
    var rest := heap;
    buf := [];
    ghost var taken: set<Key> := {};
    DrainBegins(q, heap);
    hide Draining, Candidates, Descending, IsFarthest, Pop;
    while |rest| > 0
      invariant Draining(q, heap, rest, taken, buf)
      decreases |rest|
    {
      var w := Farthest(rest);
      DrainStep(q, heap, rest, taken, buf, w);
      buf := buf + [Candidate(w, rest[w])];
      taken := taken + {w};
      rest := Pop(rest, w);
    }
    DrainEnds(q, heap, rest, taken, buf);
  }

  lemma CandidatesAppend(q: Query, buf: seq<Candidate>, nodes: set<Key>, c: Candidate)
    requires Candidates(q, buf, nodes) && c == Score(q, c.node) && c.node !in nodes
    ensures Candidates(q, buf + [c], nodes + {c.node})
  {
    DistinctAppend(buf, c);
    NodeSetAppend(buf, c);
  }

  function NearestFirst(buf: seq<Candidate>): (out: seq<Key>)
    ensures |out| == |buf|
    ensures forall i :: 0 <= i < |buf| ==> out[i] == buf[|buf| - 1 - i].node
  {
    if buf == [] then [] else [buf[|buf| - 1].node] + NearestFirst(buf[..|buf| - 1])
  }

  lemma NearestFirstLists(q: Query, buf: seq<Candidate>, W: set<Key>)
    requires Candidates(q, buf, W) && Descending(buf)
    ensures Lists(q, NearestFirst(buf), W)
  {
    var out := NearestFirst(buf);
    forall k ensures k in out <==> k in W {
      NodeSetHas(buf, k);
      if i :| 0 <= i < |buf| && buf[i].node == k {
        assert out[|buf| - 1 - i] == k;
      }
    }
    forall i, j | 0 <= i < j < |out| ensures out[i] != out[j] && q.Dist(out[i]) <= q.Dist(out[j]) {
      assert buf[|buf| - 1 - j].distance >= buf[|buf| - 1 - i].distance;
    }
  }

  /** `order` is what has been taken out of the heap, nearest first. */
  ghost predicate Taking(q: Query, heap: Queue, rest: Queue, taken: set<Key>, order: seq<Candidate>) {
    Scored(q, rest) && Parted(heap, rest, taken) && Candidates(q, order, taken) && Ascending(order) &&
        Below(order, rest)
  }

  lemma TakingBegins(q: Query, heap: Queue)
    requires Scored(q, heap)
    ensures Taking(q, heap, heap, {}, [])
  {
  }

  lemma TakingStep(q: Query, heap: Queue, rest: Queue, taken: set<Key>, order: seq<Candidate>, k: Key)
    requires IsNearest(rest, k) && Taking(q, heap, rest, taken, order)
    ensures k in rest && |Pop(rest, k)| < |rest|
    ensures Taking(q, heap, Pop(rest, k), taken + {k}, order + [Candidate(k, rest[k])])
  {
    hide Candidates, Scored, Ascending, Below, Parted;
    NearestIsScored(q, rest, k);
    PopKeepsScored(q, rest, k);
    BelowStep(order, rest, k);
    PartedStep(heap, rest, taken, k);
    CandidatesAppend(q, order, taken, Candidate(k, rest[k]));
  }

  /** The selection loop of Algorithm 4, lines 9-14, on a min-heap. `order` is the order in which
      candidates were taken; whatever was not taken is no nearer than all that was. */
  method SelectDiverse(g: Layer, q: Query, heap: Queue, m: nat)
    returns (chosen: seq<Key>, discarded: seq<Key>, ghost order: seq<Candidate>)
    requires Scored(q, heap)
    ensures TakenInOrder(q, heap.Keys, m, order, chosen)
    ensures chosen == Chosen(g, order, m) && discarded == Discarded(g, order, m)
  {
    var rest := heap;
    ghost var taken: set<Key> := {};
    chosen, discarded, order := [], [], [];
    TakingBegins(q, heap);
    assert chosen == Chosen(g, order, m) && discarded == Discarded(g, order, m);
    hide Taking, Chosen, Discarded, Dominated, IsNearest, Pop, TakenInOrder;
    while |rest| > 0 && |chosen| < m
      invariant Taking(q, heap, rest, taken, order)
      invariant chosen == Chosen(g, order, m) && discarded == Discarded(g, order, m)
      decreases |rest|
    {
      var k := Nearest(rest);
      TakingStep(q, heap, rest, taken, order, k);
      var e := Candidate(k, rest[k]);
      rest := Pop(rest, k);
      var dominated := IsDominated(g, e, chosen);
      DominatedIs(g, e, chosen);
      TakeNext(g, order, e, m);
      order := order + [e];
      taken := taken + {k};
      if dominated {
        discarded := discarded + [e.node];
      } else {
        chosen := chosen + [e.node];
      }
    }
    SelectionStops(q, heap, rest, taken, m, order, chosen);
  }

  /** The heap's nodes are those still in it and those taken out. */
  ghost predicate Parted(heap: Queue, rest: Queue, taken: set<Key>) {
    rest.Keys !! taken && rest.Keys + taken == heap.Keys
  }

  lemma PartedStep(heap: Queue, rest: Queue, taken: set<Key>, k: Key)
    requires Parted(heap, rest, taken) && k in rest
    ensures k !in taken && Parted(heap, Pop(rest, k), taken + {k}) && |Pop(rest, k)| < |rest|
  {
    assert rest.Keys == Pop(rest, k).Keys + {k};
  }

  lemma SelectionStops(q: Query, heap: Queue, rest: Queue, taken: set<Key>, m: nat, order: seq<Candidate>,
                       chosen: seq<Key>)
    requires Taking(q, heap, rest, taken, order)
    requires |rest| > 0 ==> |chosen| >= m
    ensures TakenInOrder(q, heap.Keys, m, order, chosen)
  {
    assert |rest| == 0 ==> rest.Keys == {};
    assert forall k :: k in heap.Keys && k !in taken ==> k in rest && rest[k] == q.Dist(k);
    assert TakenFrom(q, heap.Keys, m, order, chosen, taken);
  }

  /** Algorithm 4, line 11, negated. */
  method IsDominated(g: Layer, e: Candidate, chosen: seq<Key>) returns (dominated: bool)
    ensures dominated <==> exists i :: 0 <= i < |chosen| && g.Between(e.node, chosen[i]) < e.distance
  {
    for i := 0 to |chosen|
      invariant forall j :: 0 <= j < i ==> !(g.Between(e.node, chosen[j]) < e.distance)
    {
      if g.Between(e.node, chosen[i]) < e.distance {
        return true;
      }
    }
    return false;
  }

  ghost predicate TakenInOrder(q: Query, pool: set<Key>, m: nat, order: seq<Candidate>, chosen: seq<Key>) {
    Ascending(order) && exists taken :: TakenFrom(q, pool, m, order, chosen, taken)
  }

  /** `order` lists `taken`, which is the whole pool unless m were chosen; the rest is no nearer. */
  ghost predicate TakenFrom(q: Query, pool: set<Key>, m: nat, order: seq<Candidate>, chosen: seq<Key>,
                            taken: set<Key>) {
    && taken <= pool && Candidates(q, order, taken)
    && (|chosen| < m ==> taken == pool)
    && (forall k, i :: k in pool && k !in taken && 0 <= i < |order| ==> order[i].distance <= q.Dist(k))
  }

  /** `out` is the m nearest of W (all of W if there are fewer), nearest first. */
  ghost predicate NearestOf(q: Query, out: seq<Key>, W: set<Key>, m: nat) {
    && KeySet(out) <= W && |out| <= m
    && (forall i, j :: 0 <= i < j < |out| ==> out[i] != out[j] && q.Dist(out[i]) <= q.Dist(out[j]))
    && (forall k, i :: k in W && k !in out && 0 <= i < |out| ==> q.Dist(out[i]) <= q.Dist(k))
    && (|out| < m ==> KeySet(out) == W)
  }

  lemma PrefixIsNearest(q: Query, all: seq<Key>, W: set<Key>, m: nat)
    requires Lists(q, all, W)
    ensures NearestOf(q, if |all| > m then all[..m] else all, W, m)
  {
    var out := if |all| > m then all[..m] else all;
    forall k, i | k in W && k !in out && 0 <= i < |out| ensures q.Dist(out[i]) <= q.Dist(k) {
      var j :| 0 <= j < |all| && all[j] == k;
      assert out == all[..|out|] && j >= |out|;
    }
  }

  /** Nodes named by the links of `ks`. */
  ghost function NeighboursOf(g: Layer, ks: set<Key>): set<Key> {
    set k, v | k in ks && v in Neighbours(g, k) :: v
  }

  ghost function Targets(g: Layer): set<Key> {
    set k, i | k in g.links && 0 <= i < |g.links[k]| :: g.links[k][i]
  }

  /** The neighbours of the first i nodes of the working set have been visited, and those not
      visited before put behind it. */
  ghost predicate Extending(g: Layer, base: seq<Candidate>, W: set<Key>, seen: set<Key>, i: nat, visited: set<Key>,
                            buf: seq<Candidate>) {
    && i <= |base| <= |buf| && buf[..|base|] == base && Distinct(buf)
    && visited == seen + NeighboursOf(g, NodeSet(base[..i])) && W <= seen
    && NodeSet(buf) == W + (NeighboursOf(g, NodeSet(base[..i])) - seen)
  }

  lemma ExtendsNothing(g: Layer, q: Query, base: seq<Candidate>, W: set<Key>, seen: set<Key>)
    requires Candidates(q, base, W) && W <= seen
    ensures Extending(g, base, W, seen, 0, seen, base)
  {
    assert base[..0] == [];
  }

  lemma ExtendNext(g: Layer, q: Query, base: seq<Candidate>, W: set<Key>, seen: set<Key>, i: nat, visited: set<Key>,
                   buf: seq<Candidate>)
    requires Candidates(q, base, W) && Extending(g, base, W, seen, i, visited, buf) && i < |base|
    ensures i < |buf| && buf[i] == base[i] && buf[i].node in W && Distinct(buf) && NodeSet(buf) <= visited
  {
    NextIsNew(q, base, W, i);
    assert buf[i] == buf[..|base|][i];
  }

  lemma ExtendedBy(g: Layer, base: seq<Candidate>, W: set<Key>, seen: set<Key>, i: nat,
                   visited: set<Key>, buf: seq<Candidate>, visited': set<Key>, buf': seq<Candidate>)
    requires Extending(g, base, W, seen, i, visited, buf) && i < |base| && base[i].node in g.links
    requires visited' == visited + KeySet(g.links[base[i].node]) && |buf'| >= |buf| && buf'[..|buf|] == buf &&
             Distinct(buf')
    requires NodeSet(buf') == NodeSet(buf) + (KeySet(g.links[base[i].node]) - visited)
    ensures Extending(g, base, W, seen, i + 1, visited', buf')
  {
    hide Distinct, NodeSet;
    NodeSetGrows(base, i);
    var found, more := NeighboursOf(g, NodeSet(base[..i])), Neighbours(g, base[i].node);
    assert NeighboursOf(g, NodeSet(base[..i]) + {base[i].node}) == found + more;
    assert buf'[..|base|] == buf'[..|buf|][..|base|];
  }

  lemma ExtendsAll(g: Layer, q: Query, base: seq<Candidate>, W: set<Key>, seen: set<Key>, visited: set<Key>,
                   buf: seq<Candidate>)
    requires Candidates(q, base, W) && Extending(g, base, W, seen, |base|, visited, buf)
    ensures |buf| >= |base| && buf[..|base|] == base && Distinct(buf) && NodeSet(buf) == W + (NeighboursOf(g, W) - seen)
  {
    assert base[..|base|] == base;
  }

  lemma EvaluatedAll(q: Query, base: seq<Candidate>, buf: seq<Candidate>, buf': seq<Candidate>, nodes: set<Key>)
    requires |buf| >= |base| && buf[..|base|] == base && |buf'| == |buf| && buf'[..|base|] == buf[..|base|]
    requires forall i :: |base| <= i < |buf'| ==> buf'[i].distance == q.Dist(buf'[i].node)
    requires Distinct(buf') && NodeSet(buf') == nodes && exists W :: Candidates(q, base, W)
    ensures Candidates(q, buf', nodes)
  {
    assert forall j :: 0 <= j < |base| ==> buf'[j] == buf'[..|base|][j];
  }

  /** Some node that can be reached has been freed. */
  ghost predicate MeetsFreed(g: Layer, q: Query, seeds: set<Key>) {
    exists k :: Reachable(g, q, seeds, k) && k !in g.links
  }

  class LayerOperations {
    const graph: Layer
    var query: Query
    var state: State
    var visited: set<Key>
    var candidates: Queue
    var results: Queue
    var expandBuf: seq<Candidate>
    var neighbourBuf: seq<Key>
    ghost var expanded: set<Key>

    constructor (graph: Layer, query: Query)
      ensures this.graph == graph && this.query == query && state == Init
    {
      this.graph := graph;
      this.query := query;
      state := Init;
      visited, candidates, results, expandBuf, neighbourBuf := {}, map[], map[], [], [];
      expanded := {};
    }

    ghost function Evaluated(): set<Key>
      reads this
    {
      visited - Self(query)
    }

    ghost predicate Cleared()
      reads this
    {
      state == Init && visited == {} && candidates == map[] && results == map[] && expandBuf == [] && expanded == {}
    }

    /** A result is waiting to be consumed. */
    ghost predicate Pending()
      reads this
    {
      state == Consume && Scored(query, results) && results.Keys <= visited
    }

    method Rebind(query: Query)
      modifies this
      ensures this.query == query && Cleared()
    {
      this.query := query;
      Clear();
    }

    method Clear()
      modifies this
      ensures query == old(query) && Cleared()
    {
      state := Init;
      visited, candidates, results, expandBuf, neighbourBuf := {}, map[], map[], [], [];
      expanded := {};
    }

    /** Appends each node not visited yet, once, and marks it visited. */
    method Discover(nodes: seq<Key>)
      requires Distinct(expandBuf) && NodeSet(expandBuf) <= visited
      modifies this`visited, this`expandBuf
      ensures visited == old(visited) + KeySet(nodes)
      ensures |expandBuf| >= |old(expandBuf)| && expandBuf[..|old(expandBuf)|] == old(expandBuf)
      ensures Distinct(expandBuf)
      ensures NodeSet(expandBuf) == NodeSet(old(expandBuf)) + (KeySet(nodes) - old(visited))
    {
      hide NodeSet, Distinct;
      ghost var begin, seen, had := |expandBuf|, visited, NodeSet(expandBuf);
      for i := 0 to |nodes|
        invariant visited == seen + KeySet(nodes[..i])
        invariant |expandBuf| >= begin && expandBuf[..begin] == old(expandBuf)
        invariant Distinct(expandBuf) && had <= seen
        invariant NodeSet(expandBuf) == had + (KeySet(nodes[..i]) - seen)
      {
        assert nodes[..i + 1] == nodes[..i] + [nodes[i]];
        assert KeySet(nodes[..i + 1]) == KeySet(nodes[..i]) + {nodes[i]};
        if nodes[i] !in visited {
          visited := visited + {nodes[i]};
          var c := Candidate(nodes[i], 0.0);
          DistinctAppend(expandBuf, c);
          NodeSetAppend(expandBuf, c);
          expandBuf := expandBuf + [c];
        }
      }
      assert nodes[..|nodes|] == nodes;
    }

    method EvaluateDistances(begin: nat)
      requires begin <= |expandBuf| && Distinct(expandBuf)
      modifies this`expandBuf
      ensures |expandBuf| == |old(expandBuf)| && expandBuf[..begin] == old(expandBuf)[..begin]
      ensures forall i :: begin <= i < |expandBuf| ==> expandBuf[i].distance == query.Dist(expandBuf[i].node)
      ensures Distinct(expandBuf) && NodeSet(expandBuf) == NodeSet(old(expandBuf))
    {
      for i := begin to |expandBuf|
        invariant |expandBuf| == |old(expandBuf)| && expandBuf[..begin] == old(expandBuf)[..begin]
        invariant forall j :: 0 <= j < |expandBuf| ==> expandBuf[j].node == old(expandBuf)[j].node
        invariant forall j :: begin <= j < i ==> expandBuf[j].distance == query.Dist(expandBuf[j].node)
      {
        expandBuf := expandBuf[i := Score(query, expandBuf[i].node)];
      }
      SameNodes(expandBuf, old(expandBuf));
    }

    /** Algorithm 2, lines 1-3. */
    method SeedImpl(entryPoints: seq<Key>)
      requires Cleared()
      modifies this
      ensures query == old(query) && state == Init && expanded == {}
      ensures visited == KeySet(entryPoints) + Self(query)
      ensures Scored(query, candidates) && candidates.Keys == KeySet(entryPoints) - Self(query)
      ensures Scored(query, results) && results.Keys == VisibleSeeds(graph, query, KeySet(entryPoints))
    {
      visited := Self(query);
      Discover(entryPoints);
      EvaluateDistances(0);
      candidates, results := SeedHeaps(graph, query, expandBuf, KeySet(entryPoints) - Self(query));
    }

    /** Algorithm 2, lines 9-17. */
    method Expand(node: Key, ef: nat, ghost kept: nat, ghost X: set<Key>)
      returns (failed: bool)
      requires 0 < ef <= kept && Self(query) <= visited
      requires Searching(graph, query, ef, kept, Evaluated(), X, candidates, results)
      modifies this`visited, this`candidates, this`results, this`expandBuf, this`neighbourBuf
      ensures failed <==> node !in graph.links
      ensures !failed ==>
                && visited == old(visited) + Neighbours(graph, node)
                && (visited == old(visited) ==> candidates == old(candidates))
                && Searching(graph, query, ef, kept, Evaluated(), X, candidates, results)
    {
      hide Searching;
      if node !in graph.links {
        return true;
      }
      neighbourBuf := graph.links[node];
      expandBuf := [];
      Discover(neighbourBuf);
      EvaluateDistances(0);
      candidates, results := AdmitAll(graph, query, candidates, results, expandBuf, ef, kept,
                                      old(visited) - Self(query), KeySet(neighbourBuf) - old(visited), X);
      assert Evaluated() == (old(visited) - Self(query)) + (KeySet(neighbourBuf) - old(visited));
      return false;
    }

    /** Takes the nearest open node and either stops (it is farther than the whole result) or
        expands it. */
    method TakeNearest(ef: nat, ghost kept: nat, ghost seeds: set<Key>) returns (failed: bool, stop: bool)
      requires ef > 0 && kept == Max(ef, |VisibleSeeds(graph, query, seeds)|)
      requires |candidates| > 0 && Self(query) <= visited
      requires Explored(graph, query, seeds, Evaluated(), expanded)
      requires Searching(graph, query, ef, kept, Evaluated(), expanded, candidates, results)
      modifies this`visited, this`candidates, this`results, this`expandBuf, this`neighbourBuf, this`expanded
      ensures failed ==> MeetsFreed(graph, query, seeds)
      ensures !failed && stop ==>
                Scored(query, results) && results.Keys <= visited &&
                Settled(graph, query, seeds, ef, Evaluated(), expanded, results.Keys)
      ensures !failed && !stop ==>
                && old(visited) <= visited <= old(visited) + Targets(graph)
                && (visited == old(visited) ==> |candidates| < |old(candidates)|)
                && Explored(graph, query, seeds, Evaluated(), expanded)
                && Searching(graph, query, ef, kept, Evaluated(), expanded, candidates, results)
    {
      hide Searching, Explored, Settled, Reachable, IsNearest, IsFarthest, Targets, VisibleSeeds;
      var c := Nearest(candidates);
      var open := candidates;
      NearestIsIn(open, c);
      candidates := Pop(candidates, c);
      if |results| > 0 {
        var worst := Farthest(results);
        FarthestIsIn(results, worst);
        if results[worst] < open[c] {
          StoppingSettles(graph, query, seeds, ef, Evaluated(), expanded, open, results, c, worst);
          PendingAfter(graph, query, ef, kept, Evaluated(), expanded, open, results);
          return false, true;
        }
      }
      OpeningNearest(graph, query, seeds, ef, kept, Evaluated(), expanded, open, results, c);
      expanded := expanded + {c};
      failed := Expand(c, ef, kept, expanded);
      stop := false;
      if !failed {
        assert Evaluated() == (old(visited) - Self(query)) + (Neighbours(graph, c) - Self(query));
        NeighboursAreTargets(graph, c);
      }
    }

    /** SEARCH-LAYER. A failure means some reachable record has been freed. */
    method Search(entryPoints: seq<Key>, ef: nat) returns (failed: bool)
      requires ef > 0
      modifies this
      ensures query == old(query)
      ensures failed ==> MeetsFreed(graph, query, KeySet(entryPoints))
      ensures !failed ==> Pending()
      ensures !failed ==> Settled(graph, query, KeySet(entryPoints), ef, Evaluated(), expanded, results.Keys)
    {
      hide Searching, Explored, Settled, Reachable, Targets, VisibleSeeds, Scored, MeetsFreed;
      Clear();
      SeedImpl(entryPoints);
      ghost var seeds := KeySet(entryPoints);
      SeedsAreExplored(graph, query, seeds);
      SeedsAreSearching(graph, query, seeds, ef, candidates, results);
      assert Evaluated() == seeds - Self(query);
      failed := ExpandNearest(ef, seeds);
    }

    /** Algorithm 2, lines 4-17. */
    method ExpandNearest(ef: nat, ghost seeds: set<Key>) returns (failed: bool)
      requires ef > 0 && state == Init && Self(query) <= visited <= seeds + Targets(graph) + Self(query)
      requires Explored(graph, query, seeds, Evaluated(), expanded)
      requires Searching(graph, query, ef, Max(ef, |VisibleSeeds(graph, query, seeds)|), Evaluated(), expanded,
                         candidates, results)
      modifies this
      ensures query == old(query)
      ensures failed ==> MeetsFreed(graph, query, seeds)
      ensures !failed ==> Pending() && Settled(graph, query, seeds, ef, Evaluated(), expanded, results.Keys)
    {
      hide Searching, Explored, Settled, Reachable, Targets, VisibleSeeds, Scored, Self, MeetsFreed;
      ghost var kept := Max(ef, |VisibleSeeds(graph, query, seeds)|);
      ghost var universe := seeds + Targets(graph) + Self(query);
      while |candidates| > 0
        invariant query == old(query) && state == Init
        invariant Self(query) <= visited <= universe
        invariant Explored(graph, query, seeds, Evaluated(), expanded)
        invariant Searching(graph, query, ef, kept, Evaluated(), expanded, candidates, results)
        decreases |universe - visited|, |candidates|
      {
        ghost var before := visited;
        var stop;
        failed, stop := TakeNearest(ef, kept, seeds);
        if failed {
          return;
        }
        if stop {
          state := Consume;
          return;
        }
        if visited != before {
          SmallerRest(universe, before, visited);
        }
      }
      RunningOutSettles(graph, query, seeds, ef, Evaluated(), expanded, candidates, results);
      PendingAfter(graph, query, ef, kept, Evaluated(), expanded, candidates, results);
      state := Consume;
      return false;
    }

    /** Step 1 without traversal: the result is the visible candidates themselves. */
    method Seed(nodes: seq<Key>)
      modifies this
      ensures query == old(query) && Pending()
      ensures visited == KeySet(nodes) + Self(query)
      ensures results.Keys == VisibleSeeds(graph, query, KeySet(nodes))
    {
      Clear();
      SeedImpl(nodes);
      state := Consume;
    }

    method ConsumeAll() returns (out: seq<Key>)
      requires Pending()
      modifies this`state, this`results
      ensures state == Init && results == map[]
      ensures Lists(query, out, old(results.Keys))
    {
      state := Init;
      var buf := Drain(query, results);
      NearestFirstLists(query, buf, results.Keys);
      out := NearestFirst(buf);
      results := map[];
    }

    /** Algorithm 3, SELECT-NEIGHBORS-SIMPLE. */
    method ConsumeSimple(m: nat) returns (out: seq<Key>)
      requires Pending()
      modifies this`state, this`results
      ensures state == Init && results == map[]
      ensures NearestOf(query, out, old(results.Keys), m)
    {
      ghost var W := results.Keys;
      var all := ConsumeAll();
      PrefixIsNearest(query, all, W, m);
      out := if |all| > m then all[..m] else all;
    }

    /** Algorithm 4, lines 3-7. */
    method ExtendWithNeighbours(ghost W: set<Key>) returns (failed: bool)
      requires Candidates(query, expandBuf, W) && W <= visited
      modifies this`visited, this`expandBuf, this`neighbourBuf
      ensures failed ==> exists k :: k in W && k !in graph.links
      ensures !failed ==> Candidates(query, expandBuf, W + (NeighboursOf(graph, W) - old(visited)))
    {
      hide Candidates, Distinct, NodeSet, Extending, NeighboursOf;
      var count := |expandBuf|;
      ghost var base := expandBuf;
      ghost var seen := visited;
      CandidatesAre(query, base, W);
      ExtendsNothing(graph, query, base, W, seen);
      var i := 0;
      while i < count
        invariant i <= count == |base| && Candidates(query, base, W)
        invariant Extending(graph, base, W, seen, i, visited, expandBuf)
      {
        ExtendNext(graph, query, base, W, seen, i, visited, expandBuf);
        ghost var before, buf := visited, expandBuf;
        var k := expandBuf[i].node;
        if k !in graph.links {
          return true;
        }
        neighbourBuf := graph.links[k];
        Discover(neighbourBuf);
        ExtendedBy(graph, base, W, seen, i, before, buf, visited, expandBuf);
        i := i + 1;
      }
      ExtendsAll(graph, query, base, W, seen, visited, expandBuf);
      ghost var extended := expandBuf;
      EvaluateDistances(count);
      EvaluatedAll(query, base, extended, expandBuf, W + (NeighboursOf(graph, W) - seen));
      return false;
    }

    /** Algorithm 4. `pool` is what ConsumeAll would have returned; `prev` is the caller's `out`,
        left alone on failure. `order` is the order in which the candidates of the working set
        (the result, or the result and its unvisited neighbours) were taken. */
    method ConsumeHeuristic(m: nat, extend: bool, keepPruned: bool, prev: seq<Key>)
      returns (failed: bool, out: seq<Key>, pool: seq<Key>, ghost order: seq<Candidate>)
      requires Pending()
      modifies this
      ensures query == old(query) && state == Init
      ensures Lists(query, pool, old(results.Keys))
      ensures failed ==> out == prev && extend && exists k :: k in old(results.Keys) && k !in graph.links
      ensures !failed ==>
                && var work := if extend
                               then old(results.Keys) + (NeighboursOf(graph, old(results.Keys)) - old(visited))
                               else old(results.Keys);
                && TakenInOrder(query, work, m, order, Chosen(graph, order, m))
                && out == if keepPruned
                          then Backfill(Chosen(graph, order, m), Discarded(graph, order, m), m)
                          else Chosen(graph, order, m)
    {
      hide Candidates, Lists, TakenInOrder, NeighboursOf, Chosen, Discarded;
      state := Init;
      ghost var W := results.Keys;
      order := [];
      expandBuf := Drain(query, results);
      NearestFirstLists(query, expandBuf, W);
      pool := NearestFirst(expandBuf);
      results := map[];
      ghost var work := W;
      if extend {
        failed := ExtendWithNeighbours(W);
        if failed {
          out := prev;
          return;
        }
        work := W + (NeighboursOf(graph, W) - old(visited));
      }
      candidates := HeapOf(query, expandBuf, work);
      var discarded;
      neighbourBuf, discarded, order := SelectDiverse(graph, query, candidates, m);
      if keepPruned {
        neighbourBuf := Backfill(neighbourBuf, discarded, m);
      }
      failed, out := false, neighbourBuf;
    }
  }

  lemma NearestIsIn(m: Queue, c: Key)
    requires IsNearest(m, c)
    ensures c in m
  {
  }

  lemma FarthestIsIn(m: Queue, c: Key)
    requires IsFarthest(m, c)
    ensures c in m
  {
  }

  lemma NeighboursAreTargets(g: Layer, k: Key)
    ensures Neighbours(g, k) <= Targets(g)
  {
    if k in g.links {
      forall v | v in Neighbours(g, k) ensures v in Targets(g) {
        var i :| 0 <= i < |g.links[k]| && g.links[k][i] == v;
      }
    }
  }

  lemma PendingAfter(g: Layer, q: Query, ef: nat, kept: nat, E: set<Key>, X: set<Key>, C: Queue, W: Queue)
    requires Searching(g, q, ef, kept, E, X, C, W)
    ensures Scored(q, W) && W.Keys <= E
  {
  }

  lemma SeedsAreSearching(g: Layer, q: Query, seeds: set<Key>, ef: nat, C: Queue, W: Queue)
    requires ef > 0 && Scored(q, C) && Scored(q, W)
    requires C.Keys == seeds - Self(q) && W.Keys == VisibleSeeds(g, q, seeds)
    ensures Searching(g, q, ef, Max(ef, |W|), seeds - Self(q), {}, C, W)
  {
  }

  /** The nearest open node is expanded unless it is farther than the whole result. */
  lemma OpeningNearest(g: Layer, q: Query, seeds: set<Key>, ef: nat, kept: nat,
                       E: set<Key>, X: set<Key>, C: Queue, W: Queue, c: Key)
    requires 0 < ef <= kept && Explored(g, q, seeds, E, X) && Searching(g, q, ef, kept, E, X, C, W)
    requires c in C && (|W| > 0 ==> exists w :: w in W && C[c] <= W[w])
    ensures Searching(g, q, ef, kept, E, X + {c}, Pop(C, c), W)
    ensures Explored(g, q, seeds, E + (Neighbours(g, c) - Self(q)), X + {c})
    ensures Reachable(g, q, seeds, c)
  {
    OpenMoves(g, q, ef, kept, E, X, C, W, c);
    VisibleSeedIsKept(g, q, seeds, ef, kept, E, X, C.Keys, W.Keys);
    assert |W| > 0 ==> exists w :: w in E && g.Visible(w) && q.Dist(c) <= q.Dist(w);
    assert c in E && Reachable(g, q, seeds, c);
    hide *;
    ExpansionKeepsExplored(g, q, seeds, E, X, c);
  }

  lemma OpenMoves(g: Layer, q: Query, ef: nat, kept: nat, E: set<Key>, X: set<Key>, C: Queue, W: Queue, c: Key)
    requires Searching(g, q, ef, kept, E, X, C, W) && c in C
    ensures Searching(g, q, ef, kept, E, X + {c}, Pop(C, c), W)
  {
    PopKeepsScored(q, C, c);
  }

  lemma StoppingSettles(g: Layer, q: Query, seeds: set<Key>, ef: nat,
                        E: set<Key>, X: set<Key>, C: Queue, W: Queue, c: Key, worst: Key)
    requires ef > 0 && Explored(g, q, seeds, E, X)
    requires Searching(g, q, ef, Max(ef, |VisibleSeeds(g, q, seeds)|), E, X, C, W)
    requires IsNearest(C, c) && IsFarthest(W, worst) && W[worst] < C[c]
    ensures Settled(g, q, seeds, ef, E, X, W.Keys)
  {
    FrontierSettles(g, q, seeds, ef, E, X, C.Keys, W.Keys);
  }

  lemma RunningOutSettles(g: Layer, q: Query, seeds: set<Key>, ef: nat,
                          E: set<Key>, X: set<Key>, C: Queue, W: Queue)
    requires ef > 0 && Explored(g, q, seeds, E, X) && |C| == 0
    requires Searching(g, q, ef, Max(ef, |VisibleSeeds(g, q, seeds)|), E, X, C, W)
    ensures Settled(g, q, seeds, ef, E, X, W.Keys)
  {
    FrontierSettles(g, q, seeds, ef, E, X, C.Keys, W.Keys);
  }

  lemma BoundIsMonotone(q: Query, W: set<Key>, d: real, d': real)
    requires NoFartherThan(q, W, d) && d <= d'
    ensures NoFartherThan(q, W, d')
  {
  }

  lemma SmallerRest(universe: set<Key>, before: set<Key>, after: set<Key>)
    requires before < after <= universe
    ensures |universe - after| < |universe - before|
  {
    var x :| x in after && x !in before;
    ProperSubsetIsSmaller(universe - after, universe - before, x);
  }

  lemma VisibleSeedIsKept(g: Layer, q: Query, seeds: set<Key>, ef: nat, kept: nat,
                          E: set<Key>, X: set<Key>, C: set<Key>, W: set<Key>)
    requires ef > 0 && Frontier(g, q, ef, kept, E, X, C, W) && seeds - Self(q) <= E && ef <= kept
    ensures VisibleSeeds(g, q, seeds) != {} ==> |W| > 0
  {
    if s :| s in VisibleSeeds(g, q, seeds) {
      assert s in seeds - Self(q);
    }
  }

  /** Search followed by ConsumeAll, with every node visible and room for all: exactly the
      reachable nodes, each once, nearest first. */
  lemma ExhaustiveListing(g: Layer, q: Query, seeds: set<Key>, ef: nat, evaluated: set<Key>, expanded: set<Key>,
                          result: set<Key>, reach: set<Key>, out: seq<Key>)
    requires Settled(g, q, seeds, ef, evaluated, expanded, result) && Lists(q, out, result)
    requires forall k :: k in reach <==> Reachable(g, q, seeds, k)
    requires forall k :: k in reach ==> g.Visible(k)
    requires |reach| <= ef
    ensures Lists(q, out, reach)
  {
    ExhaustiveWhenAllVisible(g, q, seeds, ef, evaluated, expanded, result, reach);
  }

  /** A non-empty working set always yields a neighbour, the nearest of the set. */
  lemma WorkYieldsNearest(g: Layer, q: Query, work: set<Key>, m: nat, order: seq<Candidate>)
    requires work != {} && m > 0 && TakenInOrder(q, work, m, order, Chosen(g, order, m))
    ensures Chosen(g, order, m) != []
    ensures Chosen(g, order, m)[0] in work
    ensures forall k :: k in work ==> q.Dist(Chosen(g, order, m)[0]) <= q.Dist(k)
  {
    var taken :| TakenFrom(q, work, m, order, Chosen(g, order, m), taken);
    if order == [] {
      assert false;
    }
    NearestIsChosen(g, order, m);
    NextIsNew(q, order, taken, 0);
    forall k | k in work ensures q.Dist(order[0].node) <= q.Dist(k) {
      if k in taken {
        NodeSetHas(order, k);
        var i :| 0 <= i < |order| && order[i].node == k;
        assert i > 0 ==> order[0].distance <= order[i].distance;
      }
    }
  }

  lemma ChosenComeFrom(g: Layer, q: Query, work: set<Key>, m: nat, order: seq<Candidate>)
    requires TakenInOrder(q, work, m, order, Chosen(g, order, m))
    ensures var c := Chosen(g, order, m);
            (forall i, j :: 0 <= i < j < |c| ==> c[i] != c[j]) && forall k :: k in c ==> k in work
  {
    var taken :| TakenFrom(q, work, m, order, Chosen(g, order, m), taken);
    var c := Chosen(g, order, m);
    forall i, j | 0 <= i < j < |order| ensures order[i].node != order[j].node {
    }
    ChosenDistinct(g, order, m);
    forall k | k in c ensures k in work {
      var i :| 0 <= i < |c| && c[i] == k;
      var j := ChosenWasTaken(g, order, m, i);
      NextIsNew(q, order, taken, j);
    }
  }

  lemma OrderHas(q: Query, taken: set<Key>, order: seq<Candidate>, w: Key) returns (i: nat)
    requires Candidates(q, order, taken) && w in taken
    ensures i < |order| && order[i] == Score(q, w)
  {
    NodeSetHas(order, w);
    i :| 0 <= i < |order| && order[i].node == w;
  }

  lemma LeftOutIsTurnedDown(g: Layer, q: Query, taken: set<Key>, m: nat, order: seq<Candidate>, w: Key)
    requires Ascending(order) && Candidates(q, order, taken) && w in taken && w !in Chosen(g, order, m)
    ensures TurnedDown(g, q, m, Chosen(g, order, m), w)
  {
    var chosen := Chosen(g, order, m);
    var i := OrderHas(q, taken, order, w);
    LeftOutIsDominated(g, order, m, i);
    var before := Chosen(g, order[..i], m);
    forall c | c in before ensures c in chosen && q.Dist(c) <= q.Dist(w) {
      var k :| 0 <= k < |before| && before[k] == c;
      var j := ChosenWasTaken(g, order[..i], m, k);
      assert order[..i][j] == order[j];
      assert chosen[k] == c;
    }
    if |before| == m {
      assert before == chosen;
    }
  }

  lemma NotTakenIsTurnedDown(g: Layer, q: Query, work: set<Key>, m: nat, order: seq<Candidate>, taken: set<Key>, w: Key)
    requires TakenFrom(q, work, m, order, Chosen(g, order, m), taken) && w in work && w !in taken
    ensures TurnedDown(g, q, m, Chosen(g, order, m), w)
  {
    var chosen := Chosen(g, order, m);
    forall c | c in chosen ensures q.Dist(c) <= q.Dist(w) {
      var k :| 0 <= k < |chosen| && chosen[k] == c;
      var j := ChosenWasTaken(g, order, m, k);
      NextIsNew(q, order, taken, j);
    }
  }

  /** What the loop over the heap selects is a selection of neighbours from the working set. */
  lemma TakenSelects(g: Layer, q: Query, work: set<Key>, m: nat, order: seq<Candidate>)
    requires TakenInOrder(q, work, m, order, Chosen(g, order, m))
    ensures Selects(g, q, work, m, Chosen(g, order, m))
  {
    var chosen := Chosen(g, order, m);
    var taken :| TakenFrom(q, work, m, order, chosen, taken);
    ChosenComeFrom(g, q, work, m, order);
    ChosenIsAscending(g, order, m, q);
    ChosenIsDiverse(g, order, m, q);
    forall w | w in work && w !in chosen ensures TurnedDown(g, q, m, chosen, w) {
      if w in taken {
        LeftOutIsTurnedDown(g, q, taken, m, order, w);
      } else {
        NotTakenIsTurnedDown(g, q, work, m, order, taken, w);
      }
    }
  }

  /** In a layer without freed records no search fails. */
  lemma NeverFails(g: Layer, q: Query, seeds: set<Key>)
    requires Closed(g) && forall s :: s in seeds ==> s in g.links
    ensures !MeetsFreed(g, q, seeds)
  {
    forall k | Reachable(g, q, seeds, k) ensures k in g.links {
      ReachesLive(g, q, seeds, k);
    }
  }
}
