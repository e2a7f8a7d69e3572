/** Every step of the link protocol keeps its invariant: what a step changes is local to one or
    two records, and the lemmas below carry each part of the invariant across such a change. */
module LinkSteps {
  import opened Wrappers
  import opened LinkProtocol

  // ------------------------------------------------------------------------------------------
  // How a change of one or two records carries the invariants over.

  predicate SameBut(a: set<Nid>, b: set<Nid>, x: Nid) {
    a + {x} == b + {x}
  }

  /** Two records change, but only in what they say about each other, and consistently. */
  predicate OnlyEachOther(n: Nid, node: Node, nn: Node, v: Nid, far: Node, nv: Node) {
    && n != v
    && !node.phase.Retired? && !far.phase.Retired? && !far.phase.Created?
    && !nn.phase.Retired? && !nn.phase.Created? && !nv.phase.Retired? && !nv.phase.Created?
    && SameBut(Names(nn), Names(node), v) && SameBut(Names(nv), Names(far), n)
    && SameBut(Unanswered(nn), Unanswered(node), v) && SameBut(Unanswered(nv), Unanswered(far), n)
    && (v in Names(nn) ==> (n in Names(nv) <==> v !in Unanswered(nn)))
    && (n in Names(nv) ==> (v in Names(nn) <==> n !in Unanswered(nv)))
  }

  lemma TwoNodePairs(nodes: map<Nid, Node>, n: Nid, nn: Node, v: Nid, nv: Node)
    requires Pairs(nodes) && n in nodes && v in nodes
    requires OnlyEachOther(n, nodes[n], nn, v, nodes[v], nv)
    ensures Pairs(nodes[v := nv][n := nn])
  {
    hide Names, Unanswered;
    var nodes' := nodes[v := nv][n := nn];
    forall u, w | u in nodes' && !nodes'[u].phase.Retired? && w in Names(nodes'[u])
      ensures w in nodes' && PairOk(u, nodes'[u], w, nodes'[w])
    {
      if (u == n && w == v) || (u == v && w == n) {
      } else {
        assert u == n ==> w in Names(nn) + {v};
        assert u == v ==> w in Names(nv) + {n};
        assert w in Names(nodes[u]);
        assert PairOk(u, nodes[u], w, nodes[w]);
        assert u == n ==> (w in Unanswered(nn) + {v} <==> w in Unanswered(nodes[n]) + {v});
        assert u == v ==> (w in Unanswered(nv) + {n} <==> w in Unanswered(nodes[v]) + {n});
        assert w == n ==> (u in Names(nn) + {v} <==> u in Names(nodes[n]) + {v});
        assert w == v ==> (u in Names(nv) + {n} <==> u in Names(nodes[v]) + {n});
      }
    }
  }

  /** One record changes. */
  lemma OneNodePairs(nodes: map<Nid, Node>, n: Nid, nn: Node)
    requires Pairs(nodes)
    requires forall w :: w in Names(nn) && !nn.phase.Retired? ==> w != n && w in nodes && PairOk(n, nn, w, nodes[w])
    requires forall u :: u in nodes && u != n && !nodes[u].phase.Retired? && n in Names(nodes[u]) ==>
               PairOk(u, nodes[u], n, nn)
    ensures Pairs(nodes[n := nn])
  {
    hide Names, Unanswered;
  }

  /** One record changes without changing what it names, or what it expects to be answered. */
  lemma SameNamesPairs(nodes: map<Nid, Node>, n: Nid, nn: Node)
    requires Pairs(nodes) && n in nodes && n !in Names(nn)
    requires !nodes[n].phase.Retired? && !nodes[n].phase.Created? && !nn.phase.Retired? && !nn.phase.Created?
    requires Names(nn) == Names(nodes[n])
    requires forall w :: w in Names(nn) ==> (w in Unanswered(nn) <==> w in Unanswered(nodes[n]))
    ensures Pairs(nodes[n := nn])
  {
    hide Names, Unanswered;
    OneNodePairs(nodes, n, nn);
  }

  predicate Replacing(p: Phase) {
    p.Dropping? || p.Keeping?
  }

  /** The phases agree in everything the locks and other nodes can see. */
  predicate SameStanding(p: Phase, p': Phase) {
    && p.Settled? == p'.Settled? && p.Created? == p'.Created? && p.Retired? == p'.Retired?
    && p.Unlinking? == p'.Unlinking? && HoldsExclusive(p) == HoldsExclusive(p')
    && (!p.Settled? && !p.Retired? ==> p.owner == p'.owner)
    && (Replacing(p') ==> Replacing(p) && p.want == p'.want)
  }

  /** A step inside an operation: threads and locks stand as they did. */
  lemma InsideOperation(s: State, s': State)
    requires OpLock(s.nodes) && Threads(s) && Owners(s) && Wanted(s)
    requires s'.threads == s.threads && s'.nodes.Keys == s.nodes.Keys
    requires forall u :: u in s.nodes ==> SameStanding(s.nodes[u].phase, s'.nodes[u].phase)
    ensures OpLock(s'.nodes) && Threads(s') && Owners(s') && Wanted(s')
  {
  }

  /** Where nothing is being unlinked, `Met` says nothing. */
  lemma NothingMet(nodes: map<Nid, Node>, nodes': map<Nid, Node>, n: Nid)
    requires OpLock(nodes) && n in nodes && !Idle(nodes[n].phase) && !nodes[n].phase.Unlinking?
    requires nodes'.Keys == nodes.Keys
    requires forall u :: u in nodes ==> SameStanding(nodes[u].phase, nodes'[u].phase)
    ensures Met(nodes')
  {
  }

  lemma NodeAt(cap: nat, nodes: map<Nid, Node>, u: Nid)
    requires NodesOk(cap, nodes) && u in nodes
    ensures NodeOk(cap, u, nodes[u])
  {
  }

  lemma PairAt(nodes: map<Nid, Node>, u: Nid, v: Nid)
    requires Pairs(nodes) && u in nodes && !nodes[u].phase.Retired? && v in Names(nodes[u])
    ensures v in nodes && PairOk(u, nodes[u], v, nodes[v])
  {
  }

  lemma TwoNodesOk(cap: nat, nodes: map<Nid, Node>, n: Nid, nn: Node, v: Nid, nv: Node)
    requires NodesOk(cap, nodes) && NodeOk(cap, n, nn) && NodeOk(cap, v, nv)
    ensures NodesOk(cap, nodes[v := nv][n := nn])
  {
    hide NodeOk;
  }

  /** Assembles the invariant after a step inside an operation on n that also wrote v. */
  lemma InsideTwo(cap: nat, s: State, n: Nid, nn: Node, v: Nid, nv: Node)
    requires n in s.nodes && v in s.nodes && n != v
    requires !Idle(s.nodes[n].phase) && !s.nodes[n].phase.Unlinking?
    requires SameStanding(s.nodes[n].phase, nn.phase) && nv.phase == s.nodes[v].phase
    requires NodeOk(cap, n, nn) && NodeOk(cap, v, nv) && Pairs(s.nodes[v := nv][n := nn])
    requires Inv(cap, s)
    ensures Inv(cap, SetNode(SetNode(s, v, nv), n, nn))
  {
    hide NodeOk, NodesOk, Pairs, OpLock, Met, Threads, Owners, Wanted;
    TwoNodesOk(cap, s.nodes, n, nn, v, nv);
    InsideOperation(s, SetNode(SetNode(s, v, nv), n, nn));
    NothingMet(s.nodes, s.nodes[v := nv][n := nn], n);
  }

  /** Assembles the invariant after a step inside an operation on n that wrote only n. */
  lemma InsideOne(cap: nat, s: State, n: Nid, nn: Node)
    requires n in s.nodes
    requires !Idle(s.nodes[n].phase) && !s.nodes[n].phase.Unlinking?
    requires SameStanding(s.nodes[n].phase, nn.phase) && NodeOk(cap, n, nn) && Pairs(s.nodes[n := nn])
    requires Inv(cap, s)
    ensures Inv(cap, SetNode(s, n, nn))
  {
    hide NodeOk, NodesOk, Pairs, OpLock, Met, Threads, Owners, Wanted;
    TwoNodesOk(cap, s.nodes, n, nn, n, nn);
    assert s.nodes[n := nn][n := nn] == s.nodes[n := nn];
    InsideOperation(s, SetNode(s, n, nn));
    NothingMet(s.nodes, s.nodes[n := nn], n);
  }

  lemma LandKeeps(cap: nat, s: State, t: Tid, n: Nid, v: Nid)
    requires Inv(cap, s) && Enabled(cap, s, Land(t, n, v))
    ensures Inv(cap, Apply(cap, s, Land(t, n, v)))
  {
    hide NodeOk, NodesOk, Pairs, OpLock, Met, Threads, Owners, Wanted, OnlyEachOther, Unanswered;
    var nodes := s.nodes;
    var nv, nn := Landed(cap, nodes[v], n), LandedOwn(nodes[n], v);
    NodeAt(cap, nodes, n);
    NodeAt(cap, nodes, v);
    LandTarget(cap, nodes, n, v);
    LandOwn(cap, nodes[n], n, v);
    LandFar(cap, nodes[v], v, n);
    LandEachOther(cap, nodes[n], n, nodes[v], v);
    TwoNodePairs(nodes, n, nn, v, nv);
    InsideTwo(cap, s, n, nn, v, nv);
  }

  /** The neighbour about to record n does not record it yet, and is free of exclusive operations. */
  lemma LandTarget(cap: nat, nodes: map<Nid, Node>, n: Nid, v: Nid)
    requires Pairs(nodes) && OpLock(nodes) && n in nodes && v in nodes && NodeOk(cap, n, nodes[n])
    requires nodes[n].phase.Linking? && v in nodes[n].phase.todo
    ensures n != v && n !in Names(nodes[v])
    ensures nodes[v].phase.Settled? || (nodes[v].phase.Linking? && !nodes[v].phase.exclusive)
  {
    PairAt(nodes, n, v);
  }

  lemma LandOwn(cap: nat, node: Node, n: Nid, v: Nid)
    requires NodeOk(cap, n, node) && node.phase.Linking?
    ensures NodeOk(cap, n, LandedOwn(node, v))
  {
  }

  lemma LandFar(cap: nat, far: Node, v: Nid, n: Nid)
    requires NodeOk(cap, v, far) && n != v && n !in Names(far)
    requires far.phase.Settled? || (far.phase.Linking? && !far.phase.exclusive)
    ensures NodeOk(cap, v, Landed(cap, far, n))
  {
    if |far.out| + |far.inc| < cap {
      assert |far.out + {n}| == |far.out| + 1;
    }
  }

  lemma LandEachOther(cap: nat, node: Node, n: Nid, far: Node, v: Nid)
    requires NodeOk(cap, n, node) && NodeOk(cap, v, far) && n != v && node.phase.Linking? && v in node.phase.todo
    requires n !in Names(far) && (far.phase.Settled? || (far.phase.Linking? && !far.phase.exclusive))
    ensures OnlyEachOther(n, node, LandedOwn(node, v), v, far, Landed(cap, far, n))
  {
    hide NodeOk, Names, Unanswered, Landed, LandedOwn;
    LandUnanswered(cap, far, v, n);
    LandOwnUnanswered(cap, node, n, v);
    LandNames(cap, far, n);
    LandOwnNames(node, v);
  }

  lemma LandNames(cap: nat, far: Node, n: Nid)
    ensures Names(Landed(cap, far, n)) == Names(far) + {n}
  {
  }

  lemma LandOwnNames(node: Node, v: Nid)
    requires node.phase.Linking?
    ensures Names(LandedOwn(node, v)) == Names(node) && LandedOwn(node, v).phase.Linking?
  {
  }

  lemma LandUnanswered(cap: nat, far: Node, v: Nid, n: Nid)
    requires NodeOk(cap, v, far) && n !in Names(far) && (far.phase.Settled? || far.phase.Linking?)
    ensures Unanswered(Landed(cap, far, n)) == Unanswered(far) && n !in Unanswered(far)
    ensures Landed(cap, far, n).phase == far.phase
  {
  }

  lemma LandOwnUnanswered(cap: nat, node: Node, n: Nid, v: Nid)
    requires NodeOk(cap, n, node) && node.phase.Linking? && v in node.phase.todo
    ensures Unanswered(LandedOwn(node, v)) == Unanswered(node) - {v} && v in Names(node)
  {
  }

  // ------------------------------------------------------------------------------------------
  // The steps of a replacement.

  lemma Settles(cap: nat, nodes: map<Nid, Node>, n: Nid, v: Nid)
    requires Pairs(nodes) && OpLock(nodes) && n in nodes && !nodes[n].phase.Retired?
    requires HoldsExclusive(nodes[n].phase) && v in Names(nodes[n]) && v != n
    ensures v in nodes && nodes[v].phase.Settled? && (n in Names(nodes[v]) <==> v !in Unanswered(nodes[n]))
  {
    PairAt(nodes, n, v);
  }

  lemma DropLinkKeeps(cap: nat, s: State, t: Tid, n: Nid, d: Nid)
    requires Enabled(cap, s, DropLink(t, n, d)) && Inv(cap, s)
    ensures Inv(cap, Apply(cap, s, DropLink(t, n, d)))
  {
    hide Inv, Cleared, DroppedOwn, SetNode;
    if n in s.nodes[d].out {
      DropFindsOwnLink(cap, s, n, d);
    } else {
      DropClears(cap, s, n, d);
    }
  }

  /** The neighbour has an outgoing link of its own back to n: nothing is removed. */
  lemma DropFindsOwnLink(cap: nat, s: State, n: Nid, d: Nid)
    requires n in s.nodes && s.nodes[n].phase.Dropping? && d in s.nodes[n].phase.drop && Inv(cap, s)
    ensures Inv(cap, SetNode(s, n, DroppedOwn(s.nodes[n], d, true)))
  {
    hide NodeOk, NodesOk, Pairs, OpLock, Met, Threads, Owners, Wanted, Unanswered;
    NodeAt(cap, s.nodes, n);
    DropKeepsOwn(cap, s.nodes[n], n, d);
    SameNamesPairs(s.nodes, n, DroppedOwn(s.nodes[n], d, true));
    InsideOne(cap, s, n, DroppedOwn(s.nodes[n], d, true));
  }

  /** Otherwise the neighbour's record of n is removed. */
  lemma DropClears(cap: nat, s: State, n: Nid, d: Nid)
    requires n in s.nodes && d in s.nodes && s.nodes[n].phase.Dropping? && d in s.nodes[n].phase.drop && Inv(cap, s)
    ensures Inv(cap, SetNode(SetNode(s, d, Cleared(s.nodes[d], n)), n, DroppedOwn(s.nodes[n], d, false)))
  {
    hide NodeOk, NodesOk, Pairs, OpLock, Met, Threads, Owners, Wanted, OnlyEachOther, Unanswered, Names, Cleared;
    var nodes := s.nodes;
    var nn, nv := DroppedOwn(nodes[n], d, false), Cleared(nodes[d], n);
    NodeAt(cap, nodes, n);
    NodeAt(cap, nodes, d);
    DropTarget(cap, nodes, n, d);
    DropClearsOwn(cap, nodes[n], n, d);
    ClearsFar(cap, nodes[d], d, n);
    DropEachOther(cap, nodes[n], n, nodes[d], d);
    TwoNodePairs(nodes, n, nn, d, nv);
    InsideTwo(cap, s, n, nn, d, nv);
  }

  lemma DropTarget(cap: nat, nodes: map<Nid, Node>, n: Nid, d: Nid)
    requires Pairs(nodes) && OpLock(nodes) && n in nodes && d in nodes && NodeOk(cap, n, nodes[n])
    requires nodes[n].phase.Dropping? && d in nodes[n].phase.drop
    ensures d != n && nodes[d].phase.Settled? && n in Names(nodes[d])
  {
    Settles(cap, nodes, n, d);
  }

  lemma DropKeepsOwn(cap: nat, node: Node, n: Nid, d: Nid)
    requires NodeOk(cap, n, node) && node.phase.Dropping? && d in node.phase.drop
    ensures NodeOk(cap, n, DroppedOwn(node, d, true))
    ensures Names(DroppedOwn(node, d, true)) == Names(node) && n !in Names(node)
    ensures Unanswered(DroppedOwn(node, d, true)) == Unanswered(node)
  {
  }

  lemma DropClearsOwn(cap: nat, node: Node, n: Nid, d: Nid)
    requires NodeOk(cap, n, node) && node.phase.Dropping? && d in node.phase.drop
    ensures NodeOk(cap, n, DroppedOwn(node, d, false))
    ensures Names(DroppedOwn(node, d, false)) == Names(node) && d in Names(node)
    ensures Unanswered(DroppedOwn(node, d, false)) == Unanswered(node) + {d}
  {
  }

  lemma SettledParts(cap: nat, v: Nid, node: Node)
    requires NodeOk(cap, v, node) && node.phase.Settled?
    ensures node.inc == {} && node.over !! node.out && |node.out| <= cap && v !in node.out && v !in node.over
    ensures Names(node) == node.out + node.over && Unanswered(node) == {}
  {
  }

  lemma SettledFrom(cap: nat, v: Nid, node: Node)
    requires node.phase.Settled? && node.inc == {} && node.over !! node.out && |node.out| <= cap && v !in node.out &&
             v !in node.over
    ensures NodeOk(cap, v, node) && Names(node) == node.out + node.over && Unanswered(node) == {}
  {
  }

  lemma WithoutOne(a: set<Nid>, n: Nid)
    ensures |a - {n}| <= |a|
  {
    if n in a {
      assert a == (a - {n}) + {n};
    } else {
      assert a - {n} == a;
    }
  }

  lemma ClearedParts(far: Node, n: Nid)
    requires far.inc == {} && far.over !! far.out
    ensures Cleared(far, n) == far.(out := far.out - {n}, over := far.over - {n})
  {
    if n in far.out {
      assert far.over - {n} == far.over;
    } else {
      assert far.out - {n} == far.out;
    }
    assert far.inc - {n} == {};
  }

  lemma ClearsFar(cap: nat, far: Node, v: Nid, n: Nid)
    requires NodeOk(cap, v, far) && far.phase.Settled?
    ensures NodeOk(cap, v, Cleared(far, n)) && Names(Cleared(far, n)) == Names(far) - {n}
    ensures Cleared(far, n).phase == Settled && Unanswered(Cleared(far, n)) == {} && Unanswered(far) == {}
  {
    hide NodeOk, Names, Unanswered, Cleared;
    SettledParts(cap, v, far);
    ClearedParts(far, n);
    WithoutOne(far.out, n);
    SettledFrom(cap, v, Cleared(far, n));
  }

  lemma DropEachOther(cap: nat, node: Node, n: Nid, far: Node, d: Nid)
    requires NodeOk(cap, n, node) && NodeOk(cap, d, far) && n != d && node.phase.Dropping? && d in node.phase.drop
    requires far.phase.Settled? && n in Names(far)
    ensures OnlyEachOther(n, node, DroppedOwn(node, d, false), d, far, Cleared(far, n))
  {
    hide NodeOk, Names, Unanswered, Cleared;
    DropClearsOwn(cap, node, n, d);
    ClearsFar(cap, far, d, n);
  }

  lemma KeepLinkKeeps(cap: nat, s: State, t: Tid, n: Nid)
    requires Inv(cap, s) && Enabled(cap, s, KeepLink(t, n))
    ensures Inv(cap, Apply(cap, s, KeepLink(t, n)))
  {
    hide NodeOk, NodesOk, Pairs, OpLock, Met, Threads, Owners, Wanted, Unanswered;
    NodeAt(cap, s.nodes, n);
    KeepOwn(cap, s.nodes[n], n);
    SameNamesPairs(s.nodes, n, KeptOwn(s.nodes[n]));
    InsideOne(cap, s, n, KeptOwn(s.nodes[n]));
  }

  lemma KeepOwn(cap: nat, node: Node, n: Nid)
    requires NodeOk(cap, n, node) && node.phase.Keeping?
    ensures NodeOk(cap, n, KeptOwn(node)) && n !in Names(node)
    ensures Names(KeptOwn(node)) == Names(node) && Unanswered(KeptOwn(node)) == Unanswered(node)
  {
  }

  lemma FreePromotedKeeps(cap: nat, s: State, t: Tid, n: Nid, v: Nid)
    requires Inv(cap, s) && Enabled(cap, s, FreePromoted(t, n, v))
    ensures Inv(cap, Apply(cap, s, FreePromoted(t, n, v)))
  {
    hide NodeOk, NodesOk, Pairs, OpLock, Met, Threads, Owners, Wanted, Unanswered;
    NodeAt(cap, s.nodes, n);
    PromoteOwn(cap, s.nodes[n], n, v);
    SameNamesPairs(s.nodes, n, PromotedOwn(s.nodes[n], v));
    InsideOne(cap, s, n, PromotedOwn(s.nodes[n], v));
  }

  lemma PromoteOwn(cap: nat, node: Node, n: Nid, v: Nid)
    requires NodeOk(cap, n, node) && node.phase.Promoting? && v in node.phase.promoted
    ensures NodeOk(cap, n, PromotedOwn(node, v)) && n !in Names(node)
    ensures Names(PromotedOwn(node, v)) == Names(node) && Unanswered(PromotedOwn(node, v)) == Unanswered(node)
  {
  }

  lemma EndReplaceKeeps(cap: nat, s: State, t: Tid, n: Nid)
    requires Inv(cap, s) && Enabled(cap, s, EndReplace(t, n))
    ensures Inv(cap, Apply(cap, s, EndReplace(t, n)))
  {
    hide NodeOk, NodesOk, Pairs, OpLock, Met, Threads, Owners, Wanted, Unanswered;
    NodeAt(cap, s.nodes, n);
    RelinkingOwn(cap, s.nodes[n], n);
    SameNamesPairs(s.nodes, n, RelinkOwn(s.nodes[n]));
    InsideOne(cap, s, n, RelinkOwn(s.nodes[n]));
  }

  lemma RelinkingOwn(cap: nat, node: Node, n: Nid)
    requires NodeOk(cap, n, node) && node.phase.Promoting? && node.phase.promoted == {}
    ensures NodeOk(cap, n, RelinkOwn(node)) && n !in Names(node)
    ensures Names(RelinkOwn(node)) == Names(node) && Unanswered(RelinkOwn(node)) == Unanswered(node)
  {
  }

  lemma WriteKeeps(cap: nat, s: State, t: Tid, n: Nid)
    requires Enabled(cap, s, Write(t, n)) && Inv(cap, s)
    ensures Inv(cap, Apply(cap, s, Write(t, n)))
  {
    hide NodeOk, NodesOk, Pairs, OpLock, Met, Threads, Owners, Wanted, Names, Unanswered, WrittenOwn, SameStanding;
    NodeAt(cap, s.nodes, n);
    WriteOwn(cap, s.nodes[n], n);
    WriteWanted(s, n);
    WritePairs(cap, s.nodes, n);
    InsideOne(cap, s, n, WrittenOwn(s.nodes[n]));
  }

  lemma WritePairs(cap: nat, nodes: map<Nid, Node>, n: Nid)
    requires n in nodes && nodes[n].phase.Dropping? && nodes[n].phase.drop == {}
    requires NodeOk(cap, n, nodes[n]) && Pairs(nodes) && OpLock(nodes)
    requires forall w :: w in nodes[n].phase.want ==>
               w in nodes && !nodes[w].phase.Retired? && !nodes[w].phase.Created?
    ensures Pairs(nodes[n := WrittenOwn(nodes[n])])
  {
    hide NodeOk, Pairs, OpLock, Names, PairOk, WrittenOwn;
    var nn := WrittenOwn(nodes[n]);
    forall w | w in Names(nn) ensures w != n && w in nodes && PairOk(n, nn, w, nodes[w]) {
      WriteRow(cap, nodes, n, w);
    }
    forall u | u in nodes && u != n && !nodes[u].phase.Retired? && n in Names(nodes[u])
      ensures PairOk(u, nodes[u], n, nn)
    {
      WriteColumn(cap, nodes, n, u);
    }
    OneNodePairs(nodes, n, nn);
  }

  /** The sets of steps C and D. */
  lemma WriteSets(out: set<Nid>, inc: set<Nid>, over: set<Nid>, want: set<Nid>)
    requires out <= want && inc !! want && over !! out
    ensures var added := want - out - inc;
            var out', inc' := out * want + added * over, inc * want + (added - over);
            && out' == out + want * over && inc' == want - out - over && added * over == want * over
            && out' !! inc' && out' + inc' == want && |out'| + |inc'| == |want|
            && want * over == out' * over && inc' !! over
  {
    var added := want - out - inc;
    assert added == want - out;
    assert added * over == want * over;
    assert inc * want == {};
    assert out * want == out;
    var out', inc' := out + want * over, want - out - over;
    assert out' + inc' == want;
  }

  lemma WriteParts(cap: nat, node: Node, n: Nid)
    requires NodeOk(cap, n, node) && node.phase.Dropping? && node.phase.drop == {}
    ensures node.out <= node.phase.want && node.inc !! node.phase.want && node.over !! node.out
    ensures |node.phase.want| <= cap && n !in node.phase.want && n !in node.over
    ensures Unanswered(node) == node.inc - node.over
  {
  }

  lemma WriteResult(cap: nat, node: Node, n: Nid, nn: Node)
    requires node.phase.Dropping? && nn.over == node.over
    requires nn.phase == Promoting(node.phase.owner, node.phase.want * node.over, node.phase.want)
    requires nn.out !! nn.inc && nn.out + nn.inc == node.phase.want && |nn.out| + |nn.inc| == |node.phase.want|
    requires node.phase.want * node.over == nn.out * node.over && nn.inc !! node.over
    requires |node.phase.want| <= cap && n !in node.phase.want && n !in node.over
    ensures NodeOk(cap, n, nn) && Names(nn) == node.phase.want + node.over && Unanswered(nn) == nn.inc
    ensures SameStanding(node.phase, nn.phase)
  {
  }

  lemma WriteOwn(cap: nat, node: Node, n: Nid)
    requires NodeOk(cap, n, node) && node.phase.Dropping? && node.phase.drop == {}
    ensures NodeOk(cap, n, WrittenOwn(node))
    ensures Names(WrittenOwn(node)) == node.phase.want + node.over
    ensures Unanswered(WrittenOwn(node)) == node.phase.want - node.out - node.over
    ensures SameStanding(node.phase, WrittenOwn(node).phase)
  {
    hide NodeOk, Names, Unanswered, SameStanding;
    WriteParts(cap, node, n);
    WriteSets(node.out, node.inc, node.over, node.phase.want);
    WriteResult(cap, node, n, WrittenOwn(node));
  }

  /** Everything the new list names is linked into the graph and not retired. */
  lemma WriteWanted(s: State, n: Nid)
    requires n in s.nodes && s.nodes[n].phase.Dropping? && Threads(s) && Wanted(s)
    ensures forall w :: w in s.nodes[n].phase.want ==>
              w in s.nodes && !s.nodes[w].phase.Retired? && !s.nodes[w].phase.Created?
  {
  }

  /** What the record names, and which of it is unanswered, before and after. */
  lemma WriteAt(cap: nat, node: Node, n: Nid, w: Nid)
    requires NodeOk(cap, n, node) && node.phase.Dropping? && node.phase.drop == {}
    ensures var nn := WrittenOwn(node);
            && (w in Names(nn) <==> w in node.phase.want || w in node.over)
            && (w in Unanswered(nn) <==> w in node.phase.want && w !in node.out && w !in node.over)
            && (w in Names(node) <==> w in node.out || w in node.inc || w in node.over)
            && (w in Unanswered(node) <==> w in node.inc && w !in node.over)
            && (w in node.inc ==> w !in node.phase.want) && (w in node.out ==> w in node.phase.want)
            && (w in Names(nn) ==> w != n)
            && nn.phase.Promoting?
  {
    hide NodeOk, Unanswered, WrittenOwn, SameStanding;
    WriteParts(cap, node, n);
    WriteOwn(cap, node, n);
    WritePromotes(node);
  }

  lemma WritePromotes(node: Node)
    requires node.phase.Dropping?
    ensures WrittenOwn(node).phase.Promoting?
  {
  }

  lemma WriteRow(cap: nat, nodes: map<Nid, Node>, n: Nid, w: Nid)
    requires n in nodes && nodes[n].phase.Dropping? && nodes[n].phase.drop == {}
    requires NodeOk(cap, n, nodes[n]) && Pairs(nodes) && OpLock(nodes) && w in Names(WrittenOwn(nodes[n]))
    requires w in nodes[n].phase.want ==> w in nodes && !nodes[w].phase.Retired? && !nodes[w].phase.Created?
    ensures w != n && w in nodes && PairOk(n, WrittenOwn(nodes[n]), w, nodes[w])
  {
    hide NodeOk, Pairs, Names, Unanswered, WrittenOwn, OpLock;
    var node := nodes[n];
    WriteAt(cap, node, n, w);
    if w in node.out || w in node.over {
      PairAt(nodes, n, w);
    } else if n in Names(nodes[w]) {
      PairAt(nodes, w, n);
      FarAnswers(nodes, n, w);
    }
  }

  /** While n's record is being rewritten under the exclusive operation lock, another live record
      names n only if n answers: no other operation has links left unanswered. */
  lemma FarAnswers(nodes: map<Nid, Node>, n: Nid, w: Nid)
    requires n in nodes && w in nodes && n != w && nodes[n].phase.Dropping? && OpLock(nodes)
    requires !nodes[w].phase.Retired? && !nodes[w].phase.Created?
    ensures Unanswered(nodes[w]) == {}
  {
  }

  lemma WriteColumn(cap: nat, nodes: map<Nid, Node>, n: Nid, u: Nid)
    requires n in nodes && nodes[n].phase.Dropping? && nodes[n].phase.drop == {}
    requires NodeOk(cap, n, nodes[n]) && Pairs(nodes) && OpLock(nodes)
    requires u in nodes[n].phase.want ==> u in nodes && !nodes[u].phase.Retired? && !nodes[u].phase.Created?
    requires u in nodes && u != n && !nodes[u].phase.Retired? && n in Names(nodes[u])
    ensures PairOk(u, nodes[u], n, WrittenOwn(nodes[n]))
  {
    hide NodeOk, Pairs, Names, Unanswered, WrittenOwn, OpLock;
    PairAt(nodes, u, n);
    WriteAt(cap, nodes[n], n, u);
    if u in Names(nodes[n]) {
      PairAt(nodes, n, u);
    }
    if !nodes[u].phase.Created? {
      FarAnswers(nodes, n, u);
    }
  }

  // ------------------------------------------------------------------------------------------
  // Where operations begin and end.

  /** A thread takes up a node: it was settled, or it is new. */
  lemma BeginOperation(s: State, t: Tid, n: Nid, nn: Node)
    requires t in s.threads && s.threads[t].busy == None && s.threads[t].level != Unlocked
    requires n in s.nodes ==> s.nodes[n].phase.Settled? && !nn.phase.Created?
    requires !nn.phase.Settled? && !nn.phase.Retired? && nn.phase.owner == t
    requires nn.phase.Unlinking? ==> s.threads[t].level == Exclusive
    requires Threads(s) && Owners(s)
    ensures var s' := SetThread(SetNode(s, n, nn), t, s.threads[t].(busy := Some(n))); Threads(s') && Owners(s')
  {
    var s' := SetThread(SetNode(s, n, nn), t, s.threads[t].(busy := Some(n)));
    assert forall u :: u in s'.threads ==>
             s'.threads[u].level == s.threads[u].level && s'.threads[u].work == s.threads[u].work;
    forall u | u in s'.nodes && !s'.nodes[u].phase.Settled? && !s'.nodes[u].phase.Retired?
      ensures Runs(s', s'.nodes[u].phase.owner, u)
    {
      if u != n {
        assert Runs(s, s.nodes[u].phase.owner, u);
      }
    }
  }

  /** A thread is done with a node, and keeps `work` in hand. */
  lemma EndOperation(s: State, t: Tid, n: Nid, nn: Node, work: set<Nid>)
    requires Runs(s, t, n) && (nn.phase.Settled? || nn.phase.Retired?)
    requires nn.phase.Retired? ==> forall u :: u in s.threads && u != t ==> n !in s.threads[u].work
    requires s.threads[t].level != Unlocked
    requires forall w :: w in work ==>
               if w == n then nn.phase.Settled?
               else w in s.nodes && !s.nodes[w].phase.Retired? && !s.nodes[w].phase.Created?
    requires Threads(s) && Owners(s)
    ensures var s' := SetThread(SetNode(s, n, nn), t, s.threads[t].(busy := None, work := work));
            Threads(s') && Owners(s')
  {
    var s' := SetThread(SetNode(s, n, nn), t, s.threads[t].(busy := None, work := work));
    assert forall u :: u in s'.threads ==> s'.threads[u].level == s.threads[u].level;
    forall u | u in s'.nodes && !s'.nodes[u].phase.Settled? && !s'.nodes[u].phase.Retired?
      ensures Runs(s', s'.nodes[u].phase.owner, u)
    {
      assert Runs(s, s.nodes[u].phase.owner, u);
    }
  }

  lemma CreateKeeps(cap: nat, s: State, t: Tid, n: Nid, ns: set<Nid>)
    requires Enabled(cap, s, Create(t, n, ns)) && Inv(cap, s)
    ensures Inv(cap, Apply(cap, s, Create(t, n, ns)))
  {
    var nn := Node({}, ns, {}, Created(t));
    CreatePairs(s, t, n, ns);
    BeginOperation(s, t, n, nn);
    hide Pairs, Threads, Owners;
    CreateRest(cap, s, t, n, ns);
  }

  lemma CreatePairs(s: State, t: Tid, n: Nid, ns: set<Nid>)
    requires t in s.threads && n !in s.nodes && ns <= s.threads[t].work && Pairs(s.nodes) && Threads(s)
    ensures Pairs(s.nodes[n := Node({}, ns, {}, Created(t))])
  {
    var nn := Node({}, ns, {}, Created(t));
    assert Names(nn) == ns;
    OneNodePairs(s.nodes, n, nn);
  }

  lemma CreateRest(cap: nat, s: State, t: Tid, n: Nid, ns: set<Nid>)
    requires t in s.threads && n !in s.nodes && |ns| <= cap && n !in ns && s.threads[t].busy == None
    requires NodesOk(cap, s.nodes) && OpLock(s.nodes) && Met(s.nodes) && Wanted(s)
    ensures var s' := SetThread(SetNode(s, n, Node({}, ns, {}, Created(t))), t, s.threads[t].(busy := Some(n)));
            NodesOk(cap, s'.nodes) && OpLock(s'.nodes) && Met(s'.nodes) && Wanted(s')
  {
    hide NodeOk;
    assert NodeOk(cap, n, Node({}, ns, {}, Created(t))) by { CreateOwn(cap, t, n, ns); }
  }

  lemma CreateOwn(cap: nat, t: Tid, n: Nid, ns: set<Nid>)
    requires |ns| <= cap && n !in ns
    ensures NodeOk(cap, n, Node({}, ns, {}, Created(t)))
  {
  }

  lemma OneNodeOk(cap: nat, nodes: map<Nid, Node>, n: Nid, nn: Node)
    requires NodesOk(cap, nodes) && NodeOk(cap, n, nn)
    ensures NodesOk(cap, nodes[n := nn])
  {
    hide NodeOk;
  }

  lemma BeginLinkKeeps(cap: nat, s: State, t: Tid, n: Nid)
    requires Enabled(cap, s, BeginLink(t, n)) && Inv(cap, s)
    ensures Inv(cap, Apply(cap, s, BeginLink(t, n)))
  {
    hide NodeOk, NodesOk, Pairs, Threads, Owners, OpLock, Met, Wanted, Names, Unanswered;
    var nn := s.nodes[n].(phase := Linking(t, s.nodes[n].inc, s.nodes[n].inc, false));
    NodeAt(cap, s.nodes, n);
    BeginLinkOwn(cap, s.nodes[n], n, t);
    BeginLinkPairs(cap, s.nodes, n, t);
    OneNodeOk(cap, s.nodes, n, nn);
    BeginLinkRest(s, t, n);
  }

  lemma BeginLinkOwn(cap: nat, node: Node, n: Nid, t: Tid)
    requires NodeOk(cap, n, node) && node.phase.Created?
    ensures NodeOk(cap, n, node.(phase := Linking(t, node.inc, node.inc, false)))
  {
  }

  lemma BeginLinkPairs(cap: nat, nodes: map<Nid, Node>, n: Nid, t: Tid)
    requires n in nodes && nodes[n].phase.Created? && NodeOk(cap, n, nodes[n]) && Pairs(nodes)
    ensures Pairs(nodes[n := nodes[n].(phase := Linking(t, nodes[n].inc, nodes[n].inc, false))])
  {
    var nn := nodes[n].(phase := Linking(t, nodes[n].inc, nodes[n].inc, false));
    assert Names(nn) == Names(nodes[n]) == nodes[n].inc;
    OneNodePairs(nodes, n, nn);
  }

  lemma BeginLinkRest(s: State, t: Tid, n: Nid)
    requires Runs(s, t, n) && s.nodes[n].phase.Created?
    requires forall u :: u in s.nodes ==> !HoldsExclusive(s.nodes[u].phase)
    requires Threads(s) && Owners(s) && OpLock(s.nodes) && Wanted(s)
    ensures var s' := SetNode(s, n, s.nodes[n].(phase := Linking(t, s.nodes[n].inc, s.nodes[n].inc, false)));
            Threads(s') && Owners(s') && OpLock(s'.nodes) && Wanted(s') && Met(s'.nodes)
  {
  }

  lemma ConfirmKeeps(cap: nat, s: State, t: Tid, n: Nid)
    requires Enabled(cap, s, Confirm(t, n)) && Inv(cap, s)
    ensures Inv(cap, Apply(cap, s, Confirm(t, n)))
  {
    hide NodeOk, NodesOk, Pairs, Threads, Owners, OpLock, Met, Wanted, Names, Unanswered;
    var nn := Confirmed(s.nodes[n]);
    BusyIsLocked(s, t, n);
    NodeAt(cap, s.nodes, n);
    ConfirmOwn(cap, s.nodes[n], n);
    SameNamesPairs(s.nodes, n, nn);
    OneNodeOk(cap, s.nodes, n, nn);
    WorkIsLive(s, t);
    EndOperation(s, t, n, nn, s.threads[t].work + {n});
    EndRest(s, t, n, nn, s.threads[t].work + {n});
  }

  lemma BusyIsLocked(s: State, t: Tid, n: Nid)
    requires Runs(s, t, n) && Threads(s)
    ensures s.threads[t].level != Unlocked
  {
  }

  lemma ConfirmOwn(cap: nat, node: Node, n: Nid)
    requires NodeOk(cap, n, node) && node.phase.Linking? && node.phase.todo == {}
    ensures NodeOk(cap, n, Confirmed(node)) && Names(Confirmed(node)) == Names(node) && n !in Names(node)
    ensures Unanswered(Confirmed(node)) == {} && Unanswered(node) == {}
  {
    assert |node.out + node.inc| == |node.out| + |node.inc|;
  }

  lemma WorkIsLive(s: State, t: Tid)
    requires t in s.threads && Threads(s)
    ensures forall w :: w in s.threads[t].work ==>
              w in s.nodes && !s.nodes[w].phase.Retired? && !s.nodes[w].phase.Created?
  {
  }

  /** What ending an operation other than an unlinking leaves as it was. */
  lemma EndRest(s: State, t: Tid, n: Nid, nn: Node, work: set<Nid>)
    requires Runs(s, t, n) && nn.phase.Settled? && !Idle(s.nodes[n].phase) && !s.nodes[n].phase.Unlinking?
    requires s.nodes[n].phase.owner == t || !Replacing(s.nodes[n].phase)
    requires s.threads[t].work <= work
    requires OpLock(s.nodes) && Wanted(s)
    ensures var s' := SetThread(SetNode(s, n, nn), t, s.threads[t].(busy := None, work := work));
            OpLock(s'.nodes) && Wanted(s') && Met(s'.nodes)
  {
  }

  lemma BeginReplaceKeeps(cap: nat, s: State, t: Tid, n: Nid, want: set<Nid>)
    requires Enabled(cap, s, BeginReplace(t, n, want)) && Inv(cap, s)
    ensures Inv(cap, Apply(cap, s, BeginReplace(t, n, want)))
  {
    hide NodeOk, NodesOk, Pairs, Threads, Owners, OpLock, Met, Wanted, Names, Unanswered;
    var nn := Demoted(s.nodes[n], t, want);
    WorkIsLive(s, t);
    NodeAt(cap, s.nodes, n);
    DemoteOwn(cap, s.nodes[n], n, t, want);
    SameNamesPairs(s.nodes, n, nn);
    OneNodeOk(cap, s.nodes, n, nn);
    BeginOperation(s, t, n, nn);
    BeginExclusiveRest(s, t, n, nn);
  }

  lemma DemoteOwn(cap: nat, node: Node, n: Nid, t: Tid, want: set<Nid>)
    requires NodeOk(cap, n, node) && node.phase.Settled? && n !in want && |want| <= cap
    ensures NodeOk(cap, n, Demoted(node, t, want)) && n !in Names(node)
    ensures Names(Demoted(node, t, want)) == Names(node)
    ensures Unanswered(Demoted(node, t, want)) == {} && Unanswered(node) == {}
  {
    DemoteNames(cap, node, n, t, want);
    SplitSize(node.out, want);
  }

  lemma DemoteNames(cap: nat, node: Node, n: Nid, t: Tid, want: set<Nid>)
    requires NodeOk(cap, n, node) && node.phase.Settled?
    ensures Demoted(node, t, want).inc == node.out - want
    ensures Names(Demoted(node, t, want)) == Names(node)
  {
    hide NodeOk;
    SettledParts(cap, n, node);
    assert node.inc + (node.out - want) == node.out - want;
    assert node.out * want + (node.out - want) == node.out;
  }

  lemma SplitSize(a: set<Nid>, b: set<Nid>)
    ensures |a| == |a * b| + |a - b|
  {
    assert a == a * b + (a - b);
  }

  lemma BeginExclusiveRest(s: State, t: Tid, n: Nid, nn: Node)
    requires t in s.threads && n in s.nodes && s.threads[t].busy == None
    requires forall u :: u in s.nodes ==> Idle(s.nodes[u].phase)
    requires Replacing(nn.phase) ==> nn.phase.owner == t && nn.phase.want <= s.threads[t].work
    requires nn.phase.Unlinking? ==> nn.phase.met == {}
    ensures var s' := SetThread(SetNode(s, n, nn), t, s.threads[t].(busy := Some(n)));
            OpLock(s'.nodes) && Wanted(s') && Met(s'.nodes)
  {
  }

  // ------------------------------------------------------------------------------------------
  // Unlinking a node, and dropping it.

  lemma BeginUnlinkKeeps(cap: nat, s: State, t: Tid, n: Nid)
    requires Enabled(cap, s, BeginUnlink(t, n)) && Inv(cap, s)
    ensures Inv(cap, Apply(cap, s, BeginUnlink(t, n)))
  {
    hide NodeOk, NodesOk, Pairs, Threads, Owners, OpLock, Met, Wanted, Names, Unanswered;
    var nn := UnlinkOwn(s.nodes[n], t);
    NodeAt(cap, s.nodes, n);
    UnlinkingOwn(cap, s.nodes[n], n, t);
    SameNamesPairs(s.nodes, n, nn);
    OneNodeOk(cap, s.nodes, n, nn);
    BeginOperation(s, t, n, nn);
    BeginExclusiveRest(s, t, n, nn);
  }

  lemma UnlinkingOwn(cap: nat, node: Node, n: Nid, t: Tid)
    requires NodeOk(cap, n, node) && node.phase.Settled?
    ensures NodeOk(cap, n, UnlinkOwn(node, t)) && n !in Names(node)
    ensures Names(UnlinkOwn(node, t)) == Names(node)
    ensures Unanswered(UnlinkOwn(node, t)) == {} && Unanswered(node) == {}
  {
    assert node.inc + node.out == node.out;
  }

  lemma SeverKeeps(cap: nat, s: State, t: Tid, n: Nid, v: Nid)
    requires Enabled(cap, s, Sever(t, n, v)) && Inv(cap, s)
    ensures Inv(cap, Apply(cap, s, Sever(t, n, v)))
  {
    hide NodeOk, NodesOk, Pairs, OpLock, Met, Threads, Owners, Wanted, OnlyEachOther, Unanswered, Names, Cleared;
    var nodes := s.nodes;
    NodeAt(cap, nodes, n);
    NodeAt(cap, nodes, v);
    SeverTarget(cap, nodes, n, v);
    var nn, nv := SeveredOwn(nodes[n], n, v, nodes[v]), Cleared(nodes[v], n);
    SeverOwn(cap, nodes[n], n, v, nodes[v]);
    ClearsFar(cap, nodes[v], v, n);
    SeverEachOther(cap, nodes[n], n, nodes[v], v);
    TwoNodePairs(nodes, n, nn, v, nv);
    TwoNodesOk(cap, nodes, n, nn, v, nv);
    InsideOperation(s, SetNode(SetNode(s, v, nv), n, nn));
    SeverMet(cap, nodes, n, v);
  }

  lemma SeverTarget(cap: nat, nodes: map<Nid, Node>, n: Nid, v: Nid)
    requires Pairs(nodes) && OpLock(nodes) && n in nodes && v in nodes && NodeOk(cap, n, nodes[n])
    requires nodes[n].phase.Unlinking? && v in nodes[n].phase.todo
    ensures v != n && nodes[v].phase.Settled? && (n in Names(nodes[v]) <==> v !in nodes[n].phase.severed)
  {
    Settles(cap, nodes, n, v);
  }

  lemma SeverOwn(cap: nat, node: Node, n: Nid, v: Nid, far: Node)
    requires NodeOk(cap, n, node) && node.phase.Unlinking? && v in node.phase.todo && v != n
    ensures NodeOk(cap, n, SeveredOwn(node, n, v, far))
    ensures Names(SeveredOwn(node, n, v, far)) == Names(node) && v in Names(node)
    ensures Unanswered(SeveredOwn(node, n, v, far)) == Unanswered(node) + {v}
  {
    hide Cleared;
  }

  lemma SeverEachOther(cap: nat, node: Node, n: Nid, far: Node, v: Nid)
    requires NodeOk(cap, n, node) && NodeOk(cap, v, far) && n != v && node.phase.Unlinking? && v in node.phase.todo
    requires far.phase.Settled? && (n in Names(far) <==> v !in node.phase.severed)
    ensures OnlyEachOther(n, node, SeveredOwn(node, n, v, far), v, far, Cleared(far, n))
  {
    hide NodeOk, Names, Unanswered, Cleared;
    SeverOwn(cap, node, n, v, far);
    ClearsFar(cap, far, v, n);
  }

  lemma SeverMet(cap: nat, nodes: map<Nid, Node>, n: Nid, v: Nid)
    requires n in nodes && v in nodes && n != v && nodes[n].phase.Unlinking? && v in nodes[n].phase.todo
    requires nodes[v].phase.Settled? && NodeOk(cap, n, nodes[n]) && OpLock(nodes) && Met(nodes)
    ensures Met(nodes[v := Cleared(nodes[v], n)][n := SeveredOwn(nodes[n], n, v, nodes[v])])
  {
    hide Names;
  }

  lemma FreeSeveredKeeps(cap: nat, s: State, t: Tid, n: Nid, freed: set<Nid>)
    requires Enabled(cap, s, FreeSevered(t, n, freed)) && Inv(cap, s)
    ensures Inv(cap, Apply(cap, s, FreeSevered(t, n, freed)))
  {
    hide Inv, SetNode, FreedOwn;
    FreeAll(cap, s, n, freed);
  }

  lemma FreeAll(cap: nat, s: State, n: Nid, freed: set<Nid>)
    requires n in s.nodes && s.nodes[n].phase.Unlinking?
    requires freed !! s.nodes[n].phase.todo && freed !! s.nodes[n].phase.orphans
    requires Inv(cap, s)
    ensures Inv(cap, SetNode(s, n, FreedOwn(s.nodes[n], freed)))
  {
    hide NodeOk, NodesOk, Pairs, Threads, Owners, OpLock, Met, Wanted, Names, Unanswered;
    var nn := FreedOwn(s.nodes[n], freed);
    NodeAt(cap, s.nodes, n);
    FreeOwn(cap, s.nodes[n], n, freed);
    FreePairs(cap, s.nodes, n, freed);
    OneNodeOk(cap, s.nodes, n, nn);
    FreeMet(s.nodes, n, freed);
    assert s.nodes[n].phase == nn.phase;
    hide FreedOwn;
    InsideOperation(s, SetNode(s, n, nn));
  }

  lemma UnlinkingParts(cap: nat, n: Nid, node: Node)
    requires NodeOk(cap, n, node) && node.phase.Unlinking?
    ensures var p := node.phase;
            && node.out == {} && node.inc !! node.over && |node.inc| <= cap && n !in node.inc && n !in node.over
            && p.todo <= node.inc + node.over <= p.todo + p.severed && p.orphans <= node.inc + node.over
            && p.orphans <= p.met && p.met !! p.todo && n !in p.met
    ensures Names(node) == node.inc + node.over
  {
  }

  lemma UnlinkingFrom(cap: nat, n: Nid, node: Node)
    requires node.phase.Unlinking? && node.out == {} && node.inc !! node.over && |node.inc| <= cap && n !in node.inc &&
             n !in node.over
    requires var p := node.phase;
             && p.todo <= node.inc + node.over <= p.todo + p.severed && p.orphans <= node.inc + node.over
             && p.orphans <= p.met && p.met !! p.todo && n !in p.met
    ensures NodeOk(cap, n, node) && Names(node) == node.inc + node.over
  {
  }

  lemma Smaller(a: set<Nid>, b: set<Nid>)
    ensures |a - b| <= |a|
  {
    SplitSize(a, b);
  }

  lemma FreeOwn(cap: nat, node: Node, n: Nid, freed: set<Nid>)
    requires NodeOk(cap, n, node) && node.phase.Unlinking? && freed !! node.phase.todo && freed !! node.phase.orphans
    ensures NodeOk(cap, n, FreedOwn(node, freed)) && Names(FreedOwn(node, freed)) == Names(node) - freed
  {
    hide NodeOk, Names;
    UnlinkingParts(cap, n, node);
    Smaller(node.inc, freed);
    var nn := FreedOwn(node, freed);
    assert nn.inc + nn.over == (node.inc + node.over) - freed;
    UnlinkingFrom(cap, n, nn);
  }

  lemma FreePairs(cap: nat, nodes: map<Nid, Node>, n: Nid, freed: set<Nid>)
    requires n in nodes && nodes[n].phase.Unlinking? && freed !! nodes[n].phase.todo
    requires NodeOk(cap, n, nodes[n]) && Pairs(nodes)
    requires Names(FreedOwn(nodes[n], freed)) == Names(nodes[n]) - freed
    ensures Pairs(nodes[n := FreedOwn(nodes[n], freed)])
  {
    var nn := FreedOwn(nodes[n], freed);
    forall w | w in Names(nn) ensures w != n && w in nodes && PairOk(n, nn, w, nodes[w]) {
      PairAt(nodes, n, w);
    }
    forall u | u in nodes && u != n && !nodes[u].phase.Retired? && n in Names(nodes[u])
      ensures PairOk(u, nodes[u], n, nn)
    {
      PairAt(nodes, u, n);
      if u in Names(nodes[n]) {
        PairAt(nodes, n, u);
      }
    }
    OneNodePairs(nodes, n, nn);
  }

  lemma FreeMet(nodes: map<Nid, Node>, n: Nid, freed: set<Nid>)
    requires n in nodes && nodes[n].phase.Unlinking? && Met(nodes)
    ensures Met(nodes[n := FreedOwn(nodes[n], freed)])
  {
  }

  /** When a node has been unlinked, nothing still in the graph names it in any form. */
  lemma UnlinkedIsUnnamed(cap: nat, s: State, t: Tid, n: Nid, pool: set<Nid>, u: Nid)
    requires Enabled(cap, s, EndUnlink(t, n, pool)) && Inv(cap, s)
    requires u in s.nodes && u != n && !s.nodes[u].phase.Retired?
    ensures n !in Names(s.nodes[u])
  {
    hide NodeOk, NodesOk, Pairs, Threads, Owners, OpLock, Met, Wanted, Names, Unanswered;
    UnlinkerIsAlone(s, t, n);
    if n in Names(s.nodes[u]) {
      PairAt(s.nodes, u, n);
      OthersAreSettled(s, t, n, u);
      NodeAt(cap, s.nodes, n);
      WasSevered(cap, s.nodes, n, u);
    }
  }

  lemma OthersAreSettled(s: State, t: Tid, n: Nid, u: Nid)
    requires Runs(s, t, n) && s.nodes[n].phase.Unlinking? && u in s.nodes && u != n && !s.nodes[u].phase.Retired?
    requires Threads(s) && Owners(s) && OpLock(s.nodes)
    ensures s.nodes[u].phase.Settled? && Unanswered(s.nodes[u]) == {}
  {
    if s.nodes[u].phase.Created? {
      assert false;
    }
  }

  lemma WasSevered(cap: nat, nodes: map<Nid, Node>, n: Nid, u: Nid)
    requires n in nodes && nodes[n].phase.Unlinking? && nodes[n].phase.todo == {} && u in Names(nodes[n])
    requires Pairs(nodes) && NodeOk(cap, n, nodes[n])
    ensures u in nodes && n !in Names(nodes[u])
  {
    PairAt(nodes, n, u);
  }

  lemma RestartKeeps(cap: nat, s: State, t: Tid, n: Nid)
    requires Enabled(cap, s, RestartUnlink(t, n)) && Inv(cap, s)
    ensures Inv(cap, Apply(cap, s, RestartUnlink(t, n)))
  {
    hide NodeOk, NodesOk, Pairs, Threads, Owners, OpLock, Met, Wanted, Names, Unanswered;
    var nn := RestartedOwn(s.nodes[n]);
    NodeAt(cap, s.nodes, n);
    RestartOwn(cap, s.nodes[n], n);
    SameNamesPairs(s.nodes, n, nn);
    OneNodeOk(cap, s.nodes, n, nn);
    InsideOperation(s, SetNode(s, n, nn));
    RestartMet(s.nodes, n);
  }

  lemma RestartOwn(cap: nat, node: Node, n: Nid)
    requires NodeOk(cap, n, node) && node.phase.Unlinking?
    ensures NodeOk(cap, n, RestartedOwn(node)) && n !in Names(node)
    ensures Names(RestartedOwn(node)) == Names(node) && Unanswered(RestartedOwn(node)) == Unanswered(node)
  {
  }

  lemma RestartMet(nodes: map<Nid, Node>, n: Nid)
    requires n in nodes && nodes[n].phase.Unlinking? && OpLock(nodes)
    ensures Met(nodes[n := RestartedOwn(nodes[n])])
  {
  }

  lemma EndUnlinkKeeps(cap: nat, s: State, t: Tid, n: Nid, pool: set<Nid>)
    requires Enabled(cap, s, EndUnlink(t, n, pool)) && Inv(cap, s)
    ensures Inv(cap, Apply(cap, s, EndUnlink(t, n, pool)))
  {
    hide NodeOk, NodesOk, Pairs, Threads, Owners, OpLock, Met, Wanted, Names, Unanswered;
    var nn := s.nodes[n].(phase := Retired);
    forall u | u in s.nodes && u != n && !s.nodes[u].phase.Retired? ensures n !in Names(s.nodes[u]) {
      UnlinkedIsUnnamed(cap, s, t, n, pool, u);
    }
    NodeAt(cap, s.nodes, n);
    UnlinkerIsAlone(s, t, n);
    RetireOwn(cap, s.nodes[n], n);
    OneNodePairs(s.nodes, n, nn);
    OneNodeOk(cap, s.nodes, n, nn);
    EndOperation(s, t, n, nn, pool);
    EndUnlinkRest(s, t, n, pool);
  }

  lemma RetireOwn(cap: nat, node: Node, n: Nid)
    requires NodeOk(cap, n, node) && node.phase.Unlinking?
    ensures NodeOk(cap, n, node.(phase := Retired))
  {
  }

  lemma UnlinkerIsAlone(s: State, t: Tid, n: Nid)
    requires Runs(s, t, n) && s.nodes[n].phase.Unlinking? && Threads(s) && Owners(s) && Met(s.nodes)
    ensures s.threads[t].level != Unlocked
    ensures forall u :: u in s.threads && u != t ==> s.threads[u].work == {}
    ensures forall v :: v in s.nodes[n].phase.met ==> v != n && v in s.nodes && s.nodes[v].phase.Settled?
  {
    assert Runs(s, s.nodes[n].phase.owner, n);
  }

  lemma EndUnlinkRest(s: State, t: Tid, n: Nid, pool: set<Nid>)
    requires Runs(s, t, n) && s.nodes[n].phase.Unlinking? && OpLock(s.nodes)
    ensures var s' := SetThread(SetNode(s, n, s.nodes[n].(phase := Retired)), t,
                                s.threads[t].(busy := None, work := pool));
            OpLock(s'.nodes) && Wanted(s') && Met(s'.nodes)
  {
  }

  lemma DropNodeKeeps(cap: nat, s: State, t: Tid, n: Nid)
    requires Enabled(cap, s, DropNode(t, n)) && Inv(cap, s)
    ensures Inv(cap, Apply(cap, s, DropNode(t, n)))
  {
    hide NodeOk, Names, Unanswered;
  }

  // ------------------------------------------------------------------------------------------
  // Locks and traversal.

  /** Only thread t changes, and neither its operation nor what it must keep in hand. */
  lemma ThreadChange(cap: nat, s: State, t: Tid, th: Thread)
    requires t in s.threads && th.busy == s.threads[t].busy
    requires th.level == Unlocked ==> th.work == {} && th.busy == None
    requires th.busy == None || (th.level == s.threads[t].level && s.threads[t].work <= th.work)
    requires th.level == Exclusive ==> NoOneElseLocks(s, t)
    requires th.level != Unlocked ==> forall u :: u in s.threads && u != t ==> s.threads[u].level != Exclusive
    requires forall w :: w in th.work ==> w in s.nodes && !s.nodes[w].phase.Retired? && !s.nodes[w].phase.Created?
    requires Inv(cap, s)
    ensures Inv(cap, SetThread(s, t, th))
  {
    hide NodesOk, Pairs, OpLock, Met;
    ThreadChangeThreads(s, t, th);
    ThreadChangeOwners(s, t, th);
  }

  lemma ThreadChangeThreads(s: State, t: Tid, th: Thread)
    requires t in s.threads
    requires th.level == Unlocked ==> th.work == {} && th.busy == None
    requires th.level == Exclusive ==> NoOneElseLocks(s, t)
    requires th.level != Unlocked ==> forall u :: u in s.threads && u != t ==> s.threads[u].level != Exclusive
    requires forall w :: w in th.work ==> w in s.nodes && !s.nodes[w].phase.Retired? && !s.nodes[w].phase.Created?
    requires Threads(s)
    ensures Threads(SetThread(s, t, th))
  {
  }

  lemma ThreadChangeOwners(s: State, t: Tid, th: Thread)
    requires t in s.threads && th.busy == s.threads[t].busy
    requires th.busy == None || (th.level == s.threads[t].level && s.threads[t].work <= th.work)
    requires Owners(s) && Wanted(s)
    ensures Owners(SetThread(s, t, th)) && Wanted(SetThread(s, t, th))
  {
    var s' := SetThread(s, t, th);
    forall n | n in s'.nodes && !s'.nodes[n].phase.Settled? && !s'.nodes[n].phase.Retired?
      ensures Runs(s', s'.nodes[n].phase.owner, n)
    {
      assert Runs(s, s.nodes[n].phase.owner, n);
    }
    forall n | n in s'.nodes && (s'.nodes[n].phase.Dropping? || s'.nodes[n].phase.Keeping?)
      ensures s'.nodes[n].phase.want <= s'.threads[s'.nodes[n].phase.owner].work
    {
      assert Runs(s, s.nodes[n].phase.owner, n);
    }
  }

  /** What a traversal meets by following an outgoing link can be linked. */
  lemma FollowedIsLive(cap: nat, s: State, u: Nid, v: Nid)
    requires u in s.nodes && !s.nodes[u].phase.Retired? && v in s.nodes[u].out && Pairs(s.nodes)
    ensures v in s.nodes && !s.nodes[v].phase.Retired? && !s.nodes[v].phase.Created?
  {
    PairAt(s.nodes, u, v);
  }

  lemma NoExclusiveElsewhere(s: State, t: Tid)
    requires t in s.threads && s.threads[t].level != Unlocked && Threads(s)
    ensures forall u :: u in s.threads && u != t ==> s.threads[u].level != Exclusive
  {
  }

  lemma ExclusiveIsAlone(s: State, t: Tid)
    requires t in s.threads && s.threads[t].level == Exclusive && Threads(s)
    ensures NoOneElseLocks(s, t)
  {
  }

  lemma UnlockedIsIdle(s: State, t: Tid)
    requires t in s.threads && s.threads[t].level == Unlocked && Threads(s)
    ensures s.threads[t].busy == None && s.threads[t].work == {}
  {
  }

  lemma ThreadStepKeeps(cap: nat, s: State, step: Step)
    requires step.LockShared? || step.LockExclusive? || step.Unlock? || step.Enter? || step.Follow?
    requires Enabled(cap, s, step) && Inv(cap, s)
    ensures Inv(cap, Apply(cap, s, step))
  {
    hide NodeOk, NodesOk, Pairs, Threads, Owners, OpLock, Met, Wanted, Names, Unanswered;
    var t := step.t;
    var th := s.threads[t];
    WorkIsLive(s, t);
    if th.level == Unlocked {
      UnlockedIsIdle(s, t);
    } else {
      NoExclusiveElsewhere(s, t);
      if th.level == Exclusive { ExclusiveIsAlone(s, t); }
    }
    if step.Follow? {
      FollowedIsLive(cap, s, step.u, step.v);
    }
    ThreadChange(cap, s, t, Apply(cap, s, step).threads[t]);
  }

  lemma StepKeeps(cap: nat, s: State, step: Step)
    requires Enabled(cap, s, step) && Inv(cap, s)
    ensures Inv(cap, Apply(cap, s, step))
  {
    hide Inv, Apply;
    match step
    case Create(t, n, ns) => CreateKeeps(cap, s, t, n, ns);
    case BeginLink(t, n) => BeginLinkKeeps(cap, s, t, n);
    case Land(t, n, v) => LandKeeps(cap, s, t, n, v);
    case Confirm(t, n) => ConfirmKeeps(cap, s, t, n);
    case BeginReplace(t, n, want) => BeginReplaceKeeps(cap, s, t, n, want);
    case DropLink(t, n, d) => DropLinkKeeps(cap, s, t, n, d);
    case KeepLink(t, n) => KeepLinkKeeps(cap, s, t, n);
    case Write(t, n) => WriteKeeps(cap, s, t, n);
    case FreePromoted(t, n, v) => FreePromotedKeeps(cap, s, t, n, v);
    case EndReplace(t, n) => EndReplaceKeeps(cap, s, t, n);
    case BeginUnlink(t, n) => BeginUnlinkKeeps(cap, s, t, n);
    case Sever(t, n, v) => SeverKeeps(cap, s, t, n, v);
    case FreeSevered(t, n, freed) => FreeSeveredKeeps(cap, s, t, n, freed);
    case RestartUnlink(t, n) => RestartKeeps(cap, s, t, n);
    case EndUnlink(t, n, pool) => EndUnlinkKeeps(cap, s, t, n, pool);
    case DropNode(t, n) => DropNodeKeeps(cap, s, t, n);
    case _ => ThreadStepKeeps(cap, s, step);
  }
}
