/** What an overflow chain records, in every run: exactly the nodes that link here without being
    linked back. From that follows when a replacement's new links are reciprocated. */
module LinkChains {
  import opened Wrappers
  import opened LinkProtocol
  import opened LinkSteps
  import opened LinkRuns

  function SeveredBy(p: Phase): (s: set<Nid>) {
    if p.Unlinking? then p.severed else {}
  }

  /** u's chain records v: v holds u in its primary list, unless u is being unlinked and v has been severed. */
  predicate BackOk(u: Nid, nu: Node, v: Nid, nv: Node) {
    v in nu.over && v !in SeveredBy(nu.phase) ==> u in nv.out || u in nv.inc
  }

  ghost predicate Backed(nodes: map<Nid, Node>) {
    forall u, v :: u in nodes && v in nodes && !nodes[u].phase.Retired? ==> BackOk(u, nodes[u], v, nodes[v])
  }

  /** A dropped neighbour about to be chained has an outgoing link of its own. */
  ghost predicate KeptLink(nodes: map<Nid, Node>) {
    forall n :: n in nodes && nodes[n].phase.Keeping? ==>
      nodes[n].phase.kept in nodes && n in nodes[nodes[n].phase.kept].out
  }

  // ------------------------------------------------------------------------------------------
  // Every step keeps both.

  /** No name is added to the chain, none lost from the primary list, none severed taken back. */
  predicate NoLess(node: Node, nn: Node) {
    && nn.over <= node.over && node.out + node.inc <= nn.out + nn.inc
    && (!nn.phase.Retired? ==> !node.phase.Retired? && SeveredBy(node.phase) <= SeveredBy(nn.phase))
  }

  lemma OneBacked(nodes: map<Nid, Node>, n: Nid, nn: Node)
    requires Backed(nodes) && n !in nn.over
    requires !nn.phase.Retired? ==> forall w :: w in nodes && w != n ==> BackOk(n, nn, w, nodes[w])
    requires forall w :: w in nodes && w != n && !nodes[w].phase.Retired? ==> BackOk(w, nodes[w], n, nn)
    ensures Backed(nodes[n := nn])
  {
    hide BackOk;
    assert BackOk(n, nn, n, nn) by { OutsideIsBacked(n, nn, n, nn); }
  }

  lemma OutsideIsBacked(u: Nid, nu: Node, v: Nid, nv: Node)
    requires v !in nu.over
    ensures BackOk(u, nu, v, nv)
  {
  }

  lemma SameBacked(nodes: map<Nid, Node>, n: Nid, nn: Node)
    requires Backed(nodes) && n in nodes && NoLess(nodes[n], nn) && n !in nodes[n].over
    ensures Backed(nodes[n := nn])
  {
    forall w | w in nodes && w != n && !nn.phase.Retired? ensures BackOk(n, nn, w, nodes[w]) {
      assert BackOk(n, nodes[n], w, nodes[w]);
    }
    forall w | w in nodes && w != n && !nodes[w].phase.Retired? ensures BackOk(w, nodes[w], n, nn) {
      assert BackOk(w, nodes[w], n, nodes[n]);
    }
    OneBacked(nodes, n, nn);
  }

  lemma BackAt(nodes: map<Nid, Node>, u: Nid, v: Nid)
    requires Backed(nodes) && u in nodes && v in nodes && !nodes[u].phase.Retired?
    ensures BackOk(u, nodes[u], v, nodes[v])
  {
  }

  /** The steps that write only the record they operate on, and lose nothing. */
  predicate QuietStep(step: Step) {
    step.BeginLink? || step.Confirm? || step.BeginReplace? || step.FreePromoted? || step.EndReplace? ||
    step.BeginUnlink? || step.RestartUnlink? || step.EndUnlink?
  }

  function OwnRecord(s: State, step: Step): (nn: Node)
    requires QuietStep(step) && step.n in s.nodes
    requires step.FreePromoted? || step.EndReplace? ==> s.nodes[step.n].phase.Promoting?
    requires step.RestartUnlink? ==> s.nodes[step.n].phase.Unlinking?
  {
    var node := s.nodes[step.n];
    match step
    case BeginLink(t, n) => node.(phase := Linking(t, node.inc, node.inc, false))
    case Confirm(_, n) => Confirmed(node)
    case BeginReplace(t, n, want) => Demoted(node, t, want)
    case FreePromoted(_, n, v) => PromotedOwn(node, v)
    case EndReplace(_, n) => RelinkOwn(node)
    case BeginUnlink(t, n) => UnlinkOwn(node, t)
    case RestartUnlink(_, n) => RestartedOwn(node)
    case _ => node.(phase := Retired)
  }

  lemma QuietWrites(cap: nat, s: State, step: Step)
    requires Enabled(cap, s, step) && QuietStep(step) && OpLock(s.nodes)
    ensures step.n in s.nodes
    ensures step.FreePromoted? || step.EndReplace? ==> s.nodes[step.n].phase.Promoting?
    ensures step.RestartUnlink? ==> s.nodes[step.n].phase.Unlinking?
    ensures step.BeginLink? ==> s.nodes[step.n].phase.Created?
    ensures step.Confirm? ==> s.nodes[step.n].phase.Linking?
    ensures Apply(cap, s, step).nodes == s.nodes[step.n := OwnRecord(s, step)]
    ensures forall m :: m in s.nodes ==> !s.nodes[m].phase.Keeping?
    ensures !OwnRecord(s, step).phase.Keeping?
  {
    hide WrittenOwn, Landed, Cleared;
  }

  lemma QuietNoLess(s: State, step: Step)
    requires QuietStep(step) && step.n in s.nodes
    requires step.FreePromoted? || step.EndReplace? ==> s.nodes[step.n].phase.Promoting?
    requires step.RestartUnlink? ==> s.nodes[step.n].phase.Unlinking?
    requires step.BeginReplace? || step.BeginUnlink? ==> s.nodes[step.n].phase.Settled?
    requires step.BeginLink? ==> s.nodes[step.n].phase.Created?
    requires step.Confirm? ==> s.nodes[step.n].phase.Linking?
    ensures NoLess(s.nodes[step.n], OwnRecord(s, step))
  {
    var node := s.nodes[step.n];
    if step.BeginReplace? {
      assert node.out * step.want + (node.inc + (node.out - step.want)) == node.out + node.inc;
    }
  }

  /** A node taken up for a replacement or an unlinking is settled. */
  lemma TakenUpIsSettled(cap: nat, s: State, step: Step)
    requires Enabled(cap, s, step) && (step.BeginReplace? || step.BeginUnlink?) && Threads(s)
    ensures step.n in s.nodes && s.nodes[step.n].phase.Settled?
  {
  }

  lemma QuietKeeps(cap: nat, s: State, step: Step)
    requires Enabled(cap, s, step) && QuietStep(step) && Backed(s.nodes) && Inv(cap, s)
    ensures Backed(Apply(cap, s, step).nodes) && KeptLink(Apply(cap, s, step).nodes)
  {
    hide Enabled, Apply, NodesOk, NodeOk, Pairs, OpLock, Met, Threads, Owners, Wanted, Backed, NoLess, OwnRecord;
    QuietWrites(cap, s, step);
    if step.BeginReplace? || step.BeginUnlink? {
      TakenUpIsSettled(cap, s, step);
    }
    NodeAt(cap, s.nodes, step.n);
    NotOwnChain(cap, s.nodes[step.n], step.n);
    QuietNoLess(s, step);
    SameBacked(s.nodes, step.n, OwnRecord(s, step));
  }

  /** An operation in progress on n: no other node is being kept a link for. */
  lemma OnlyOperation(nodes: map<Nid, Node>, n: Nid)
    requires OpLock(nodes) && n in nodes && !Idle(nodes[n].phase)
    ensures forall m :: m in nodes && m != n ==> !nodes[m].phase.Keeping?
  {
  }

  // ------------------------------------------------------------------------------------------
  // Steps that write another record, or take names away.

  /** Both records of a pair change; every other pair is as before. */
  lemma TwoBacked(nodes: map<Nid, Node>, n: Nid, nn: Node, v: Nid, nv: Node)
    requires Backed(nodes) && n in nodes && v in nodes && n != v && n !in nn.over && v !in nv.over
    requires !nodes[n].phase.Retired? && !nodes[v].phase.Retired?
    requires nn.over <= nodes[n].over + {v} && nv.over <= nodes[v].over + {n}
    requires nodes[n].out + nodes[n].inc <= nn.out + nn.inc + {v} &&
             nodes[v].out + nodes[v].inc <= nv.out + nv.inc + {n}
    requires SeveredBy(nodes[n].phase) <= SeveredBy(nn.phase) && SeveredBy(nodes[v].phase) <= SeveredBy(nv.phase)
    requires BackOk(n, nn, v, nv) && BackOk(v, nv, n, nn)
    ensures Backed(nodes[v := nv][n := nn])
  {
    var nodes' := nodes[v := nv][n := nn];
    forall u, w | u in nodes' && w in nodes' && !nodes'[u].phase.Retired? ensures BackOk(u, nodes'[u], w, nodes'[w]) {
      TwoBackedAt(nodes, n, nn, v, nv, u, w);
    }
  }

  lemma TwoBackedAt(nodes: map<Nid, Node>, n: Nid, nn: Node, v: Nid, nv: Node, u: Nid, w: Nid)
    requires Backed(nodes) && n in nodes && v in nodes && n != v && n !in nn.over && v !in nv.over
    requires !nodes[n].phase.Retired? && !nodes[v].phase.Retired?
    requires nn.over <= nodes[n].over + {v} && nv.over <= nodes[v].over + {n}
    requires nodes[n].out + nodes[n].inc <= nn.out + nn.inc + {v} &&
             nodes[v].out + nodes[v].inc <= nv.out + nv.inc + {n}
    requires SeveredBy(nodes[n].phase) <= SeveredBy(nn.phase) && SeveredBy(nodes[v].phase) <= SeveredBy(nv.phase)
    requires BackOk(n, nn, v, nv) && BackOk(v, nv, n, nn)
    requires u in nodes && w in nodes && !nodes[v := nv][n := nn][u].phase.Retired?
    ensures BackOk(u, nodes[v := nv][n := nn][u], w, nodes[v := nv][n := nn][w])
  {
    if nodes[u].phase.Retired? {
    } else {
      BackAt(nodes, u, w);
    }
  }

  lemma LandBacked(cap: nat, s: State, n: Nid, v: Nid, nn: Node, nv: Node)
    requires n in s.nodes && v in s.nodes && s.nodes[n].phase.Linking? && v in s.nodes[n].phase.todo
    requires nn == LandedOwn(s.nodes[n], v) && nv == Landed(cap, s.nodes[v], n)
    requires Backed(s.nodes) && NodesOk(cap, s.nodes) && Pairs(s.nodes) && OpLock(s.nodes)
    ensures Backed(SetNode(SetNode(s, v, nv), n, nn).nodes)
  {
    hide NodesOk, NodeOk, Pairs, OpLock, Met, Threads, Owners, Wanted, Backed;
    NodeAt(cap, s.nodes, n);
    NodeAt(cap, s.nodes, v);
    LandTarget(cap, s.nodes, n, v);
    LandParts(cap, s.nodes[n], n, v);
    NotOwnChain(cap, s.nodes[v], v);
    hide Names;
    TwoBacked(s.nodes, n, nn, v, nv);
  }

  lemma LandParts(cap: nat, node: Node, n: Nid, v: Nid)
    requires NodeOk(cap, n, node) && node.phase.Linking? && v in node.phase.todo
    ensures v in node.inc && v !in node.over && n !in node.over
  {
  }

  lemma NotOwnChain(cap: nat, node: Node, n: Nid)
    requires NodeOk(cap, n, node)
    ensures n !in node.over
  {
  }

  lemma ClearBacked(cap: nat, s: State, n: Nid, d: Nid, nn: Node, nv: Node)
    requires n in s.nodes && d in s.nodes && n != d && s.nodes[d].phase.Settled? && !s.nodes[n].phase.Retired?
    requires nv == Cleared(s.nodes[d], n)
    requires nn.out == s.nodes[n].out && nn.inc == s.nodes[n].inc && nn.over == s.nodes[n].over
    requires SeveredBy(s.nodes[n].phase) <= SeveredBy(nn.phase) && (d in nn.over ==> d in SeveredBy(nn.phase))
    requires Backed(s.nodes) && NodesOk(cap, s.nodes) && Pairs(s.nodes) && OpLock(s.nodes)
    ensures Backed(SetNode(SetNode(s, d, nv), n, nn).nodes)
  {
    hide NodesOk, NodeOk, Pairs, OpLock, Met, Threads, Owners, Wanted, Backed, Cleared;
    NodeAt(cap, s.nodes, n);
    NodeAt(cap, s.nodes, d);
    NotOwnChain(cap, s.nodes[n], n);
    NotOwnChain(cap, s.nodes[d], d);
    SettledParts(cap, d, s.nodes[d]);
    ClearedParts(s.nodes[d], n);
    TwoBacked(s.nodes, n, nn, d, nv);
  }

  lemma KeepBacked(cap: nat, s: State, n: Nid)
    requires n in s.nodes && s.nodes[n].phase.Keeping? && Backed(s.nodes) && KeptLink(s.nodes) && Inv(cap, s)
    ensures Backed(s.nodes[n := KeptOwn(s.nodes[n])])
  {
    hide NodesOk, NodeOk, Pairs, OpLock, Met, Threads, Owners, Wanted, Backed;
    var nodes, nn := s.nodes, KeptOwn(s.nodes[n]);
    NodeAt(cap, nodes, n);
    KeptIsOther(cap, nodes[n], n);
    forall w | w in nodes && w != n ensures BackOk(n, nn, w, nodes[w]) {
      BackAt(nodes, n, w);
    }
    forall w | w in nodes && w != n && !nodes[w].phase.Retired? ensures BackOk(w, nodes[w], n, nn) {
      BackAt(nodes, w, n);
    }
    OneBacked(nodes, n, nn);
  }

  lemma KeptIsOther(cap: nat, node: Node, n: Nid)
    requires NodeOk(cap, n, node) && node.phase.Keeping?
    ensures node.phase.kept != n && n !in node.over
  {
  }

  lemma WriteBacked(cap: nat, s: State, n: Nid)
    requires n in s.nodes && s.nodes[n].phase.Dropping? && s.nodes[n].phase.drop == {}
    requires Backed(s.nodes) && Inv(cap, s)
    ensures Backed(s.nodes[n := WrittenOwn(s.nodes[n])])
  {
    hide NodesOk, NodeOk, Pairs, OpLock, Met, Threads, Owners, Wanted, Backed, WrittenOwn, BackOk;
    var nodes, nn := s.nodes, WrittenOwn(s.nodes[n]);
    NodeAt(cap, nodes, n);
    NotOwnChain(cap, nodes[n], n);
    WrittenParts(cap, nodes[n], n);
    forall w | w in nodes && w != n ensures BackOk(n, nn, w, nodes[w]) {
      BackAt(nodes, n, w);
      SameChainBacked(n, nodes[n], nn, w, nodes[w]);
    }
    forall w | w in nodes && w != n && !nodes[w].phase.Retired? ensures BackOk(w, nodes[w], n, nn) {
      WriteBackedAt(cap, s, n, w);
    }
    OneBacked(nodes, n, nn);
  }

  lemma SameChainBacked(n: Nid, node: Node, nn: Node, w: Nid, far: Node)
    requires BackOk(n, node, w, far) && nn.over == node.over && SeveredBy(node.phase) == SeveredBy(nn.phase)
    ensures BackOk(n, nn, w, far)
  {
  }

  lemma WrittenParts(cap: nat, node: Node, n: Nid)
    requires NodeOk(cap, n, node) && node.phase.Dropping? && node.phase.drop == {}
    ensures var nn := WrittenOwn(node);
            nn.over == node.over && nn.phase.Promoting? && SeveredBy(nn.phase) == SeveredBy(node.phase) == {}
            && nn.out + nn.inc == node.phase.want
  {
    hide NodeOk;
    WriteParts(cap, node, n);
    WriteSets(node.out, node.inc, node.over, node.phase.want);
  }

  /** Whoever still chains n is wanted: the others have been visited, and have dropped n or link to it. */
  lemma WriteBackedAt(cap: nat, s: State, n: Nid, w: Nid)
    requires n in s.nodes && s.nodes[n].phase.Dropping? && s.nodes[n].phase.drop == {}
    requires w in s.nodes && w != n && !s.nodes[w].phase.Retired?
    requires Backed(s.nodes) && Inv(cap, s)
    ensures BackOk(w, s.nodes[w], n, WrittenOwn(s.nodes[n]))
  {
    hide NodesOk, NodeOk, Pairs, OpLock, Met, Threads, Owners, Wanted, Backed, WrittenOwn, Unanswered;
    var nodes := s.nodes;
    NodeAt(cap, nodes, n);
    NodeAt(cap, nodes, w);
    WrittenParts(cap, nodes[n], n);
    WriteParts(cap, nodes[n], n);
    if n in nodes[w].over && n !in SeveredBy(nodes[w].phase) {
      FarIsSettled(cap, nodes, n, w);
      SettledParts(cap, w, nodes[w]);
      BackAt(nodes, w, n);
      if w !in nodes[n].phase.want {
        PairAt(nodes, n, w);
        BackAt(nodes, n, w);
      }
    }
  }

  lemma FarIsSettled(cap: nat, nodes: map<Nid, Node>, n: Nid, w: Nid)
    requires n in nodes && nodes[n].phase.Dropping? && w in nodes && w != n && !nodes[w].phase.Retired?
    requires n in nodes[w].over && NodeOk(cap, w, nodes[w]) && OpLock(nodes)
    ensures nodes[w].phase.Settled?
  {
  }

  lemma FreeBacked(cap: nat, s: State, n: Nid, freed: set<Nid>)
    requires n in s.nodes && s.nodes[n].phase.Unlinking? && freed !! s.nodes[n].phase.todo
    requires Backed(s.nodes) && Inv(cap, s)
    ensures Backed(s.nodes[n := FreedOwn(s.nodes[n], freed)])
  {
    hide NodesOk, NodeOk, Pairs, OpLock, Met, Threads, Owners, Wanted, Backed, BackOk;
    var nodes, nn := s.nodes, FreedOwn(s.nodes[n], freed);
    NodeAt(cap, nodes, n);
    NotOwnChain(cap, nodes[n], n);
    forall w | w in nodes && w != n ensures BackOk(n, nn, w, nodes[w]) {
      BackAt(nodes, n, w);
      FewerChained(n, nodes[n], nn, w, nodes[w]);
    }
    forall w | w in nodes && w != n && !nodes[w].phase.Retired? ensures BackOk(w, nodes[w], n, nn) {
      FreeBackedAt(cap, s, n, freed, w);
    }
    OneBacked(nodes, n, nn);
  }

  lemma FewerChained(n: Nid, node: Node, nn: Node, w: Nid, far: Node)
    requires BackOk(n, node, w, far) && nn.over <= node.over && nn.phase == node.phase
    ensures BackOk(n, nn, w, far)
  {
  }

  lemma FreeBackedAt(cap: nat, s: State, n: Nid, freed: set<Nid>, w: Nid)
    requires n in s.nodes && s.nodes[n].phase.Unlinking? && freed !! s.nodes[n].phase.todo
    requires w in s.nodes && w != n && !s.nodes[w].phase.Retired?
    requires Backed(s.nodes) && Inv(cap, s)
    ensures BackOk(w, s.nodes[w], n, FreedOwn(s.nodes[n], freed))
  {
    hide NodesOk, NodeOk, Pairs, OpLock, Met, Threads, Owners, Wanted, Backed;
    var nodes := s.nodes;
    NodeAt(cap, nodes, n);
    UnlinkingParts(cap, n, nodes[n]);
    BackAt(nodes, w, n);
    if w in nodes[n].inc && w in freed && n in nodes[w].over {
      PairAt(nodes, n, w);
    }
  }

  // ------------------------------------------------------------------------------------------
  // All steps.

  lemma StepKeepsBacked(cap: nat, s: State, step: Step)
    requires Enabled(cap, s, step) && Backed(s.nodes) && KeptLink(s.nodes) && Inv(cap, s)
    ensures Backed(Apply(cap, s, step).nodes) && KeptLink(Apply(cap, s, step).nodes)
  {
    hide Inv, Backed, KeptLink, Enabled, Apply;
    if QuietStep(step) {
      QuietKeeps(cap, s, step);
    } else if step.LockShared? || step.LockExclusive? || step.Unlock? || step.Enter? || step.Follow? {
      ThreadStepSame(cap, s, step);
    } else {
      WritingStepKeeps(cap, s, step);
    }
  }

  lemma ThreadStepSame(cap: nat, s: State, step: Step)
    requires Enabled(cap, s, step) &&
             (step.LockShared? || step.LockExclusive? || step.Unlock? || step.Enter? || step.Follow?)
    ensures Apply(cap, s, step).nodes == s.nodes
  {
  }

  lemma WritingStepKeeps(cap: nat, s: State, step: Step)
    requires step.Create? || step.Land? || step.DropLink? || step.KeepLink? || step.Write? || step.Sever? ||
             step.FreeSevered? || step.DropNode?
    requires Enabled(cap, s, step) && Backed(s.nodes) && KeptLink(s.nodes) && Inv(cap, s)
    ensures Backed(Apply(cap, s, step).nodes) && KeptLink(Apply(cap, s, step).nodes)
  {
    hide Inv, Backed, KeptLink, Enabled, Apply;
    match step
    case Create(t, n, ns) => CreateBacked(cap, s, t, n, ns);
    case Land(t, n, v) => LandKeepsBacked(cap, s, t, n, v);
    case DropLink(t, n, d) => DropKeepsBacked(cap, s, t, n, d);
    case KeepLink(t, n) => KeepKeepsBacked(cap, s, t, n);
    case Write(t, n) => WriteKeepsBacked(cap, s, t, n);
    case Sever(t, n, v) => SeverKeepsBacked(cap, s, t, n, v);
    case FreeSevered(t, n, freed) => FreeKeepsBacked(cap, s, t, n, freed);
    case DropNode(t, n) => DropNodeBacked(cap, s, t, n);
  }

  /** A step of the operation on n leaves nobody keeping. */
  lemma NobodyKeeps(nodes: map<Nid, Node>, n: Nid, nodes': map<Nid, Node>)
    requires OpLock(nodes) && n in nodes && !Idle(nodes[n].phase) && nodes'.Keys == nodes.Keys
    requires forall m :: m in nodes && m != n ==> nodes'[m].phase == nodes[m].phase
    requires !nodes'[n].phase.Keeping?
    ensures KeptLink(nodes')
  {
    OnlyOperation(nodes, n);
  }

  lemma CreateBacked(cap: nat, s: State, t: Tid, n: Nid, ns: set<Nid>)
    requires Enabled(cap, s, Create(t, n, ns)) && Backed(s.nodes) && KeptLink(s.nodes) && Inv(cap, s)
    ensures Backed(Apply(cap, s, Create(t, n, ns)).nodes) && KeptLink(Apply(cap, s, Create(t, n, ns)).nodes)
  {
    hide NodesOk, NodeOk, Pairs, OpLock, Met, Threads, Owners, Wanted, Backed;
    var nn := Node({}, ns, {}, Created(t));
    forall w | w in s.nodes && w != n && !s.nodes[w].phase.Retired? ensures BackOk(w, s.nodes[w], n, nn) {
      if n in s.nodes[w].over {
        PairAt(s.nodes, w, n);
      }
    }
    OneBacked(s.nodes, n, nn);
  }

  lemma LandKeepsBacked(cap: nat, s: State, t: Tid, n: Nid, v: Nid)
    requires Enabled(cap, s, Land(t, n, v)) && Backed(s.nodes) && Inv(cap, s)
    ensures Backed(Apply(cap, s, Land(t, n, v)).nodes) && KeptLink(Apply(cap, s, Land(t, n, v)).nodes)
  {
    hide NodesOk, NodeOk, Pairs, OpLock, Met, Threads, Owners, Wanted, Backed, KeptLink, Names;
    LandBacked(cap, s, n, v, LandedOwn(s.nodes[n], v), Landed(cap, s.nodes[v], n));
    NobodyKeeps(s.nodes, n, Apply(cap, s, Land(t, n, v)).nodes);
  }

  lemma DropKeepsBacked(cap: nat, s: State, t: Tid, n: Nid, d: Nid)
    requires Enabled(cap, s, DropLink(t, n, d)) && Backed(s.nodes) && Inv(cap, s)
    ensures Backed(Apply(cap, s, DropLink(t, n, d)).nodes) && KeptLink(Apply(cap, s, DropLink(t, n, d)).nodes)
  {
    hide NodesOk, NodeOk, Pairs, OpLock, Met, Threads, Owners, Wanted, Backed, Cleared, Unanswered;
    NodeAt(cap, s.nodes, n);
    DropTarget(cap, s.nodes, n, d);
    DropParts(cap, s.nodes[n], n, d);
    OnlyOperation(s.nodes, n);
    if n in s.nodes[d].out {
      SameBacked(s.nodes, n, DroppedOwn(s.nodes[n], d, true));
    } else {
      ClearBacked(cap, s, n, d, DroppedOwn(s.nodes[n], d, false), Cleared(s.nodes[d], n));
      hide KeptLink;
      ClearedPhase(s.nodes[d], n);
      NobodyKeeps(s.nodes, n, s.nodes[d := Cleared(s.nodes[d], n)][n := DroppedOwn(s.nodes[n], d, false)]);
    }
  }

  lemma ClearedPhase(far: Node, n: Nid)
    ensures Cleared(far, n).phase == far.phase
  {
  }

  lemma DropParts(cap: nat, node: Node, n: Nid, d: Nid)
    requires NodeOk(cap, n, node) && node.phase.Dropping? && d in node.phase.drop
    ensures d !in node.over && n !in node.over
  {
  }

  lemma KeepKeepsBacked(cap: nat, s: State, t: Tid, n: Nid)
    requires Enabled(cap, s, KeepLink(t, n)) && Backed(s.nodes) && KeptLink(s.nodes) && Inv(cap, s)
    ensures Backed(Apply(cap, s, KeepLink(t, n)).nodes) && KeptLink(Apply(cap, s, KeepLink(t, n)).nodes)
  {
    hide NodesOk, NodeOk, Pairs, OpLock, Met, Threads, Owners, Wanted, Backed, KeptLink, Names;
    KeepBacked(cap, s, n);
    NobodyKeeps(s.nodes, n, Apply(cap, s, KeepLink(t, n)).nodes);
  }

  lemma WriteKeepsBacked(cap: nat, s: State, t: Tid, n: Nid)
    requires Enabled(cap, s, Write(t, n)) && Backed(s.nodes) && Inv(cap, s)
    ensures Backed(Apply(cap, s, Write(t, n)).nodes) && KeptLink(Apply(cap, s, Write(t, n)).nodes)
  {
    hide NodesOk, NodeOk, Pairs, OpLock, Met, Threads, Owners, Wanted, Backed, KeptLink, Names;
    WriteBacked(cap, s, n);
    NobodyKeeps(s.nodes, n, Apply(cap, s, Write(t, n)).nodes);
  }

  lemma SeverKeepsBacked(cap: nat, s: State, t: Tid, n: Nid, v: Nid)
    requires Enabled(cap, s, Sever(t, n, v)) && Backed(s.nodes) && Inv(cap, s)
    ensures Backed(Apply(cap, s, Sever(t, n, v)).nodes) && KeptLink(Apply(cap, s, Sever(t, n, v)).nodes)
  {
    hide NodesOk, NodeOk, Pairs, OpLock, Met, Threads, Owners, Wanted, Backed, KeptLink, Names, Cleared;
    NodeAt(cap, s.nodes, n);
    SeverTarget(cap, s.nodes, n, v);
    ClearBacked(cap, s, n, v, SeveredOwn(s.nodes[n], n, v, s.nodes[v]), Cleared(s.nodes[v], n));
    ClearedPhase(s.nodes[v], n);
    NobodyKeeps(s.nodes, n, Apply(cap, s, Sever(t, n, v)).nodes);
  }

  lemma FreeKeepsBacked(cap: nat, s: State, t: Tid, n: Nid, freed: set<Nid>)
    requires Enabled(cap, s, FreeSevered(t, n, freed)) && Backed(s.nodes) && Inv(cap, s)
    ensures Backed(Apply(cap, s, FreeSevered(t, n, freed)).nodes) &&
            KeptLink(Apply(cap, s, FreeSevered(t, n, freed)).nodes)
  {
    hide NodesOk, NodeOk, Pairs, OpLock, Met, Threads, Owners, Wanted, Backed, KeptLink, Names;
    FreeBacked(cap, s, n, freed);
    NobodyKeeps(s.nodes, n, Apply(cap, s, FreeSevered(t, n, freed)).nodes);
  }

  lemma DropNodeBacked(cap: nat, s: State, t: Tid, n: Nid)
    requires Enabled(cap, s, DropNode(t, n)) && Backed(s.nodes) && KeptLink(s.nodes) && Inv(cap, s)
    ensures Backed(Apply(cap, s, DropNode(t, n)).nodes) && KeptLink(Apply(cap, s, DropNode(t, n)).nodes)
  {
    hide NodesOk, NodeOk, Pairs, OpLock, Met, Threads, Owners, Wanted, BackOk;
    forall m | m in s.nodes && s.nodes[m].phase.Keeping? ensures s.nodes[m].phase.kept != n {
      NodeAt(cap, s.nodes, m);
      KeptIsNamed(cap, s.nodes[m], m);
      PairAt(s.nodes, m, s.nodes[m].phase.kept);
    }
  }

  lemma KeptIsNamed(cap: nat, node: Node, n: Nid)
    requires NodeOk(cap, n, node) && node.phase.Keeping?
    ensures node.phase.kept in Names(node)
  {
  }

  lemma {:induction false} RunKeepsBacked(cap: nat, steps: seq<Step>, trace: seq<State>, i: nat)
    requires Run(cap, steps, trace) && i < |trace|
    ensures Backed(trace[i].nodes) && KeptLink(trace[i].nodes)
  {
    hide Inv, Enabled, Apply;
    if i > 0 {
      RunKeepsInv(cap, steps, trace, i - 1);
      RunKeepsBacked(cap, steps, trace, i - 1);
      hide Backed, KeptLink;
      StepKeepsBacked(cap, trace[i - 1], steps[i - 1]);
    }
  }

  /** The chain of a settled node records exactly the settled nodes that link to it without being
      linked back. */
  lemma ChainIsOneWayLinks(cap: nat, steps: seq<Step>, trace: seq<State>, i: nat, u: Nid, v: Nid)
    requires Run(cap, steps, trace) && i < |trace| && u in trace[i].nodes && v in trace[i].nodes
    requires trace[i].nodes[u].phase.Settled? && trace[i].nodes[v].phase.Settled?
    ensures v in trace[i].nodes[u].over <==> u in trace[i].nodes[v].out && v !in trace[i].nodes[u].out
  {
    hide Inv, Enabled, Apply;
    RunKeepsInv(cap, steps, trace, i);
    RunKeepsBacked(cap, steps, trace, i);
    OneWay(cap, trace[i], u, v);
  }

  lemma OneWay(cap: nat, s: State, u: Nid, v: Nid)
    requires u in s.nodes && v in s.nodes && s.nodes[u].phase.Settled? && s.nodes[v].phase.Settled?
    requires Backed(s.nodes) && Inv(cap, s)
    ensures v in s.nodes[u].over <==> u in s.nodes[v].out && v !in s.nodes[u].out
  {
    hide NodesOk, NodeOk, Pairs, OpLock, Met, Threads, Owners, Wanted, Backed, Unanswered;
    NodeAt(cap, s.nodes, u);
    NodeAt(cap, s.nodes, v);
    SettledParts(cap, u, s.nodes[u]);
    SettledParts(cap, v, s.nodes[v]);
    BackAt(s.nodes, u, v);
    if u in s.nodes[v].out {
      PairAt(s.nodes, v, u);
    }
  }

  // ------------------------------------------------------------------------------------------
  // A replacement is reciprocated.

  /** v links back to n, or has recorded n in its chain because its list was full. */
  predicate LinksBack(cap: nat, n: Nid, far: Node) {
    n in far.out || (n in far.over && |far.out| + |far.inc| == cap)
  }

  /** How far the replacement of n's list has come with v, which is wanted and was not linked before. */
  predicate Reciprocating(cap: nat, n: Nid, node: Node, want: set<Nid>, v: Nid, far: Node) {
    match node.phase
    case Dropping(_, _, w) => w == want && v !in node.out
    case Keeping(_, _, w, _) => w == want && v !in node.out
    case Promoting(_, _, w) => w == want && (v in node.out ==> n in far.out)
    case Linking(_, todo, w, exclusive) =>
      && exclusive && w == want && (v in node.out ==> n in far.out)
      && (v in node.inc && v !in todo ==> LinksBack(cap, n, far))
    case _ => false
  }

  lemma BeginsReciprocating(cap: nat, node: Node, t: Tid, n: Nid, want: set<Nid>, v: Nid, far: Node)
    requires v !in node.out
    ensures Reciprocating(cap, n, Demoted(node, t, want), want, v, far)
  {
  }

  /** Under the exclusive operation lock of n the steps of others touch neither n nor a settled node. */
  lemma OthersTouchNeither(cap: nat, s: State, step: Step, n: Nid, v: Nid)
    requires Enabled(cap, s, step) && n in s.nodes && v in s.nodes && HoldsExclusive(s.nodes[n].phase) &&
             OpLock(s.nodes)
    requires s.nodes[v].phase.Settled? && !QuietStep(step) && !step.Land? && !step.DropLink? && !step.KeepLink? &&
             !step.Write?
    requires !step.Sever? && !step.FreeSevered?
    ensures n in Apply(cap, s, step).nodes && Apply(cap, s, step).nodes[n] == s.nodes[n]
    ensures v in Apply(cap, s, step).nodes && Apply(cap, s, step).nodes[v] == s.nodes[v]
  {
    hide Landed, Cleared;
  }

  /** Only n is operated on. */
  lemma OperatesOn(cap: nat, s: State, step: Step, n: Nid)
    requires Enabled(cap, s, step) && n in s.nodes && HoldsExclusive(s.nodes[n].phase) && OpLock(s.nodes)
    requires QuietStep(step) || step.Land? || step.DropLink? || step.KeepLink? || step.Write? || step.Sever? ||
             step.FreeSevered?
    ensures step.n == n && !step.BeginLink? && !step.BeginReplace? && !step.BeginUnlink?
  {
  }

  lemma ReciprocatingStep(cap: nat, s: State, step: Step, n: Nid, want: set<Nid>, v: Nid)
    requires Enabled(cap, s, step) && !(step.Confirm? && step.n == n) && n in s.nodes && v in s.nodes && v in want &&
             v != n
    requires Reciprocating(cap, n, s.nodes[n], want, v, s.nodes[v]) && s.nodes[v].phase.Settled?
    requires Backed(s.nodes) && Inv(cap, s)
    ensures var s' := Apply(cap, s, step);
            n in s'.nodes && v in s'.nodes && Reciprocating(cap, n, s'.nodes[n], want, v, s'.nodes[v])
  {
    hide Inv, Backed, Enabled, Apply, Reciprocating;
    ReciprocatingIsExclusive(cap, s.nodes[n], n, want, v, s.nodes[v]);
    LocksOf(cap, s);
    if QuietStep(step) || step.Land? || step.DropLink? || step.KeepLink? || step.Write? || step.Sever? ||
       step.FreeSevered? {
      OperatesOn(cap, s, step, n);
      OwnStep(cap, s, step, n, want, v);
    } else {
      OthersTouchNeither(cap, s, step, n, v);
    }
  }

  lemma LocksOf(cap: nat, s: State)
    requires Inv(cap, s)
    ensures OpLock(s.nodes) && Pairs(s.nodes) && NodesOk(cap, s.nodes) && Threads(s) && Wanted(s) && Owners(s)
  {
    hide OpLock, Pairs, NodesOk, Threads, Wanted, Owners, Met;
  }

  lemma ReciprocatingIsExclusive(cap: nat, node: Node, n: Nid, want: set<Nid>, v: Nid, far: Node)
    requires Reciprocating(cap, n, node, want, v, far)
    ensures HoldsExclusive(node.phase) && !node.phase.Unlinking? && !node.phase.Retired?
  {
  }

  lemma OwnStep(cap: nat, s: State, step: Step, n: Nid, want: set<Nid>, v: Nid)
    requires QuietStep(step) || step.Land? || step.DropLink? || step.KeepLink? || step.Write? || step.Sever? ||
             step.FreeSevered?
    requires Enabled(cap, s, step) && !step.Confirm? && step.n == n && n in s.nodes && v in s.nodes && v in want &&
             v != n
    requires !step.BeginLink? && !step.BeginReplace? && !step.BeginUnlink?
    requires Reciprocating(cap, n, s.nodes[n], want, v, s.nodes[v]) && s.nodes[v].phase.Settled?
    requires Backed(s.nodes) && Pairs(s.nodes) && NodesOk(cap, s.nodes) && OpLock(s.nodes)
    ensures var s' := Apply(cap, s, step);
            n in s'.nodes && v in s'.nodes && Reciprocating(cap, n, s'.nodes[n], want, v, s'.nodes[v])
  {
    hide Backed, Pairs, NodesOk, OpLock, Enabled, Apply, Reciprocating;
    match step
    case Land(t, _, x) => OwnLand(cap, s, t, n, x, want, v);
    case DropLink(t, _, d) => OwnDrop(cap, s, t, n, d, want, v);
    case Write(t, _) => OwnWrite(cap, s, t, n, want, v);
    case KeepLink(t, _) => OwnKeep(cap, s, t, n, want, v);
    case FreePromoted(t, _, x) => OwnPromote(cap, s, t, n, x, want, v);
    case EndReplace(t, _) => OwnRelink(cap, s, t, n, want, v);
    case _ => NotUnlinking(cap, s, step, n, want, v);
  }

  lemma NotUnlinking(cap: nat, s: State, step: Step, n: Nid, want: set<Nid>, v: Nid)
    requires step.RestartUnlink? || step.EndUnlink? || step.Sever? || step.FreeSevered?
    requires Enabled(cap, s, step) && step.n == n && n in s.nodes && v in s.nodes
    ensures !Reciprocating(cap, n, s.nodes[n], want, v, s.nodes[v])
  {
  }

  lemma OwnLand(cap: nat, s: State, t: Tid, n: Nid, x: Nid, want: set<Nid>, v: Nid)
    requires Enabled(cap, s, Land(t, n, x)) && n in s.nodes && v in s.nodes && v in want && v != n
    requires Reciprocating(cap, n, s.nodes[n], want, v, s.nodes[v]) && s.nodes[v].phase.Settled?
    requires Pairs(s.nodes) && NodesOk(cap, s.nodes) && OpLock(s.nodes)
    ensures var s' := Apply(cap, s, Land(t, n, x));
            n in s'.nodes && v in s'.nodes && Reciprocating(cap, n, s'.nodes[n], want, v, s'.nodes[v])
  {
    hide Backed, Pairs, NodesOk, NodeOk, OpLock, Names, Unanswered, Cleared, Landed;
    NodeAt(cap, s.nodes, n);
    NodeAt(cap, s.nodes, v);
    LandTarget(cap, s.nodes, n, x);
    SettledParts(cap, v, s.nodes[v]);
    LandedSettled(cap, s.nodes[x], n);
  }

  lemma OwnDrop(cap: nat, s: State, t: Tid, n: Nid, d: Nid, want: set<Nid>, v: Nid)
    requires Enabled(cap, s, DropLink(t, n, d)) && n in s.nodes && v in s.nodes && v in want && v != n
    requires Reciprocating(cap, n, s.nodes[n], want, v, s.nodes[v]) && s.nodes[v].phase.Settled?
    requires Pairs(s.nodes) && NodesOk(cap, s.nodes) && OpLock(s.nodes)
    ensures var s' := Apply(cap, s, DropLink(t, n, d));
            n in s'.nodes && v in s'.nodes && Reciprocating(cap, n, s'.nodes[n], want, v, s'.nodes[v])
  {
    hide Backed, Pairs, NodesOk, NodeOk, OpLock, Names, Unanswered, Cleared, Landed;
    NodeAt(cap, s.nodes, n);
    DropTarget(cap, s.nodes, n, d);
    DroppedIsUnwanted(cap, s.nodes[n], n, d);
  }

  lemma OwnWrite(cap: nat, s: State, t: Tid, n: Nid, want: set<Nid>, v: Nid)
    requires Enabled(cap, s, Write(t, n)) && n in s.nodes && v in s.nodes && v in want && v != n
    requires Reciprocating(cap, n, s.nodes[n], want, v, s.nodes[v]) && s.nodes[v].phase.Settled?
    requires Backed(s.nodes) && NodesOk(cap, s.nodes)
    ensures var s' := Apply(cap, s, Write(t, n));
            n in s'.nodes && v in s'.nodes && Reciprocating(cap, n, s'.nodes[n], want, v, s'.nodes[v])
  {
    hide Backed, NodesOk, NodeOk, Names, Unanswered, Enabled, Apply, WrittenOwn, Reciprocating;
    NodeAt(cap, s.nodes, n);
    NodeAt(cap, s.nodes, v);
    WriteWrites(cap, s, t, n, v);
    DroppingParts(cap, s.nodes[n], n, want, v, s.nodes[v]);
    WrittenLinks(cap, s.nodes[n], n, v);
    SettledParts(cap, v, s.nodes[v]);
    BackAt(s.nodes, n, v);
    WrittenReciprocating(cap, n, WrittenOwn(s.nodes[n]), want, v, s.nodes[v]);
  }

  lemma WriteWrites(cap: nat, s: State, t: Tid, n: Nid, v: Nid)
    requires Enabled(cap, s, Write(t, n)) && v in s.nodes && v != n
    ensures n in s.nodes && s.nodes[n].phase.Dropping? && s.nodes[n].phase.drop == {}
    ensures var s' := Apply(cap, s, Write(t, n));
            n in s'.nodes && v in s'.nodes && s'.nodes[n] == WrittenOwn(s.nodes[n]) && s'.nodes[v] == s.nodes[v]
  {
    hide WrittenOwn;
  }

  lemma DroppingParts(cap: nat, node: Node, n: Nid, want: set<Nid>, v: Nid, far: Node)
    requires node.phase.Dropping? && Reciprocating(cap, n, node, want, v, far)
    ensures node.phase.want == want && v !in node.out
  {
  }

  lemma WrittenReciprocating(cap: nat, n: Nid, nn: Node, want: set<Nid>, v: Nid, far: Node)
    requires nn.phase.Promoting? && nn.phase.want == want && (v in nn.out ==> n in far.out)
    ensures Reciprocating(cap, n, nn, want, v, far)
  {
  }

  lemma OwnKeep(cap: nat, s: State, t: Tid, n: Nid, want: set<Nid>, v: Nid)
    requires Enabled(cap, s, KeepLink(t, n)) && n in s.nodes && v in s.nodes && v in want && v != n
    requires Reciprocating(cap, n, s.nodes[n], want, v, s.nodes[v]) && s.nodes[v].phase.Settled?
    requires NodesOk(cap, s.nodes)
    ensures var s' := Apply(cap, s, KeepLink(t, n));
            n in s'.nodes && v in s'.nodes && Reciprocating(cap, n, s'.nodes[n], want, v, s'.nodes[v])
  {
    hide NodesOk;
  }

  lemma OwnPromote(cap: nat, s: State, t: Tid, n: Nid, x: Nid, want: set<Nid>, v: Nid)
    requires Enabled(cap, s, FreePromoted(t, n, x)) && n in s.nodes && v in s.nodes && v in want && v != n
    requires Reciprocating(cap, n, s.nodes[n], want, v, s.nodes[v]) && s.nodes[v].phase.Settled?
    requires NodesOk(cap, s.nodes)
    ensures var s' := Apply(cap, s, FreePromoted(t, n, x));
            n in s'.nodes && v in s'.nodes && Reciprocating(cap, n, s'.nodes[n], want, v, s'.nodes[v])
  {
    hide NodesOk;
  }

  lemma OwnRelink(cap: nat, s: State, t: Tid, n: Nid, want: set<Nid>, v: Nid)
    requires Enabled(cap, s, EndReplace(t, n)) && n in s.nodes && v in s.nodes && v in want && v != n
    requires Reciprocating(cap, n, s.nodes[n], want, v, s.nodes[v]) && s.nodes[v].phase.Settled?
    requires NodesOk(cap, s.nodes)
    ensures var s' := Apply(cap, s, EndReplace(t, n));
            n in s'.nodes && v in s'.nodes && Reciprocating(cap, n, s'.nodes[n], want, v, s'.nodes[v])
  {
    hide NodesOk;
  }

  lemma LandedSettled(cap: nat, far: Node, n: Nid)
    ensures var nv := Landed(cap, far, n);
            nv.phase == far.phase && far.out <= nv.out
    ensures far.inc == {} && |far.out| <= cap ==> LinksBack(cap, n, Landed(cap, far, n))
  {
  }

  lemma DroppedIsUnwanted(cap: nat, node: Node, n: Nid, d: Nid)
    requires NodeOk(cap, n, node) && node.phase.Dropping? && d in node.phase.drop
    ensures d !in node.phase.want
  {
  }

  lemma WrittenLinks(cap: nat, node: Node, n: Nid, v: Nid)
    requires NodeOk(cap, n, node) && node.phase.Dropping? && node.phase.drop == {} && v in node.phase.want &&
             v !in node.out
    ensures v in WrittenOwn(node).out ==> v in node.over
    ensures WrittenOwn(node).phase == Promoting(node.phase.owner, WrittenOwn(node).phase.promoted, node.phase.want)
  {
  }

  /** What is wanted of a replacement is a settled node throughout. */
  lemma WantedIsSettled(cap: nat, s: State, n: Nid, want: set<Nid>, v: Nid, far: Node)
    requires n in s.nodes && v in want && Reciprocating(cap, n, s.nodes[n], want, v, far) && Inv(cap, s)
    ensures v in s.nodes && v != n && s.nodes[v].phase.Settled?
  {
    hide Pairs, OpLock, NodesOk, Threads, Wanted, Owners, Met, Inv, NodeOk, Names;
    LocksOf(cap, s);
    NodeAt(cap, s.nodes, n);
    WantedParts(cap, s.nodes[n], n, want, v, far);
    if s.nodes[n].phase.Dropping? || s.nodes[n].phase.Keeping? {
      WantedInHand(s, n, v);
    } else {
      Settles(cap, s.nodes, n, v);
    }
  }

  lemma WantedParts(cap: nat, node: Node, n: Nid, want: set<Nid>, v: Nid, far: Node)
    requires NodeOk(cap, n, node) && Reciprocating(cap, n, node, want, v, far) && v in want
    ensures HoldsExclusive(node.phase) && !node.phase.Retired? && v != n
    ensures node.phase.Dropping? || node.phase.Keeping? ==> node.phase.want == want
    ensures !(node.phase.Dropping? || node.phase.Keeping?) ==> v in Names(node)
  {
  }

  lemma WantedInHand(s: State, n: Nid, v: Nid)
    requires n in s.nodes && (s.nodes[n].phase.Dropping? || s.nodes[n].phase.Keeping?) && v in s.nodes[n].phase.want &&
             v != n
    requires Wanted(s) && Threads(s) && OpLock(s.nodes)
    ensures v in s.nodes && s.nodes[v].phase.Settled?
  {
  }

  /** From the step that begins the replacement up to the one that confirms it. */
  lemma {:induction false} ReplacementUnderWay(cap: nat, steps: seq<Step>, trace: seq<State>, j: nat, k: nat, t: Tid,
                                               n: Nid,
                                               want: set<Nid>, v: Nid)
    requires Run(cap, steps, trace) && j < k <= |steps| && steps[j] == BeginReplace(t, n, want)
    requires forall i :: j < i < k ==> !(steps[i].Confirm? && steps[i].n == n)
    requires v in want && n in trace[j].nodes && v !in trace[j].nodes[n].out
    ensures n in trace[k].nodes && v in trace[k].nodes && v != n && trace[k].nodes[v].phase.Settled?
    ensures Reciprocating(cap, n, trace[k].nodes[n], want, v, trace[k].nodes[v])
    decreases k
  {
    hide Inv, Enabled, Apply, Reciprocating, Backed, KeptLink;
    RunKeepsInv(cap, steps, trace, k);
    if k == j + 1 {
      RunKeepsInv(cap, steps, trace, j);
      ReplacementBegins(cap, trace[j], t, n, want, v);
    } else {
      ReplacementUnderWay(cap, steps, trace, j, k - 1, t, n, want, v);
      RunKeepsInv(cap, steps, trace, k - 1);
      RunKeepsBacked(cap, steps, trace, k - 1);
      ReciprocatingStep(cap, trace[k - 1], steps[k - 1], n, want, v);
    }
    WantedIsSettled(cap, trace[k], n, want, v, trace[k].nodes[v]);
  }

  lemma ReplacementBegins(cap: nat, s: State, t: Tid, n: Nid, want: set<Nid>, v: Nid)
    requires Enabled(cap, s, BeginReplace(t, n, want)) && Inv(cap, s) && v in want && v !in s.nodes[n].out
    ensures var s' := Apply(cap, s, BeginReplace(t, n, want));
            n in s'.nodes && v in s'.nodes && Reciprocating(cap, n, s'.nodes[n], want, v, s'.nodes[v])
  {
    hide Pairs, OpLock, NodesOk, Wanted, Owners, Met, Reciprocating, Demoted;
    WorkIsLive(s, t);
    BeginsReciprocating(cap, s.nodes[n], t, n, want, v, s.nodes[v]);
  }

  /** When a replacement is confirmed, each neighbour it newly names links back, or has recorded the
      node in its chain because its list is full. */
  lemma ReplacementLinksBack(cap: nat, steps: seq<Step>, trace: seq<State>, j: nat, i: nat, t: Tid, u: Tid, n: Nid,
                             want: set<Nid>, v: Nid)
    requires Run(cap, steps, trace) && j < i < |steps| && steps[j] == BeginReplace(t, n, want) &&
             steps[i] == Confirm(u, n)
    requires forall k :: j < k < i ==> !(steps[k].Confirm? && steps[k].n == n)
    requires v in want && n in trace[j].nodes && v !in trace[j].nodes[n].out
    ensures n in trace[i + 1].nodes && trace[i + 1].nodes[n].out == want
    ensures v in trace[i + 1].nodes && LinksBack(cap, n, trace[i + 1].nodes[v])
  {
    hide Inv, Enabled, Apply, Reciprocating, Names, Unanswered;
    ReplacementUnderWay(cap, steps, trace, j, i, t, n, want, v);
    ConfirmStep(cap, trace[i], u, n);
    ReciprocatingEnds(cap, trace[i].nodes[n], n, want, v, trace[i].nodes[v]);
    ReplaceInstallsList(cap, steps, trace, i, u, n);
    LinkingInstallsNow(cap, steps, trace, i, n);
    ConfirmLeaves(cap, trace[i], u, n, v);
  }

  lemma ReciprocatingEnds(cap: nat, node: Node, n: Nid, want: set<Nid>, v: Nid, far: Node)
    requires node.phase.Linking? && Reciprocating(cap, n, node, want, v, far)
    ensures node.phase.exclusive && node.phase.want == want
    ensures node.phase.todo == {} && v in node.out + node.inc ==> LinksBack(cap, n, far)
  {
  }

  lemma LinkingInstallsNow(cap: nat, steps: seq<Step>, trace: seq<State>, i: nat, n: Nid)
    requires Run(cap, steps, trace) && i < |trace| && n in trace[i].nodes
    requires trace[i].nodes[n].phase.Linking? && trace[i].nodes[n].phase.exclusive
    ensures trace[i].nodes[n].phase.want == trace[i].nodes[n].out + trace[i].nodes[n].inc
  {
    hide Inv, Enabled, Apply;
    RunKeepsInv(cap, steps, trace, i);
    LinkingInstalls(cap, trace[i], n);
  }

  lemma ConfirmLeaves(cap: nat, s: State, u: Tid, n: Nid, v: Nid)
    requires Enabled(cap, s, Confirm(u, n)) && v in s.nodes && v != n
    ensures n in s.nodes && s.nodes[n].phase.Linking? && s.nodes[n].phase.todo == {}
    ensures v in Apply(cap, s, Confirm(u, n)).nodes && Apply(cap, s, Confirm(u, n)).nodes[v] == s.nodes[v]
  {
  }
}
