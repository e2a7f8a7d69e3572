/** What linking a new node and replacing a node's list leave behind, in every run: from the nodes
    the caller asked for to the record at the step that confirms it. */
module LinkResults {
  import opened Wrappers
  import opened LinkProtocol
  import opened LinkSteps
  import opened LinkRuns
  import LinkChains

  /** v has n among its outgoing links, or in its chain because its list is full. */
  predicate Recorded(cap: nat, n: Nid, far: Node) {
    n in far.out || (n in far.over && |far.out| + |far.inc| >= cap)
  }

  /** How far the linking of the new node n to ns has come with v, which is one of them. */
  predicate Inserting(cap: nat, n: Nid, node: Node, ns: set<Nid>, v: Nid, far: Node) {
    match node.phase
    case Created(_) => node.inc == ns
    case Linking(_, todo, want, exclusive) => !exclusive && want == ns && (v in todo || Recorded(cap, n, far))
    case _ => false
  }

  predicate OperatesOn(step: Step, n: Nid) {
    match step
    case Enter(_, _) => false
    case LockShared(_) => false
    case LockExclusive(_) => false
    case Unlock(_) => false
    case Follow(_, _, _) => false
    case _ => step.n == n
  }

  /** The far side of a step: the other record it writes. */
  function FarSide(step: Step): (v: Option<Nid>) {
    match step
    case Land(_, _, v) => Some(v)
    case DropLink(_, _, d) => Some(d)
    case Sever(_, _, v) => Some(v)
    case _ => None
  }

  lemma FarSideIsLinked(cap: nat, s: State, step: Step, v: Nid)
    requires Enabled(cap, s, step) && FarSide(step) == Some(v)
    requires Pairs(s.nodes) && OpLock(s.nodes) && NodesOk(cap, s.nodes)
    ensures v in s.nodes && !s.nodes[v].phase.Created?
  {
    hide NodesOk, NodeOk, Pairs, OpLock, Names;
    NodeAt(cap, s.nodes, step.n);
    match step
    case Land(_, m, _) => LandTarget(cap, s.nodes, m, v);
    case DropLink(_, m, _) => DropTarget(cap, s.nodes, m, v);
    case Sever(_, m, _) => SeverTarget(cap, s.nodes, m, v);
  }

  lemma PartsOf(cap: nat, s: State)
    requires Inv(cap, s)
    ensures NodesOk(cap, s.nodes) && Pairs(s.nodes) && OpLock(s.nodes) && Threads(s)
  {
    hide NodesOk, Pairs, OpLock, Met, Owners, Wanted, Threads;
  }

  /** A node that has only been created is left alone until its thread links it. */
  lemma CreatedStays(cap: nat, s: State, step: Step, n: Nid)
    requires Enabled(cap, s, step) && n in s.nodes && s.nodes[n].phase.Created? && Inv(cap, s)
    ensures n in Apply(cap, s, step).nodes
    ensures Apply(cap, s, step).nodes[n] ==
            if step.BeginLink? && step.n == n
            then s.nodes[n].(phase := Linking(step.t, s.nodes[n].inc, s.nodes[n].inc, false)) else s.nodes[n]
  {
    hide Inv, Enabled, Apply;
    PartsOf(cap, s);
    if FarSide(step) == Some(n) {
      FarSideIsLinked(cap, s, step, n);
    } else {
      CreatedIsNotWritten(cap, s, step, n);
    }
  }

  lemma CreatedIsNotWritten(cap: nat, s: State, step: Step, n: Nid)
    requires Enabled(cap, s, step) && n in s.nodes && s.nodes[n].phase.Created? && FarSide(step) != Some(n)
    requires Threads(s)
    ensures n in Apply(cap, s, step).nodes
    ensures Apply(cap, s, step).nodes[n] ==
            if step.BeginLink? && step.n == n
            then s.nodes[n].(phase := Linking(step.t, s.nodes[n].inc, s.nodes[n].inc, false)) else s.nodes[n]
  {
    hide Landed, Cleared, WrittenOwn, Demoted, UnlinkOwn, SeveredOwn, KeptOwn, DroppedOwn, LandedOwn;
  }

  /** Steps of operations on other nodes leave a node's phase as it is. */
  lemma OthersLeavePhase(cap: nat, s: State, step: Step, n: Nid)
    requires Enabled(cap, s, step) && n in s.nodes && !OperatesOn(step, n)
    ensures n in Apply(cap, s, step).nodes && Apply(cap, s, step).nodes[n].phase == s.nodes[n].phase
  {
  }

  /** While n is being linked no exclusive operation is in progress. */
  lemma NoneIsExclusive(nodes: map<Nid, Node>, n: Nid)
    requires OpLock(nodes) && n in nodes && nodes[n].phase.Linking? && !nodes[n].phase.exclusive
    ensures forall m :: m in nodes ==> !HoldsExclusive(nodes[m].phase)
  {
  }

  lemma ConfirmedIsRecorded(cap: nat, n: Nid, v: Nid, far: Node)
    requires NodeOk(cap, v, far) && Recorded(cap, n, far)
    ensures Recorded(cap, n, Confirmed(far))
  {
    assert |far.out + far.inc| == |far.out| + |far.inc|;
  }

  lemma LandedIsRecorded(cap: nat, n: Nid, far: Node, m: Nid)
    ensures Recorded(cap, n, far) ==> Recorded(cap, n, Landed(cap, far, m))
    ensures Recorded(cap, m, Landed(cap, far, m))
  {
  }

  lemma RecordedStays(cap: nat, s: State, step: Step, n: Nid, v: Nid)
    requires Enabled(cap, s, step) && n in s.nodes && s.nodes[n].phase.Linking? && !s.nodes[n].phase.exclusive
    requires v in s.nodes && v != n && Recorded(cap, n, s.nodes[v]) && !s.nodes[v].phase.Retired?
    requires !s.nodes[v].phase.Created? && Inv(cap, s)
    ensures v in Apply(cap, s, step).nodes && Recorded(cap, n, Apply(cap, s, step).nodes[v])
  {
    hide Inv, Enabled, Apply, NodesOk, NodeOk, Pairs, OpLock, Threads, Recorded;
    PartsOf(cap, s);
    NoneIsExclusive(s.nodes, n);
    if step.Land? {
      LandingKeepsRecorded(cap, s, step.t, step.n, step.v, n, v);
    } else if step.Confirm? && step.n == v {
      NodeAt(cap, s.nodes, v);
      ConfirmingKeepsRecorded(cap, s, step.t, n, v);
    } else {
      OthersLeaveRecord(cap, s, step, v);
    }
  }

  lemma LandingKeepsRecorded(cap: nat, s: State, t: Tid, m: Nid, x: Nid, n: Nid, v: Nid)
    requires Enabled(cap, s, Land(t, m, x)) && v in s.nodes && v != n && Recorded(cap, n, s.nodes[v])
    ensures v in Apply(cap, s, Land(t, m, x)).nodes && Recorded(cap, n, Apply(cap, s, Land(t, m, x)).nodes[v])
  {
    hide Recorded, Landed;
    LandedIsRecorded(cap, n, s.nodes[v], m);
    if v == m {
      SameListsRecorded(cap, n, s.nodes[v], LandedOwn(s.nodes[v], x));
    }
  }

  lemma ConfirmingKeepsRecorded(cap: nat, s: State, t: Tid, n: Nid, v: Nid)
    requires Enabled(cap, s, Confirm(t, v)) && v in s.nodes && NodeOk(cap, v, s.nodes[v])
    requires Recorded(cap, n, s.nodes[v])
    ensures v in Apply(cap, s, Confirm(t, v)).nodes && Recorded(cap, n, Apply(cap, s, Confirm(t, v)).nodes[v])
  {
    hide Recorded, NodeOk, Confirmed;
    ConfirmedIsRecorded(cap, n, v, s.nodes[v]);
  }

  /** No exclusive operation is in progress, so only linkings write records, and new nodes come. */
  lemma OthersLeaveRecord(cap: nat, s: State, step: Step, v: Nid)
    requires Enabled(cap, s, step) && v in s.nodes && !s.nodes[v].phase.Retired? && !s.nodes[v].phase.Created?
    requires forall m :: m in s.nodes ==> !HoldsExclusive(s.nodes[m].phase)
    requires exists m :: m in s.nodes && !Idle(s.nodes[m].phase)
    requires !step.Land? && !(step.Confirm? && step.n == v)
    ensures v in Apply(cap, s, step).nodes && Apply(cap, s, step).nodes[v] == s.nodes[v]
  {
    hide Landed, Cleared, WrittenOwn, Demoted, UnlinkOwn, SeveredOwn, KeptOwn, DroppedOwn, LandedOwn;
  }

  lemma SameListsRecorded(cap: nat, n: Nid, far: Node, far': Node)
    requires far.out == far'.out && far.inc == far'.inc && far.over == far'.over
    ensures Recorded(cap, n, far) <==> Recorded(cap, n, far')
  {
  }

  /** What a new node is to be linked to is live and has itself been linked. */
  lemma InsertedAreLive(cap: nat, s: State, n: Nid, ns: set<Nid>, v: Nid, far: Node)
    requires n in s.nodes && v in ns && Inserting(cap, n, s.nodes[n], ns, v, far) && Inv(cap, s)
    ensures v in s.nodes && v != n && !s.nodes[v].phase.Retired? && !s.nodes[v].phase.Created?
  {
    hide NodesOk, Pairs, OpLock, Met, Owners, Wanted, Threads;
    NodeAt(cap, s.nodes, n);
    PairAt(s.nodes, n, v);
  }

  lemma LiveStays(cap: nat, s: State, step: Step, v: Nid)
    requires Enabled(cap, s, step) && v in s.nodes && !s.nodes[v].phase.Retired?
    ensures v in Apply(cap, s, step).nodes
  {
  }

  lemma InsertingStep(cap: nat, s: State, step: Step, n: Nid, ns: set<Nid>, v: Nid)
    requires Enabled(cap, s, step) && !(step.Confirm? && step.n == n) && n in s.nodes && v in s.nodes && v in ns
    requires Inserting(cap, n, s.nodes[n], ns, v, s.nodes[v]) && Inv(cap, s)
    ensures var s' := Apply(cap, s, step);
            n in s'.nodes && v in s'.nodes && Inserting(cap, n, s'.nodes[n], ns, v, s'.nodes[v])
  {
    hide Inv, Enabled, Apply, Recorded, OperatesOn, Landed, LandedOwn;
    InsertedAreLive(cap, s, n, ns, v, s.nodes[v]);
    LiveStays(cap, s, step, v);
    if s.nodes[n].phase.Created? {
      CreatedStays(cap, s, step, n);
    } else if OperatesOn(step, n) {
      LandsNext(cap, s, step, n);
      LandedIsRecorded(cap, n, s.nodes[v], n);
    } else {
      OthersLeavePhase(cap, s, step, n);
      if Recorded(cap, n, s.nodes[v]) {
        RecordedStays(cap, s, step, n, v);
      }
    }
  }

  /** While n is being linked, its own operation lands one link after another. */
  lemma LandsNext(cap: nat, s: State, step: Step, n: Nid)
    requires Enabled(cap, s, step) && OperatesOn(step, n) && !(step.Confirm? && step.n == n)
    requires n in s.nodes && s.nodes[n].phase.Linking? && Inv(cap, s)
    ensures step.Land? && step.v in s.nodes && step.v != n
    ensures Apply(cap, s, step).nodes ==
            s.nodes[step.v := Landed(cap, s.nodes[step.v], n)][n := LandedOwn(s.nodes[n], step.v)]
    ensures var p := s.nodes[n].phase;
            LandedOwn(s.nodes[n], step.v).phase == Linking(p.owner, p.todo - {step.v}, p.want, p.exclusive)
  {
    hide NodesOk, NodeOk, Pairs, OpLock, Met, Owners, Wanted, Threads, Names, Landed;
    if step.Land? {
      NodeAt(cap, s.nodes, n);
      LandTarget(cap, s.nodes, n, step.v);
    }
  }

  lemma CreationBegins(cap: nat, s: State, t: Tid, n: Nid, ns: set<Nid>, v: Nid)
    requires Enabled(cap, s, Create(t, n, ns)) && v in ns && Threads(s)
    ensures var s' := Apply(cap, s, Create(t, n, ns));
            n in s'.nodes && v in s'.nodes && Inserting(cap, n, s'.nodes[n], ns, v, s'.nodes[v])
  {
  }

  /** No linking of n is confirmed between j and k. */
  ghost predicate Unconfirmed(steps: seq<Step>, j: nat, k: nat, n: Nid)
    requires k <= |steps|
  {
    forall i :: j < i < k ==> !(steps[i].Confirm? && steps[i].n == n)
  }

  lemma {:induction false} InsertionUnderWay(cap: nat, steps: seq<Step>, trace: seq<State>, j: nat, k: nat, t: Tid,
                                             n: Nid, ns: set<Nid>, v: Nid)
    requires Run(cap, steps, trace) && j < k <= |steps| && steps[j] == Create(t, n, ns) && v in ns
    requires Unconfirmed(steps, j, k, n)
    ensures n in trace[k].nodes && v in trace[k].nodes && v != n
    ensures Inserting(cap, n, trace[k].nodes[n], ns, v, trace[k].nodes[v])
    decreases k
  {
    hide Inv, Enabled, Apply, Inserting;
    RunKeepsInv(cap, steps, trace, k - 1);
    RunKeepsInv(cap, steps, trace, k);
    if k == j + 1 {
      PartsOf(cap, trace[j]);
      CreationBegins(cap, trace[j], t, n, ns, v);
    } else {
      InsertionUnderWay(cap, steps, trace, j, k - 1, t, n, ns, v);
      InsertingStep(cap, trace[k - 1], steps[k - 1], n, ns, v);
    }
    InsertedAreLive(cap, trace[k], n, ns, v, trace[k].nodes[v]);
  }

  lemma InsertingEnds(cap: nat, n: Nid, node: Node, ns: set<Nid>, v: Nid, far: Node)
    requires node.phase.Linking? && node.phase.todo == {} && NodeOk(cap, v, far)
    requires Inserting(cap, n, node, ns, v, far)
    ensures node.phase.want == ns && LinkChains.LinksBack(cap, n, far)
  {
  }

  /** When the linking of a new node is confirmed, it has an outgoing link to every node it was
      created with, and each of these links back, or has recorded the new node in its chain because
      its list is full. */
  lemma InsertionLinks(cap: nat, steps: seq<Step>, trace: seq<State>, j: nat, i: nat, t: Tid, u: Tid, n: Nid,
                       ns: set<Nid>)
    requires Run(cap, steps, trace) && j < i < |steps| && steps[j] == Create(t, n, ns) && steps[i] == Confirm(u, n)
    requires Unconfirmed(steps, j, i, n)
    ensures n in trace[i + 1].nodes && ns <= trace[i + 1].nodes[n].out
    ensures forall v :: v in ns ==> v in trace[i + 1].nodes && LinkChains.LinksBack(cap, n, trace[i + 1].nodes[v])
  {
    hide Inv, Enabled, Apply, Inserting, LinkChains.LinksBack, Unconfirmed, NodeOk, NodesOk, Pairs, OpLock, Threads;
    ConfirmStep(cap, trace[i], u, n);
    ReplaceInstallsList(cap, steps, trace, i, u, n);
    RunKeepsInv(cap, steps, trace, i);
    forall v | v in ns
      ensures v in trace[i + 1].nodes && LinkChains.LinksBack(cap, n, trace[i + 1].nodes[v])
      ensures trace[i].nodes[n].phase.want == ns
    {
      InsertionUnderWay(cap, steps, trace, j, i, t, n, ns, v);
      PartsOf(cap, trace[i]);
      NodeAt(cap, trace[i].nodes, v);
      LinkChains.ConfirmLeaves(cap, trace[i], u, n, v);
      InsertingEnds(cap, n, trace[i].nodes[n], ns, v, trace[i].nodes[v]);
    }
  }

  // ------------------------------------------------------------------------------------------
  // Replacements.

  /** The operation on the node is a replacement of its list by the wanted nodes. */
  predicate Replacing(p: Phase, want: set<Nid>) {
    match p
    case Dropping(_, _, w) => w == want
    case Keeping(_, _, w, _) => w == want
    case Promoting(_, _, w) => w == want
    case Linking(_, _, w, exclusive) => exclusive && w == want
    case _ => false
  }

  lemma ReplacingStep(cap: nat, s: State, step: Step, n: Nid, want: set<Nid>)
    requires Enabled(cap, s, step) && !(step.Confirm? && step.n == n) && n in s.nodes
    requires Replacing(s.nodes[n].phase, want) && NodesOk(cap, s.nodes)
    ensures n in Apply(cap, s, step).nodes && Replacing(Apply(cap, s, step).nodes[n].phase, want)
  {
    hide NodesOk, Landed, Cleared;
    NodeAt(cap, s.nodes, n);
    hide NodeOk;
    if OperatesOn(step, n) {
      OwnReplacingStep(cap, s, step, n, want);
    } else {
      OthersLeavePhase(cap, s, step, n);
    }
  }

  lemma OwnReplacingStep(cap: nat, s: State, step: Step, n: Nid, want: set<Nid>)
    requires Enabled(cap, s, step) && OperatesOn(step, n) && !(step.Confirm? && step.n == n) && n in s.nodes
    requires Replacing(s.nodes[n].phase, want)
    ensures n in Apply(cap, s, step).nodes && Replacing(Apply(cap, s, step).nodes[n].phase, want)
  {
  }

  lemma ReplacementStarts(cap: nat, s: State, t: Tid, n: Nid, want: set<Nid>)
    requires Enabled(cap, s, BeginReplace(t, n, want))
    ensures var s' := Apply(cap, s, BeginReplace(t, n, want));
            n in s'.nodes && Replacing(s'.nodes[n].phase, want)
  {
  }

  lemma {:induction false} ReplacementGoesOn(cap: nat, steps: seq<Step>, trace: seq<State>, j: nat, k: nat, t: Tid,
                                             n: Nid, want: set<Nid>)
    requires Run(cap, steps, trace) && j < k <= |steps| && steps[j] == BeginReplace(t, n, want)
    requires Unconfirmed(steps, j, k, n)
    ensures n in trace[k].nodes && Replacing(trace[k].nodes[n].phase, want)
    decreases k
  {
    hide Inv, Enabled, Apply, Replacing;
    if k == j + 1 {
      ReplacementStarts(cap, trace[j], t, n, want);
    } else {
      ReplacementGoesOn(cap, steps, trace, j, k - 1, t, n, want);
      RunKeepsInv(cap, steps, trace, k - 1);
      PartsOf(cap, trace[k - 1]);
      ReplacingStep(cap, trace[k - 1], steps[k - 1], n, want);
    }
  }

  lemma ReplacingEnds(p: Phase, want: set<Nid>)
    requires p.Linking? && Replacing(p, want)
    ensures p.exclusive && p.want == want
  {
  }

  /** When a replacement is confirmed, the node's outgoing links are the nodes that were asked for
      when it began. */
  lemma ReplacementInstalls(cap: nat, steps: seq<Step>, trace: seq<State>, j: nat, i: nat, t: Tid, u: Tid, n: Nid,
                            want: set<Nid>)
    requires Run(cap, steps, trace) && j < i < |steps| && steps[j] == BeginReplace(t, n, want) &&
             steps[i] == Confirm(u, n)
    requires Unconfirmed(steps, j, i, n)
    ensures n in trace[i + 1].nodes && trace[i + 1].nodes[n].out == want && trace[i + 1].nodes[n].inc == {}
  {
    hide Inv, Enabled, Apply, Replacing;
    ConfirmStep(cap, trace[i], u, n);
    ReplaceInstallsList(cap, steps, trace, i, u, n);
    ReplacementGoesOn(cap, steps, trace, j, i, t, n, want);
    ReplacingEnds(trace[i].nodes[n].phase, want);
  }
}
