/** What holds at every mini-transaction boundary of every run of the link protocol, with any
    number of threads and any interleaving their locks allow. */
module LinkRuns {
  import opened Wrappers
  import opened LinkProtocol
  import opened LinkSteps

  /** An empty level, and threads that hold nothing. */
  predicate Initial(s: State) {
    s.nodes == map[] && forall t :: t in s.threads ==> s.threads[t] == Thread(Unlocked, {}, None)
  }

  ghost predicate Run(cap: nat, steps: seq<Step>, trace: seq<State>) {
    && |trace| == |steps| + 1 && Initial(trace[0])
    && forall i :: 0 <= i < |steps| ==>
         Enabled(cap, trace[i], steps[i]) && trace[i + 1] == Apply(cap, trace[i], steps[i])
  }

  lemma {:induction false} RunKeepsInv(cap: nat, steps: seq<Step>, trace: seq<State>, i: nat)
    requires Run(cap, steps, trace) && i < |trace|
    ensures Inv(cap, trace[i])
  {
    hide Inv, Enabled, Apply;
    if i == 0 {
      StartsInv(cap, trace[0]);
    } else {
      RunKeepsInv(cap, steps, trace, i - 1);
      StepKeeps(cap, trace[i - 1], steps[i - 1]);
    }
  }

  lemma StartsInv(cap: nat, s: State)
    requires Initial(s)
    ensures Inv(cap, s)
  {
  }

  /** The link-recording invariant: at every boundary, a confirmed outgoing link u -> v has a live
      target that has not been retired, and v records u. */
  lemma LinksAreRecorded(cap: nat, steps: seq<Step>, trace: seq<State>, i: nat, u: Nid, v: Nid)
    requires Run(cap, steps, trace) && i < |trace|
    requires u in trace[i].nodes && v in trace[i].nodes[u].out
    ensures v in trace[i].nodes && !trace[i].nodes[v].phase.Retired? && u in Names(trace[i].nodes[v])
  {
    RunKeepsInv(cap, steps, trace, i);
    LinkIsRecorded(cap, trace[i], u, v);
  }

  lemma LinkIsRecorded(cap: nat, s: State, u: Nid, v: Nid)
    requires Inv(cap, s) && u in s.nodes && v in s.nodes[u].out
    ensures v in s.nodes && !s.nodes[v].phase.Retired? && u in Names(s.nodes[v])
  {
    hide NodeOk, NodesOk, Pairs, Threads, Owners, OpLock, Met, Wanted;
    NodeAt(cap, s.nodes, u);
    OutgoingIsAnswered(cap, s.nodes[u], u, v);
    PairAt(s.nodes, u, v);
  }

  lemma OutgoingIsAnswered(cap: nat, node: Node, u: Nid, v: Nid)
    requires NodeOk(cap, u, node) && v in node.out
    ensures v !in Unanswered(node) && !node.phase.Retired?
  {
  }

  ghost predicate AllLive(s: State, ns: set<Nid>) {
    forall n :: n in ns ==> n in s.nodes && !s.nodes[n].phase.Retired? && !s.nodes[n].phase.Created?
  }

  /** Entering a level at a node, or following an outgoing link to it, hands the thread a live record
      that has been linked, and whatever it holds stays so until it lets go of the level. */
  lemma TraversalMeetsLive(cap: nat, steps: seq<Step>, trace: seq<State>, i: nat, t: Tid, n: Nid)
    requires Run(cap, steps, trace) && i < |steps|
    requires steps[i] == Enter(t, n) || (steps[i].Follow? && steps[i].t == t && steps[i].v == n)
    ensures t in trace[i + 1].threads && n in trace[i + 1].threads[t].work
    ensures AllLive(trace[i + 1], trace[i + 1].threads[t].work)
  {
    hide Inv;
    RunKeepsInv(cap, steps, trace, i + 1);
    HeldIsLive(cap, trace[i + 1], t);
  }

  lemma HeldIsLive(cap: nat, s: State, t: Tid)
    requires Inv(cap, s) && t in s.threads
    ensures AllLive(s, s.threads[t].work)
  {
    hide NodesOk, NodeOk, Pairs, OpLock, Met, Owners, Wanted;
  }

  /** The primary list fits, and a settled node records each neighbour once, in one place. */
  lemma RecordsAreTidy(cap: nat, steps: seq<Step>, trace: seq<State>, i: nat, u: Nid)
    requires Run(cap, steps, trace) && i < |trace| && u in trace[i].nodes
    ensures var node := trace[i].nodes[u];
            && node.out !! node.inc && |node.out| + |node.inc| <= cap && u !in Names(node)
            && (node.phase.Settled? ==> node.inc == {} && node.out !! node.over)
  {
    RunKeepsInv(cap, steps, trace, i);
    NodeAt(cap, trace[i].nodes, u);
  }

  /** Between settled nodes recording is mutual: u names v exactly when v names u. */
  lemma SettledRecordsAreMutual(cap: nat, steps: seq<Step>, trace: seq<State>, i: nat, u: Nid, v: Nid)
    requires Run(cap, steps, trace) && i < |trace| && u in trace[i].nodes && v in trace[i].nodes
    requires trace[i].nodes[u].phase.Settled? && trace[i].nodes[v].phase.Settled?
    ensures u in Names(trace[i].nodes[v]) <==> v in Names(trace[i].nodes[u])
  {
    RunKeepsInv(cap, steps, trace, i);
    hide NodeOk, NodesOk, Pairs, Threads, Owners, OpLock, Met, Wanted, Names;
    if v in Names(trace[i].nodes[u]) {
      PairAt(trace[i].nodes, u, v);
    }
    if u in Names(trace[i].nodes[v]) {
      PairAt(trace[i].nodes, v, u);
    }
  }

  /** An operation never finds a neighbour's record gone, and never adds a name twice. */
  lemma VisitsAreSound(cap: nat, steps: seq<Step>, trace: seq<State>, i: nat, n: Nid, v: Nid)
    requires Run(cap, steps, trace) && i < |trace| && n in trace[i].nodes
    ensures var s, p := trace[i], trace[i].nodes[n].phase;
            && (p.Linking? && v in p.todo ==> v in s.nodes && n !in Names(s.nodes[v]))
            && (p.Dropping? && v in p.drop ==> v in s.nodes && n in Names(s.nodes[v]))
            && (p.Keeping? ==> p.kept in s.nodes && n in Names(s.nodes[p.kept]) && p.kept !in s.nodes[n].over)
            && (p.Unlinking? && v in p.todo ==> v in s.nodes)
  {
    RunKeepsInv(cap, steps, trace, i);
    var nodes, p := trace[i].nodes, trace[i].nodes[n].phase;
    NodeAt(cap, nodes, n);
    assert Pairs(nodes);
    hide NodesOk, Pairs, Threads, Owners, OpLock, Met, Wanted;
    if (p.Linking? || p.Unlinking?) && v in p.todo {
      PairAt(nodes, n, v);
    } else if p.Dropping? && v in p.drop {
      PairAt(nodes, n, v);
    } else if p.Keeping? {
      PairAt(nodes, n, p.kept);
    }
  }

  /** Unlinking, as often restarted as may be: when it ends, no record still in the graph names
      the node in any form, and what the node still records is exactly those it has met since it
      was last started that have no outgoing link left. What that is in terms of the level before
      the unlinking, and what a rerun loses, says LinkUnlinks. */
  lemma UnlinkSeversEverything(cap: nat, steps: seq<Step>, trace: seq<State>, i: nat, t: Tid, n: Nid, pool: set<Nid>)
    requires Run(cap, steps, trace) && i < |steps| && steps[i] == EndUnlink(t, n, pool)
    ensures UnlinkResult(trace[i], trace[i + 1], t, n)
  {
    RunKeepsInv(cap, steps, trace, i);
    UnlinkEnds(cap, trace[i], t, n, pool);
  }

  ghost predicate UnlinkResult(s: State, s': State, t: Tid, n: Nid) {
    && n in s.nodes && n in s'.nodes && s.nodes[n].phase.Unlinking? && t in s'.threads
    && (forall u :: u in s'.nodes && u != n && !s'.nodes[u].phase.Retired? ==> n !in Names(s'.nodes[u]))
    && Names(s'.nodes[n]) == s.nodes[n].phase.orphans
    && s'.threads[t].work <= s.nodes[n].phase.met
    && (forall v :: v in s.nodes[n].phase.met ==>
          && v in s'.nodes
          && (v in Names(s'.nodes[n]) <==> s'.nodes[v].out == {}))
  }

  lemma UnlinkEnds(cap: nat, s: State, t: Tid, n: Nid, pool: set<Nid>)
    requires Enabled(cap, s, EndUnlink(t, n, pool)) && Inv(cap, s)
    ensures UnlinkResult(s, Apply(cap, s, EndUnlink(t, n, pool)), t, n)
  {
    hide NodeOk, NodesOk, Pairs, Threads, Owners, OpLock, Met, Wanted, Unanswered, Names;
    var s' := Apply(cap, s, EndUnlink(t, n, pool));
    NodeAt(cap, s.nodes, n);
    OrphansRemain(cap, s.nodes[n], n);
    SameRecordSameNames(s.nodes[n], s'.nodes[n]);
    forall u | u in s.nodes && u != n && !s.nodes[u].phase.Retired? ensures n !in Names(s.nodes[u]) {
      UnlinkedIsUnnamed(cap, s, t, n, pool, u);
    }
    forall v | v in s.nodes[n].phase.met
      ensures v in s.nodes && v != n && (v in s.nodes[n].phase.orphans <==> s.nodes[v].out == {})
    {
      MetAt(s.nodes, n, v);
    }
  }

  lemma OrphansRemain(cap: nat, node: Node, n: Nid)
    requires NodeOk(cap, n, node) && node.phase.Unlinking? && Names(node) <= node.phase.orphans
    ensures Names(node) == node.phase.orphans
  {
  }

  lemma SameRecordSameNames(node: Node, node': Node)
    requires node.out == node'.out && node.inc == node'.inc && node.over == node'.over
    ensures Names(node) == Names(node')
  {
  }

  lemma MetAt(nodes: map<Nid, Node>, n: Nid, v: Nid)
    requires Met(nodes) && n in nodes && nodes[n].phase.Unlinking? && v in nodes[n].phase.met
    ensures v in nodes && v != n && (v in nodes[n].phase.orphans <==> nodes[v].out == {})
  {
  }

  /** A replacement ends with the node's primary list naming exactly the requested nodes, all of
      them confirmed outgoing links. */
  lemma ReplaceInstallsList(cap: nat, steps: seq<Step>, trace: seq<State>, i: nat, t: Tid, n: Nid)
    requires Run(cap, steps, trace) && i < |steps| && steps[i] == Confirm(t, n)
    ensures var p := trace[i].nodes[n].phase;
            && trace[i + 1].nodes[n].inc == {}
            && p.want <= trace[i + 1].nodes[n].out
            && (p.exclusive ==> trace[i + 1].nodes[n].out == p.want)
  {
    hide Inv, Apply, Enabled;
    RunKeepsInv(cap, steps, trace, i);
    ConfirmStep(cap, trace[i], t, n);
    LinkingInstalls(cap, trace[i], n);
  }

  lemma ConfirmStep(cap: nat, s: State, t: Tid, n: Nid)
    requires Enabled(cap, s, Confirm(t, n))
    ensures n in s.nodes && s.nodes[n].phase.Linking?
    ensures n in Apply(cap, s, Confirm(t, n)).nodes && Apply(cap, s, Confirm(t, n)).nodes[n] == Confirmed(s.nodes[n])
  {
  }

  lemma LinkingInstalls(cap: nat, s: State, n: Nid)
    requires n in s.nodes && s.nodes[n].phase.Linking? && Inv(cap, s)
    ensures var p := s.nodes[n].phase;
            p.want <= s.nodes[n].out + s.nodes[n].inc && (p.exclusive ==> s.nodes[n].out + s.nodes[n].inc == p.want)
  {
    hide Pairs, OpLock, Met, Owners, Wanted, Threads, NodesOk;
    NodeAt(cap, s.nodes, n);
  }

  predicate ReplaceStep(step: Step) {
    step.BeginReplace? || step.DropLink? || step.KeepLink? || step.Write? || step.FreePromoted? || step.EndReplace? ||
    step.Land? || step.Confirm?
  }

  /** No step of a replacement takes an outgoing link away from any other node. */
  lemma ReplaceSparesOthers(cap: nat, steps: seq<Step>, trace: seq<State>, i: nat, u: Nid)
    requires Run(cap, steps, trace) && i < |steps| && ReplaceStep(steps[i])
    requires u in trace[i].nodes && u != steps[i].n
    ensures u in trace[i + 1].nodes && trace[i].nodes[u].out <= trace[i + 1].nodes[u].out
  {
    hide Enabled, Apply;
    StepSparesOthers(cap, trace[i], steps[i], u);
  }

  lemma StepSparesOthers(cap: nat, s: State, step: Step, u: Nid)
    requires Enabled(cap, s, step) && ReplaceStep(step) && u in s.nodes && u != step.n
    ensures u in Apply(cap, s, step).nodes && s.nodes[u].out <= Apply(cap, s, step).nodes[u].out
  {
    match step
    case Land(t, n, v) =>
    case DropLink(t, n, d) =>
    case _ =>
  }

  /** A node is dropped only when nothing links to it, nothing in the graph names it, and no thread
      holds on to it. */
  lemma DroppedIsForgotten(cap: nat, steps: seq<Step>, trace: seq<State>, i: nat, t: Tid, n: Nid)
    requires Run(cap, steps, trace) && i < |steps| && steps[i] == DropNode(t, n)
    ensures forall u :: u in trace[i].nodes ==> n !in trace[i].nodes[u].out
    ensures forall u :: u in trace[i].nodes && !trace[i].nodes[u].phase.Retired? ==> n !in Names(trace[i].nodes[u])
    ensures forall o :: o in trace[i].threads ==> n !in trace[i].threads[o].work
  {
    hide Inv;
    RunKeepsInv(cap, steps, trace, i);
    RetiredIsForgotten(cap, trace[i], n);
  }

  lemma RetiredIsForgotten(cap: nat, s: State, n: Nid)
    requires n in s.nodes && s.nodes[n].phase.Retired? && Inv(cap, s)
    ensures forall u :: u in s.nodes ==> n !in s.nodes[u].out
    ensures forall u :: u in s.nodes && !s.nodes[u].phase.Retired? ==> n !in Names(s.nodes[u])
    ensures forall o :: o in s.threads ==> n !in s.threads[o].work
  {
    hide NodesOk, NodeOk, Pairs, OpLock, Met, Owners, Wanted, Threads, Names;
    forall u | u in s.nodes && !s.nodes[u].phase.Retired? ensures n !in Names(s.nodes[u]) {
      if n in Names(s.nodes[u]) {
        PairAt(s.nodes, u, n);
      }
    }
    forall u | u in s.nodes ensures n !in s.nodes[u].out {
      if n in s.nodes[u].out {
        hide Inv;
        LinkIsRecorded(cap, s, u, n);
      }
    }
    NotInHand(s, n);
  }

  lemma NotInHand(s: State, n: Nid)
    requires n in s.nodes && s.nodes[n].phase.Retired? && Threads(s)
    ensures forall o :: o in s.threads ==> n !in s.threads[o].work
  {
  }
}
