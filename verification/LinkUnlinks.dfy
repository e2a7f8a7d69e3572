/** What an unlinking leaves behind, compared with the level as it was when the unlinking, or its
    last rerun, began. */
module LinkUnlinks {
  import opened Wrappers
  import opened LinkProtocol
  import opened LinkSteps
  import opened LinkRuns
  import opened LinkChains

  predicate Starts(step: Step, n: Nid) {
    (step.BeginUnlink? || step.RestartUnlink?) && step.n == n
  }

  /** The nodes that name n, in whatever form. */
  function Linkers(s: State, n: Nid): (m: set<Nid>) {
    set v | v in s.nodes && v != n && !s.nodes[v].phase.Retired? && n in Names(s.nodes[v])
  }

  /** Those still to visit name n exactly if they did at the start, and those met are the others
      that did. */
  ghost predicate Visiting(nodes: map<Nid, Node>, n: Nid, m: set<Nid>) {
    && n in nodes && nodes[n].phase.Unlinking?
    && nodes[n].phase.met == m - nodes[n].phase.todo
    && forall v :: v in nodes[n].phase.todo && v in nodes ==> (n in Names(nodes[v]) <==> v in m)
  }

  lemma LinkersAt(s: State, n: Nid, v: Nid)
    ensures v in Linkers(s, n) <==> v in s.nodes && v != n && !s.nodes[v].phase.Retired? && n in Names(s.nodes[v])
  {
  }

  // ------------------------------------------------------------------------------------------
  // From the start to the end.

  lemma StartWrites(cap: nat, s: State, step: Step, n: Nid)
    requires Enabled(cap, s, step) && Starts(step, n)
    ensures var s' := Apply(cap, s, step);
            && n in s.nodes && n in s'.nodes && s'.nodes[n].phase.Unlinking? && Runs(s', step.t, n)
            && s'.nodes[n].phase.met == {} && s'.nodes[n].phase.todo == Names(s'.nodes[n])
            && s'.nodes.Keys == s.nodes.Keys && forall v :: v in s.nodes && v != n ==> s'.nodes[v] == s.nodes[v]
  {
    if step.BeginUnlink? {
      assert Names(UnlinkOwn(s.nodes[n], step.t)) == Names(s.nodes[n]);
    }
  }

  lemma VisitingStarts(cap: nat, s: State, step: Step, n: Nid)
    requires Enabled(cap, s, step) && Starts(step, n) && Inv(cap, Apply(cap, s, step))
    ensures Visiting(Apply(cap, s, step).nodes, n, Linkers(s, n))
  {
    hide Enabled, Apply, Inv, NodeOk, Names, Unanswered, Linkers;
    StartWrites(cap, s, step, n);
    var s' := Apply(cap, s, step);
    forall v | v in s'.nodes ensures v in s'.nodes[n].phase.todo ==> (n in Names(s'.nodes[v]) <==> v in Linkers(s, n)) {
      StartAt(cap, s, s', step.t, n, v);
    }
    forall v | v in Linkers(s, n) ensures v in s'.nodes[n].phase.todo {
      LinkersAt(s, n, v);
      StartAt(cap, s, s', step.t, n, v);
    }
    assert Linkers(s, n) - s'.nodes[n].phase.todo == {};
  }

  lemma StartAt(cap: nat, s: State, s': State, t: Tid, n: Nid, v: Nid)
    requires n in s'.nodes && s'.nodes[n].phase.Unlinking? && s'.nodes[n].phase.todo == Names(s'.nodes[n]) &&
             Runs(s', t, n)
    requires s'.nodes.Keys == s.nodes.Keys && (forall w :: w in s.nodes && w != n ==> s'.nodes[w] == s.nodes[w])
    requires v in s.nodes && Inv(cap, s')
    ensures v in s'.nodes[n].phase.todo ==> (n in Names(s'.nodes[v]) <==> v in Linkers(s, n))
    ensures v in Linkers(s, n) ==> v in s'.nodes[n].phase.todo
  {
    hide NodeOk, NodesOk, Pairs, Threads, Owners, OpLock, Met, Wanted, Names, Unanswered, Linkers;
    LinkersAt(s, n, v);
    if v in s'.nodes[n].phase.todo {
      PairAt(s'.nodes, n, v);
      NodeAt(cap, s'.nodes, n);
      NotItself(cap, s'.nodes[n], n);
    }
    if v in Linkers(s, n) {
      PairAt(s'.nodes, v, n);
      OthersAreSettled(s', t, n, v);
    }
  }

  lemma NotItself(cap: nat, node: Node, n: Nid)
    requires NodeOk(cap, n, node)
    ensures n !in Names(node)
  {
  }

  /** Only a start makes n a node being unlinked. */
  lemma BecomesUnlinking(cap: nat, s: State, step: Step, n: Nid)
    requires Enabled(cap, s, step) && !Starts(step, n)
    requires n in Apply(cap, s, step).nodes && Apply(cap, s, step).nodes[n].phase.Unlinking?
    ensures n in s.nodes && s.nodes[n].phase.Unlinking?
  {
    hide Landed, Cleared;
    ClearedKeepsPhase(s, step);
  }

  lemma ClearedKeepsPhase(s: State, step: Step)
    ensures forall v: Nid, n: Nid :: v in s.nodes ==> Cleared(s.nodes[v], n).phase == s.nodes[v].phase
    ensures forall v: Nid, n: Nid, cap: nat :: v in s.nodes ==> Landed(cap, s.nodes[v], n).phase == s.nodes[v].phase
  {
  }

  lemma VisitingStep(cap: nat, s: State, step: Step, n: Nid, m: set<Nid>)
    requires Enabled(cap, s, step) && !Starts(step, n) && !(step.EndUnlink? && step.n == n)
    requires Visiting(s.nodes, n, m) && Inv(cap, s)
    ensures Visiting(Apply(cap, s, step).nodes, n, m)
  {
    hide Enabled, Apply, Inv, Visiting;
    LocksOf(cap, s);
    VisitingIsExclusive(s.nodes, n, m);
    if QuietStep(step) || step.Land? || step.DropLink? || step.KeepLink? || step.Write? || step.Sever? ||
       step.FreeSevered? {
      OperatesOn(cap, s, step, n);
      match step
      case Sever(t, _, v) => VisitingSever(cap, s, t, n, v, m);
      case FreeSevered(t, _, freed) => VisitingFree(cap, s, t, n, freed, m);
      case _ => NotThisPhase(cap, s, step, n);
    } else {
      VisitingOther(cap, s, step, n, m);
    }
  }

  lemma VisitingIsExclusive(nodes: map<Nid, Node>, n: Nid, m: set<Nid>)
    requires Visiting(nodes, n, m)
    ensures n in nodes && nodes[n].phase.Unlinking? && HoldsExclusive(nodes[n].phase)
  {
  }

  lemma NotThisPhase(cap: nat, s: State, step: Step, n: Nid)
    requires step.Land? || step.DropLink? || step.KeepLink? || step.Write? || step.Confirm? || step.FreePromoted? ||
             step.EndReplace?
    requires Enabled(cap, s, step) && step.n == n
    ensures n in s.nodes && !s.nodes[n].phase.Unlinking?
  {
  }

  lemma VisitingOther(cap: nat, s: State, step: Step, n: Nid, m: set<Nid>)
    requires Enabled(cap, s, step) && !QuietStep(step) && !step.Land? && !step.DropLink? && !step.KeepLink? &&
             !step.Write?
    requires !step.Sever? && !step.FreeSevered? && n in s.nodes && s.nodes[n].phase.Unlinking?
    requires Visiting(s.nodes, n, m) && Pairs(s.nodes) && NodesOk(cap, s.nodes) && OpLock(s.nodes)
    ensures Visiting(Apply(cap, s, step).nodes, n, m)
  {
    hide Enabled, Apply, Pairs, NodesOk, NodeOk, OpLock, Names, Unanswered;
    var s' := Apply(cap, s, step);
    NodeAt(cap, s.nodes, n);
    OthersKeepUnlinking(cap, s, step, n);
    forall v | v in s.nodes[n].phase.todo ensures v in s'.nodes && v in s.nodes && s'.nodes[v] == s.nodes[v] {
      TodoIsSettled(cap, s.nodes, n, v);
      OthersTouchNeither(cap, s, step, n, v);
    }
  }

  lemma OthersKeepUnlinking(cap: nat, s: State, step: Step, n: Nid)
    requires Enabled(cap, s, step) && !QuietStep(step) && !step.Land? && !step.DropLink? && !step.KeepLink? &&
             !step.Write?
    requires !step.Sever? && !step.FreeSevered? && n in s.nodes && s.nodes[n].phase.Unlinking?
    ensures n in Apply(cap, s, step).nodes && Apply(cap, s, step).nodes[n] == s.nodes[n]
  {
  }

  lemma TodoIsSettled(cap: nat, nodes: map<Nid, Node>, n: Nid, v: Nid)
    requires n in nodes && nodes[n].phase.Unlinking? && v in nodes[n].phase.todo
    requires Pairs(nodes) && OpLock(nodes) && NodeOk(cap, n, nodes[n])
    ensures v in nodes && v != n && nodes[v].phase.Settled?
  {
    Settles(cap, nodes, n, v);
  }

  lemma VisitingSever(cap: nat, s: State, t: Tid, n: Nid, v: Nid, m: set<Nid>)
    requires Enabled(cap, s, Sever(t, n, v)) && Visiting(s.nodes, n, m)
    requires Pairs(s.nodes) && NodesOk(cap, s.nodes) && OpLock(s.nodes)
    ensures Visiting(Apply(cap, s, Sever(t, n, v)).nodes, n, m)
  {
    hide Pairs, NodesOk, NodeOk, OpLock, Names, Unanswered, Cleared;
    NodeAt(cap, s.nodes, n);
    TodoIsSettled(cap, s.nodes, n, v);
    var p := s.nodes[n].phase;
    assert m - (p.todo - {v}) == if v in m then (m - p.todo) + {v} else m - p.todo;
  }

  lemma VisitingFree(cap: nat, s: State, t: Tid, n: Nid, freed: set<Nid>, m: set<Nid>)
    requires Enabled(cap, s, FreeSevered(t, n, freed)) && Visiting(s.nodes, n, m) && NodesOk(cap, s.nodes)
    ensures Visiting(Apply(cap, s, FreeSevered(t, n, freed)).nodes, n, m)
  {
    NodeAt(cap, s.nodes, n);
    hide NodesOk;
  }

  lemma {:induction false} UnlinkingUnderWay(cap: nat, steps: seq<Step>, trace: seq<State>, r: nat, k: nat, n: Nid)
    requires Run(cap, steps, trace) && r < k <= |steps| && Starts(steps[r], n)
    requires forall i :: r < i < k ==> !Starts(steps[i], n)
    ensures n in trace[k].nodes && trace[k].nodes[n].phase.Unlinking? ==>
              Visiting(trace[k].nodes, n, Linkers(trace[r], n))
    decreases k
  {
    hide Inv, Enabled, Apply, Visiting, Linkers;
    RunKeepsInv(cap, steps, trace, k);
    if k == r + 1 {
      VisitingStarts(cap, trace[r], steps[r], n);
    } else if n in trace[k].nodes && trace[k].nodes[n].phase.Unlinking? {
      UnlinkingUnderWay(cap, steps, trace, r, k - 1, n);
      RunKeepsInv(cap, steps, trace, k - 1);
      BecomesUnlinking(cap, trace[k - 1], steps[k - 1], n);
      StaysUnlinking(cap, trace[k - 1], steps[k - 1], n);
      VisitingStep(cap, trace[k - 1], steps[k - 1], n, Linkers(trace[r], n));
    }
  }

  lemma StaysUnlinking(cap: nat, s: State, step: Step, n: Nid)
    requires Enabled(cap, s, step) && n in Apply(cap, s, step).nodes && Apply(cap, s, step).nodes[n].phase.Unlinking?
    ensures !(step.EndUnlink? && step.n == n)
  {
  }

  /** When an unlinking ends, what the node still records is exactly those that named it when the
      unlinking, or its last rerun, began and that are now without an outgoing link; and the thread
      goes on with all of them and, as far as a list takes them, with the others that named it then. */
  lemma UnlinkLeavesOrphans(cap: nat, steps: seq<Step>, trace: seq<State>, r: nat, i: nat, t: Tid, n: Nid,
                            pool: set<Nid>)
    requires Run(cap, steps, trace) && r < i < |steps| && Starts(steps[r], n) && steps[i] == EndUnlink(t, n, pool)
    requires forall k :: r < k < i ==> !Starts(steps[k], n)
    ensures n in trace[i + 1].nodes && Linkers(trace[r], n) <= trace[i + 1].nodes.Keys
    ensures Names(trace[i + 1].nodes[n]) == set v | v in Linkers(trace[r], n) && trace[i + 1].nodes[v].out == {}
    ensures t in trace[i + 1].threads
    ensures HandsOver(cap, Linkers(trace[r], n), Names(trace[i + 1].nodes[n]), trace[i + 1].threads[t].work)
  {
    hide Inv, Enabled, Apply, Linkers, Names, Visiting;
    EndsUnlinking(cap, trace[i], t, n, pool);
    UnlinkingUnderWay(cap, steps, trace, r, i, n);
    RunKeepsInv(cap, steps, trace, i);
    UnlinkEnds(cap, trace[i], t, n, pool);
    MetIsAll(trace[i].nodes, n, Linkers(trace[r], n));
    var m, s' := Linkers(trace[r], n), trace[i + 1];
    forall v ensures v in Names(s'.nodes[n]) <==> v in m && v in s'.nodes && s'.nodes[v].out == {} {
      OrphanIsMet(cap, trace[i], n, v);
    }
    assert forall v :: v in m ==> v in s'.nodes;
  }

  lemma EndsUnlinking(cap: nat, s: State, t: Tid, n: Nid, pool: set<Nid>)
    requires Enabled(cap, s, EndUnlink(t, n, pool))
    ensures n in s.nodes && s.nodes[n].phase.Unlinking? && s.nodes[n].phase.todo == {}
    ensures var s' := Apply(cap, s, EndUnlink(t, n, pool)); t in s'.threads && s'.threads[t].work == pool
    ensures HandsOver(cap, s.nodes[n].phase.met, s.nodes[n].phase.orphans, pool)
  {
  }

  lemma MetIsAll(nodes: map<Nid, Node>, n: Nid, m: set<Nid>)
    requires Visiting(nodes, n, m) && nodes[n].phase.todo == {}
    ensures nodes[n].phase.met == m
  {
  }

  lemma OrphanIsMet(cap: nat, s: State, n: Nid, v: Nid)
    requires n in s.nodes && s.nodes[n].phase.Unlinking? && Inv(cap, s)
    ensures v in s.nodes[n].phase.orphans ==> v in s.nodes[n].phase.met
  {
    hide Pairs, OpLock, NodesOk, Threads, Wanted, Owners, Met;
    NodeAt(cap, s.nodes, n);
  }

  /** Of the nodes that named n when the unlinking first began, those left without an outgoing link
      are on record at the end if and only if they still named n when the last rerun began. */
  lemma OrphanSurvivesRestartIff(cap: nat, steps: seq<Step>, trace: seq<State>, j: nat, r: nat, i: nat, t: Tid, n: Nid,
                                  pool: set<Nid>, v: Nid)
    requires Run(cap, steps, trace) && j <= r < i < |steps| && Starts(steps[j], n) && Starts(steps[r], n)
    requires steps[i] == EndUnlink(t, n, pool) && forall k :: r < k < i ==> !Starts(steps[k], n)
    requires v in Linkers(trace[j], n) && v in trace[i + 1].nodes && trace[i + 1].nodes[v].out == {}
    ensures n in trace[i + 1].nodes
    ensures v in Names(trace[i + 1].nodes[n]) <==> v in Linkers(trace[r], n)
  {
    UnlinkLeavesOrphans(cap, steps, trace, r, i, t, n, pool);
  }

  // ------------------------------------------------------------------------------------------
  // A rerun loses the orphans made before it.

  ghost predicate RunsTo(cap: nat, steps: seq<Step>, trace: seq<State>, s: State) {
    Run(cap, steps, trace) && trace[|steps|] == s
  }

  /** One more step. */
  lemma Do(cap: nat, steps: seq<Step>, trace: seq<State>, s: State, step: Step)
    returns (steps': seq<Step>, trace': seq<State>, s': State)
    requires RunsTo(cap, steps, trace, s) && Enabled(cap, s, step)
    ensures s' == Apply(cap, s, step) && steps' == steps + [step] && trace' == trace + [s'] &&
            RunsTo(cap, steps', trace', s')
  {
    s' := Apply(cap, s, step);
    hide Enabled, Apply;
    steps', trace' := steps + [step], trace + [s'];
  }

  function Alone(nodes: map<Nid, Node>, level: LevelLock, work: set<Nid>, busy: Option<Nid>): (s: State) {
    State(nodes, map[0 := Thread(level, work, busy)])
  }

  lemma FirstIsLinked() returns (steps: seq<Step>, trace: seq<State>, s: State)
    ensures RunsTo(2, steps, trace, s) && s == Alone(map[1 := Node({}, {}, {}, Settled)], Shared, {1}, None)
  {
    s := Alone(map[], Unlocked, {}, None);
    steps, trace := [], [s];
    assert RunsTo(2, steps, trace, s);
    hide RunsTo;
    steps, trace, s := Do(2, steps, trace, s, LockShared(0));
    steps, trace, s := Do(2, steps, trace, s, Create(0, 1, {}));
    steps, trace, s := Do(2, steps, trace, s, BeginLink(0, 1));
    steps, trace, s := Do(2, steps, trace, s, Confirm(0, 1));
    assert s.threads[0].work == {1};
  }

  lemma SecondIsCreated() returns (steps: seq<Step>, trace: seq<State>, s: State)
    ensures RunsTo(2, steps, trace, s)
    ensures s == Alone(map[1 := Node({}, {}, {}, Settled), 2 := Node({}, {1}, {}, Linking(0, {1}, {1}, false))], Shared,
                       {1}, Some(2))
  {
    hide RunsTo;
    steps, trace, s := FirstIsLinked();
    steps, trace, s := Do(2, steps, trace, s, Create(0, 2, {1}));
    steps, trace, s := Do(2, steps, trace, s, BeginLink(0, 2));
  }

  lemma SecondIsLinked() returns (steps: seq<Step>, trace: seq<State>, s: State)
    ensures RunsTo(2, steps, trace, s)
    ensures s == Alone(map[1 := Node({2}, {}, {}, Settled), 2 := Node({1}, {}, {}, Settled)], Shared, {1, 2}, None)
  {
    hide RunsTo;
    steps, trace, s := SecondIsCreated();
    steps, trace, s := Do(2, steps, trace, s, Land(0, 2, 1));
    assert s.nodes[1].out == {2};
    steps, trace, s := Do(2, steps, trace, s, Confirm(0, 2));
    assert s.nodes[2].out == {1} && s.threads[0].work == {1, 2};
  }

  lemma UnlinkingBegins() returns (steps: seq<Step>, trace: seq<State>, s: State, j: nat)
    ensures RunsTo(2, steps, trace, s) && j + 1 == |steps| && steps[j] == BeginUnlink(0, 1) && j < |trace| &&
            2 in Linkers(trace[j], 1)
    ensures s == Alone(map[1 := Node({}, {2}, {}, Unlinking(0, {2}, {}, {}, {})), 2 := Node({1}, {}, {}, Settled)],
                       Exclusive, {}, Some(1))
  {
    hide RunsTo;
    steps, trace, s := SecondIsLinked();
    steps, trace, s := Do(2, steps, trace, s, Unlock(0));
    steps, trace, s := Do(2, steps, trace, s, LockExclusive(0));
    j := |steps|;
    LastState(2, steps, trace, s);
    assert 2 in Linkers(trace[j], 1);
    steps, trace, s := Do(2, steps, trace, s, BeginUnlink(0, 1));
    assert s.nodes[1].inc == {2} && s.nodes[1].phase.todo == {2};
  }

  lemma LinkIsSevered() returns (steps: seq<Step>, trace: seq<State>, s: State, j: nat)
    ensures RunsTo(2, steps, trace, s) && j + 2 == |steps| && steps[j] == BeginUnlink(0, 1) && j < |trace| &&
            2 in Linkers(trace[j], 1)
    ensures s == Alone(map[1 := Node({}, {2}, {}, Unlinking(0, {}, {2}, {2}, {2})), 2 := Node({}, {}, {}, Settled)],
                       Exclusive, {}, Some(1))
  {
    hide RunsTo;
    steps, trace, s, j := UnlinkingBegins();
    assert Cleared(s.nodes[2], 1).out == {} && 1 in Names(s.nodes[2]);
    steps, trace, s := Do(2, steps, trace, s, Sever(0, 1, 2));
    assert s.nodes[2].out == {} && s.nodes[2].inc == {} && s.nodes[2].over == {};
    assert s.nodes[1].phase.todo == {} && s.nodes[1].phase.severed == {2} && s.nodes[1].phase.met == {2} &&
           s.nodes[1].phase.orphans == {2};
  }

  /** Node 2's link to node 1 is severed, which orphans it, and then the unlinking is run again. */
  lemma SeveredAndRestarted() returns (steps: seq<Step>, trace: seq<State>, s: State, j: nat)
    ensures RunsTo(2, steps, trace, s) && j + 3 == |steps| && steps[j] == BeginUnlink(0, 1) && j < |trace| &&
            2 in Linkers(trace[j], 1)
    ensures s == Alone(map[1 := Node({}, {2}, {}, Unlinking(0, {2}, {2}, {}, {})), 2 := Node({}, {}, {}, Settled)],
                       Exclusive, {}, Some(1))
  {
    hide RunsTo;
    steps, trace, s, j := LinkIsSevered();
    steps, trace, s := Do(2, steps, trace, s, RestartUnlink(0, 1));
    assert s.nodes[1].phase.todo == {2};
  }

  lemma LastState(cap: nat, steps: seq<Step>, trace: seq<State>, s: State)
    requires RunsTo(cap, steps, trace, s)
    ensures |trace| == |steps| + 1 && trace[|steps|] == s
  {
  }

  /** A former linker left without an outgoing link is then neither on record nor in the thread's
      hands, so nothing repairs it. */
  lemma RerunLosesOrphan()
    ensures exists steps, trace, j: nat, i: nat ::
              LosesOrphan(steps, trace, j, i)
  {
    var steps, trace, s, j := SeveredAndRestarted();
    hide RunsTo;
    steps, trace, s := Do(2, steps, trace, s, Sever(0, 1, 2));
    steps, trace, s := Do(2, steps, trace, s, FreeSevered(0, 1, {2}));
    var i := |steps|;
    steps, trace, s := Do(2, steps, trace, s, EndUnlink(0, 1, {}));
    LastState(2, steps, trace, s);
    IsRun(2, steps, trace, s);
    assert LosesOrphan(steps, trace, j, i);
  }

  lemma IsRun(cap: nat, steps: seq<Step>, trace: seq<State>, s: State)
    requires RunsTo(cap, steps, trace, s)
    ensures Run(cap, steps, trace)
  {
  }

  /** Node 1 is unlinked from j to i; node 2 named it at j, has no outgoing link at the end, and is forgotten. */
  ghost predicate LosesOrphan(steps: seq<Step>, trace: seq<State>, j: nat, i: nat) {
    && Run(2, steps, trace) && j < i < |steps| && steps[j] == BeginUnlink(0, 1) && steps[i] == EndUnlink(0, 1, {})
    && 2 in Linkers(trace[j], 1)
    && var s := trace[i + 1];
    && 1 in s.nodes && 2 in s.nodes && 0 in s.threads
    && s.nodes[2].out == {} && 2 !in Names(s.nodes[1]) && 2 !in s.threads[0].work
  }
}
