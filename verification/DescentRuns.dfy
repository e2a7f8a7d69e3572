/** What holds in every run of insert, remove, search and mark_delete over all levels, with any
    number of threads. */
module DescentRuns {
  import opened Wrappers
  import opened Descent
  import opened DescentLocks
  import opened DescentSteps

  /** An empty index, and threads between jobs. */
  predicate Initial(s: State) {
    && s.elems == map[] && s.edges == {} && s.entry == None
    && forall t :: t in s.threads ==> s.threads[t] == Rested(s.threads[t])
  }

  ghost predicate Run(steps: seq<Step>, trace: seq<State>) {
    && |trace| == |steps| + 1 && Initial(trace[0])
    && forall i :: 0 <= i < |steps| ==> Enabled(trace[i], steps[i]) && trace[i + 1] == Apply(trace[i], steps[i])
  }

  /** Up to step k, each remover that decided found the entry point at its element's top level,
      if it was registered on that element. */
  ghost predicate Recognised(steps: seq<Step>, trace: seq<State>, k: nat) {
    Run(steps, trace) && k <= |steps| && forall i :: 0 <= i < k ==> Recognises(trace[i], steps[i])
  }

  lemma {:induction false} RunKeepsInv(steps: seq<Step>, trace: seq<State>, i: nat)
    requires Recognised(steps, trace, i)
    ensures Inv(trace[i])
  {
    hide Inv, Enabled, Apply, Recognises;
    if i == 0 {
      StartsInv(trace[0]);
    } else {
      RunKeepsInv(steps, trace, i - 1);
      StepKeeps(trace[i - 1], steps[i - 1]);
    }
  }

  lemma {:induction false} RunKeepsLocks(steps: seq<Step>, trace: seq<State>, i: nat)
    requires Run(steps, trace) && i < |trace|
    ensures LockInv(trace[i])
  {
    hide LockInv, Enabled, Apply;
    if i == 0 {
      StartsLocks(trace[0]);
    } else {
      RunKeepsLocks(steps, trace, i - 1);
      StepKeepsLocks(trace[i - 1], steps[i - 1]);
    }
  }

  lemma StartsLocks(s: State)
    requires Initial(s)
    ensures LockInv(s)
  {
  }

  lemma StartsInv(s: State)
    requires Initial(s)
    ensures Inv(s)
  {
  }

  /** A run goes on with whatever is enabled at its end. */
  lemma Extends(steps: seq<Step>, trace: seq<State>, step: Step)
    requires Run(steps, trace) && Enabled(trace[|steps|], step)
    ensures Run(steps + [step], trace + [Apply(trace[|steps|], step)])
  {
    hide Enabled, Apply, Initial;
    var more, longer := steps + [step], trace + [Apply(trace[|steps|], step)];
    forall i | 0 <= i < |more| ensures Enabled(longer[i], more[i]) && longer[i + 1] == Apply(longer[i], more[i]) {
      if i < |steps| {
        assert more[i] == steps[i] && longer[i] == trace[i] && longer[i + 1] == trace[i + 1];
      }
    }
  }

  /** What has happened up to some state is a run. */
  lemma Prefix(steps: seq<Step>, trace: seq<State>, k: nat)
    requires Run(steps, trace) && k < |trace|
    ensures Run(steps[..k], trace[..k + 1])
  {
    hide Enabled, Apply, Initial;
    forall i | 0 <= i < k
      ensures Enabled(trace[..k + 1][i], steps[..k][i]) &&
              trace[..k + 1][i + 1] == Apply(trace[..k + 1][i], steps[..k][i])
    {
      assert trace[..k + 1][i] == trace[i] && steps[..k][i] == steps[i] && trace[..k + 1][i + 1] == trace[i + 1];
    }
  }

  // ------------------------------------------------------------------------------------------
  // No remover overtakes a traversal.

  /** No thread holds any of e's records, and no link at any level touches e. */
  ghost predicate Forgotten(s: State, e: Elem) {
    && (forall u, r :: u in s.threads && r in s.threads[u].known ==> r.elem != e)
    && (forall x :: x in s.edges ==> x.from != e && x.to != e)
  }

  /** A record is freed only when no thread holds a record of that element as a candidate and no
      link leads to or from it; if it is still the registered entry point, the remover alone
      holds the graph lock, so nobody can read it. */
  lemma DropIsSafe(steps: seq<Step>, trace: seq<State>, i: nat, t: Tid)
    requires Recognised(steps, trace, i) && i < |steps| && steps[i] == Drop(t)
    ensures var s := trace[i];
            var e := s.threads[t].job.elem;
            && Forgotten(s, e) && Forgotten(trace[i + 1], e)
            && (s.entry.Some? && s.entry.value.elem == e ==>
                  forall u :: u in s.threads && u != t ==> s.threads[u].graph == Free)
  {
    hide Inv, Recognises;
    RunKeepsInv(steps, trace, i);
    UnlinkedIsForgotten(trace[i], t, trace[i].threads[t].job.elem);
  }

  lemma UnlinkedIsForgotten(s: State, t: Tid, e: Elem)
    requires t in s.threads && s.threads[t].pc.Dropping? && s.threads[t].job == Remove(e)
    requires Inv(s)
    ensures Forgotten(s, e)
    ensures s.entry.Some? && s.entry.value.elem == e ==>
              forall u :: u in s.threads && u != t ==> s.threads[u].graph == Free
  {
    hide LocksOk, ThreadsOk, ElemsOk, EdgesOk, KnownOk, CouplingOk, EntryOk, SparesOk;
    ThreadAt(s, t);
    forall u, r | u in s.threads && r in s.threads[u].known ensures r.elem != e {
      KnownAt(s, u, r);
    }
    forall x | x in s.edges ensures x.from != e && x.to != e {
      EdgeAt(s, x);
    }
    forall u | u in s.threads && u != t && s.entry.Some? && s.entry.value.elem == e ensures s.threads[u].graph == Free {
      GraphExcludes(s, t, u);
    }
  }

  /** A level is unlinked while no other thread holds the removed record there. */
  lemma UnlinkIsAlone(steps: seq<Step>, trace: seq<State>, i: nat, t: Tid, spare: Option<Elem>)
    requires Recognised(steps, trace, i) && i < |steps| && steps[i] == Unlink(t, spare)
    ensures var th := trace[i].threads[t]; NoOneKnows(trace[i], t, Rec(th.cur, th.job.elem))
  {
    hide Inv, Recognises;
    RunKeepsInv(steps, trace, i);
    RemoverIsAlone(trace[i], t, trace[i].threads[t].job.elem);
  }

  // ------------------------------------------------------------------------------------------
  // Every descent succeeds.

  predicate Exists(s: State, r: Rec) {
    r.elem in s.elems && s.elems[r.elem].lo <= r.level <= s.elems[r.elem].top
  }

  /** Records at r's level and every level below, each the LowerLevel of the one above. */
  ghost predicate ChainDown(s: State, r: Rec) {
    forall l: Level :: l <= r.level ==> Exists(s, Rec(l, r.elem))
  }

  /** Both ends of every link, and the registered entry point unless its remover has the graph to
      itself, lead down to level 0 through live records. */
  lemma LinkedReachesBottom(steps: seq<Step>, trace: seq<State>, i: nat)
    requires Recognised(steps, trace, i)
    ensures forall x :: x in trace[i].edges ==>
              ChainDown(trace[i], Rec(x.level, x.from)) && ChainDown(trace[i], Rec(x.level, x.to))
    ensures trace[i].entry.Some? ==>
              ChainDown(trace[i], trace[i].entry.value) || EntryRemoverAlone(trace[i])
  {
    hide Inv, Enabled, Apply, Recognises, ChainDown;
    RunKeepsInv(steps, trace, i);
    var s := trace[i];
    forall x | x in s.edges ensures ChainDown(s, Rec(x.level, x.from)) && ChainDown(s, Rec(x.level, x.to)) {
      InvEdge(s, x);
    }
    if s.entry.Some? {
      EntryReachesBottom(s);
    }
  }

  lemma InvEdge(s: State, x: Edge)
    requires Inv(s) && x in s.edges
    ensures ChainDown(s, Rec(x.level, x.from)) && ChainDown(s, Rec(x.level, x.to))
  {
    EdgeAt(s, x);
  }

  /** The thread removing the entry point's element holds the graph lock, and no other thread does. */
  ghost predicate EntryRemoverAlone(s: State) {
    && s.entry.Some? && s.entry.value.elem in s.elems && s.elems[s.entry.value.elem].life.Removing?
    && var t := s.elems[s.entry.value.elem].life.owner;
    && t in s.threads && s.threads[t].graph == Exclusive
    && forall u :: u in s.threads && u != t ==> s.threads[u].graph == Free
  }

  lemma EntryReachesBottom(s: State)
    requires Inv(s) && s.entry.Some?
    ensures ChainDown(s, s.entry.value) || EntryRemoverAlone(s)
  {
    hide ThreadsOk, LocksOk, ElemsOk, EdgesOk, KnownOk, CouplingOk, SparesOk;
    if !Meetable(s.elems, s.entry.value) {
      var t := s.elems[s.entry.value.elem].life.owner;
      forall u | u in s.threads && u != t ensures s.threads[u].graph == Free {
        GraphExcludes(s, t, u);
      }
    }
  }

  /** Every candidate a thread holds exists, and following its LowerLevel always finds a record. */
  lemma AdvanceFindsRecord(steps: seq<Step>, trace: seq<State>, i: nat, t: Tid, e: Elem)
    requires Recognised(steps, trace, i) && i < |steps| && steps[i] == Advance(t, e)
    ensures var l := trace[i].threads[t].cur;
            l > 0 && ChainDown(trace[i], Rec(l, e)) && Exists(trace[i + 1], Rec(l - 1, e))
  {
    hide Inv, Recognises;
    RunKeepsInv(steps, trace, i);
    HeldReachesBottom(trace[i], t, Rec(trace[i].threads[t].cur, e));
  }

  lemma HeldReachesBottom(s: State, t: Tid, r: Rec)
    requires t in s.threads && r in s.threads[t].known && (s.threads[t].job.Insert? ==> s.threads[t].job.elem != r.elem)
    requires Inv(s)
    ensures ChainDown(s, r)
  {
    OthersAreMet(s, t, r);
  }

  /** Whatever a thread holds exists, its own half-inserted records included. */
  lemma CandidatesExist(steps: seq<Step>, trace: seq<State>, i: nat, t: Tid, r: Rec)
    requires Recognised(steps, trace, i) && t in trace[i].threads && r in trace[i].threads[t].known
    ensures Exists(trace[i], r)
  {
    hide Enabled, Apply, Recognises;
    RunKeepsInv(steps, trace, i);
    KnownAt(trace[i], t, r);
  }

  // ------------------------------------------------------------------------------------------
  // The entry point.

  /** A thread that reads the entry point under the graph lock gets a live record. */
  lemma EntryReadIsLive(steps: seq<Step>, trace: seq<State>, i: nat, t: Tid)
    requires Recognised(steps, trace, i) && i < |steps| &&
             (steps[i] == LockGraph(t) || steps[i] == LockGraphExclusive(t))
    ensures trace[i].entry.Some? ==> ChainDown(trace[i], trace[i].entry.value)
  {
    hide Inv, Recognises;
    RunKeepsInv(steps, trace, i);
    ReadsLive(trace[i], t);
  }

  lemma ReadsLive(s: State, t: Tid)
    requires t in s.threads && (s.threads[t].pc.Start? || s.threads[t].pc.Upgrading?) && Inv(s)
    requires GraphAvailable(s, t, Shared) || GraphAvailable(s, t, Exclusive)
    ensures s.entry.Some? ==> ChainDown(s, s.entry.value)
  {
    hide LocksOk, ThreadsOk, ElemsOk, EdgesOk, KnownOk, CouplingOk, EntryOk, SparesOk;
    ThreadAt(s, t);
    if s.entry.Some? {
      EntryCanBeMet(s, t);
    }
  }
}
