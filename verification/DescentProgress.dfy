/** Lock order, freedom from deadlock, and a bound on every job, in all runs of insert, remove, search
    and mark_delete over all levels with any number of threads. */
module DescentProgress {
  import opened Wrappers
  import opened Descent
  import opened DescentLocks
  import opened DescentRuns

  // ------------------------------------------------------------------------------------------
  // Lock order and deadlock.

  /** Locks are taken in rank order: the graph lock first, then levels strictly downwards, then
      one operation lock; and a traversal in the middle of its descent holds a level. */
  lemma LocksTakenInRankOrder(steps: seq<Step>, trace: seq<State>, i: nat, t: Tid)
    requires Run(steps, trace) && i < |steps| && t in trace[i].threads
    ensures t in trace[i + 1].threads
    ensures var th, th' := trace[i].threads[t], trace[i + 1].threads[t];
            && (th'.graph != Free && th'.graph != th.graph ==> th.held == {} && th.op.None?)
            && (forall l :: l in th'.held - th.held ==>
                  th.graph != Free && th.op.None? && forall h :: h in th.held ==> l < h)
            && (th'.op.Some? && th'.op != th.op ==> th.op.None? && th'.op.value in th.held)
    ensures var th' := trace[i + 1].threads[t];
            th'.pc.Walking? || th'.pc.Linking? || th'.pc.Dropping? ==> th'.held != {} && th'.graph != Free
  {
    hide LockInv, Enabled, Apply;
    RunKeepsLocks(steps, trace, i);
    RunKeepsLocks(steps, trace, i + 1);
    StepsInRankOrder(trace[i], steps[i], t);
    HoldsWhileWalking(trace[i + 1], t);
  }

  lemma HoldsWhileWalking(s: State, t: Tid)
    requires LockInv(s) && t in s.threads
    ensures var th := s.threads[t];
            th.pc.Walking? || th.pc.Linking? || th.pc.Dropping? ==> th.held != {} && th.graph != Free
  {
    PhaseAt(s, t);
  }

  lemma StepsInRankOrder(s: State, step: Step, t: Tid)
    requires Enabled(s, step) && t in s.threads && LockInv(s)
    ensures t in Apply(s, step).threads
    ensures var th, th' := s.threads[t], Apply(s, step).threads[t];
            && (th'.graph != Free && th'.graph != th.graph ==> th.held == {} && th.op.None?)
            && (forall l :: l in th'.held - th.held ==>
                  th.graph != Free && th.op.None? && forall h :: h in th.held ==> l < h)
            && (th'.op.Some? && th'.op != th.op ==> th.op.None? && th'.op.value in th.held)
  {
    hide LocksOk, ElemsOk, PhasesOk, ProgressOk, LevelAvailable, OpAvailable, GraphAvailable, Neighbourhood, Without;
    PhaseAt(s, t);
  }

  /** A step that takes its job on: it ends an operation or reaches a milestone. */
  predicate Advancing(step: Step) {
    !(step.Spawn? || step.Follow? || step.Advance? || step.BeginOp? || step.AddEdge? || step.DeleteEdge?)
  }

  ghost predicate CanAdvance(s: State) {
    exists step: Step :: Enabled(s, step) && Advancing(step)
  }

  /** No deadlock: while any thread has a job, some thread can take a step of its job. */
  lemma SomeThreadCanStep(steps: seq<Step>, trace: seq<State>, i: nat, t: Tid)
    requires Run(steps, trace) && i < |trace| && t in trace[i].threads && !trace[i].threads[t].pc.Done?
    ensures CanAdvance(trace[i])
  {
    hide LockInv, Enabled, Apply, CanAdvance;
    RunKeepsLocks(steps, trace, i);
    SomeoneAdvances(trace[i], t);
  }

  lemma SomeoneAdvances(s: State, t: Tid)
    requires t in s.threads && !s.threads[t].pc.Done? && LockInv(s)
    ensures CanAdvance(s)
  {
    hide LockInv, Enabled, CanAdvance;
    if u :| u in s.threads && s.threads[u].op.Some? {
      OpEnds(s, u);
    } else if u :| u in s.threads && s.threads[u].held != {} {
      LowestAdvances(s, u);
    } else if u :| u in s.threads && (s.threads[u].pc.Ready? || s.threads[u].pc.Between?) {
      FirstLevelIsFree(s, u);
    } else if u :| u in s.threads && s.threads[u].pc.Entered? {
      EntryDecides(s, u);
    } else {
      GraphIsFree(s, t);
    }
  }

  lemma OpEnds(s: State, t: Tid)
    requires t in s.threads && s.threads[t].op.Some?
    ensures CanAdvance(s)
  {
    assert Enabled(s, EndOp(t));
  }

  lemma FirstLevelIsFree(s: State, t: Tid)
    requires t in s.threads && (s.threads[t].pc.Ready? || s.threads[t].pc.Between?) && LockInv(s)
    requires forall u :: u in s.threads ==> s.threads[u].held == {}
    ensures CanAdvance(s)
  {
    hide LocksOk, ElemsOk, PhasesOk;
    PhaseAt(s, t);
    if s.threads[t].pc.Between? {
      assert Enabled(s, Relock(t));
    } else if s.threads[t].job.Search? && s.entry.None? {
      assert Enabled(s, FinishWalk(t));
    } else {
      assert Enabled(s, LockFirst(t));
    }
  }

  lemma EntryDecides(s: State, t: Tid)
    requires t in s.threads && s.threads[t].pc.Entered?
    ensures CanAdvance(s)
  {
    if MustRenew(s, s.threads[t].job) {
      assert Enabled(s, Upgrade(t));
    } else {
      assert Enabled(s, Proceed(t));
    }
  }

  lemma GraphIsFree(s: State, t: Tid)
    requires t in s.threads && !s.threads[t].pc.Done? && LockInv(s)
    requires forall u :: u in s.threads ==>
               s.threads[u].held == {} && !s.threads[u].pc.Ready? && !s.threads[u].pc.Between? &&
               !s.threads[u].pc.Entered?
    ensures CanAdvance(s)
  {
    hide LocksOk, ElemsOk, PhasesOk, ProgressOk;
    forall u | u in s.threads ensures s.threads[u].graph == Free {
      PhaseAt(s, u);
    }
    PhaseAt(s, t);
    if s.threads[t].pc.Start? {
      assert Enabled(s, LockGraph(t));
    } else {
      assert Enabled(s, LockGraphExclusive(t));
    }
  }

  /** Of the threads holding levels, the one that has come lowest is never blocked. */
  lemma LowestAdvances(s: State, t: Tid)
    requires t in s.threads && s.threads[t].held != {} && LockInv(s)
    requires forall u :: u in s.threads ==> s.threads[u].op.None?
    ensures CanAdvance(s)
    decreases if t in s.threads then s.threads[t].cur else 0
  {
    hide LockInv, Enabled, CanAdvance;
    if u :| u in s.threads && s.threads[u].held != {} && s.threads[u].cur < s.threads[t].cur {
      LowestAdvances(s, u);
    } else {
      if s.threads[t].cur > 0 {
        LevelBelowIsFree(s, t);
      }
      LowestSteps(s, t);
    }
  }

  /** No other thread has level l locked. */
  ghost predicate Untaken(s: State, t: Tid, l: Level) {
    forall u :: u in s.threads && u != t ==> l !in s.threads[u].held
  }

  lemma LevelBelowIsFree(s: State, t: Tid)
    requires t in s.threads && s.threads[t].cur > 0 && LockInv(s)
    requires forall u :: u in s.threads && s.threads[u].held != {} ==> s.threads[t].cur <= s.threads[u].cur
    ensures Untaken(s, t, s.threads[t].cur - 1)
  {
    hide LocksOk, ElemsOk, PhasesOk, ProgressOk;
    forall u | u in s.threads && u != t ensures s.threads[t].cur - 1 !in s.threads[u].held {
      PhaseAt(s, u);
    }
  }

  lemma LowestSteps(s: State, t: Tid)
    requires t in s.threads && s.threads[t].held != {} && s.threads[t].op.None? && LockInv(s)
    requires s.threads[t].cur > 0 ==> Untaken(s, t, s.threads[t].cur - 1)
    ensures CanAdvance(s)
  {
    hide LockInv, Enabled, CanAdvance, Untaken;
    HeldPhase(s, t);
    if s.threads[t].pc.Dropping? {
      DroppingSteps(s, t, s.threads[t].job.elem);
    } else if s.threads[t].pc.Linking? {
      LinkingSteps(s, t);
    } else if s.threads[t].job.Remove? {
      RemovingSteps(s, t, s.threads[t].job.elem);
    } else {
      WalkingSteps(s, t);
    }
  }

  lemma HeldPhase(s: State, t: Tid)
    requires t in s.threads && s.threads[t].held != {} && LockInv(s)
    ensures s.threads[t].pc.Walking? || s.threads[t].pc.Linking? || s.threads[t].pc.Dropping?
    ensures s.threads[t].pc.Linking? ==> s.threads[t].job.Insert?
    ensures s.threads[t].pc.Dropping? ==> s.threads[t].job.Remove?
  {
    PhaseAt(s, t);
  }

  lemma LinkingSteps(s: State, t: Tid)
    requires t in s.threads && s.threads[t].pc.Linking? && s.threads[t].op.None? && LockInv(s)
    ensures CanAdvance(s)
  {
    hide LocksOk, ElemsOk, PhasesOk;
    PhaseAt(s, t);
    assert Enabled(s, FinishInsert(t));
  }

  lemma DroppingSteps(s: State, t: Tid, e: Elem)
    requires t in s.threads && s.threads[t].pc.Dropping? && s.threads[t].job == Remove(e) && LockInv(s)
    requires s.threads[t].cur > 0 ==> Untaken(s, t, s.threads[t].cur - 1)
    ensures CanAdvance(s)
  {
    hide LocksOk, ElemsOk, PhasesOk;
    PhaseAt(s, t);
    if s.threads[t].cur > 0 {
      assert Enabled(s, Relock(t));
    } else if s.elems[e].lo <= s.elems[e].top {
      assert Enabled(s, Drop(t));
    } else {
      assert Enabled(s, FinishRemove(t));
    }
  }

  lemma RemovingSteps(s: State, t: Tid, e: Elem)
    requires t in s.threads && s.threads[t].pc.Walking? && s.threads[t].op.None? && s.threads[t].job == Remove(e) &&
             LockInv(s)
    requires s.threads[t].cur > 0 ==> Untaken(s, t, s.threads[t].cur - 1)
    ensures CanAdvance(s)
  {
    hide LocksOk, ElemsOk, PhasesOk, Neighbourhood;
    PhaseAt(s, t);
    var th := s.threads[t];
    if s.elems[e].life == Removing(t, th.cur + 1) {
      UnlinkingSteps(s, t, e);
    } else if th.cur > 0 {
      assert Enabled(s, Descend(t));
    } else {
      assert Enabled(s, FinishPhase1(t));
    }
  }

  lemma UnlinkingSteps(s: State, t: Tid, e: Elem)
    requires t in s.threads && s.threads[t].pc.Walking? && s.threads[t].job == Remove(e)
    requires e in s.elems && s.elems[e].life == Removing(t, s.threads[t].cur + 1)
    ensures CanAdvance(s)
  {
    var l := s.threads[t].cur;
    if r :| r in Neighbourhood(s, l, e) {
      assert Enabled(s, Unlink(t, Some(r.elem)));
    } else {
      assert Enabled(s, Unlink(t, None));
    }
  }

  lemma WalkingSteps(s: State, t: Tid)
    requires t in s.threads && s.threads[t].pc.Walking? && s.threads[t].op.None? && !s.threads[t].job.Remove? &&
             LockInv(s)
    requires s.threads[t].cur > 0 ==> Untaken(s, t, s.threads[t].cur - 1)
    ensures CanAdvance(s)
  {
    hide LocksOk, ElemsOk, PhasesOk;
    PhaseAt(s, t);
    var th := s.threads[t];
    if Keeps(th.job, th.cur) && s.elems[th.job.elem].lo == th.cur + 1 {
      assert Enabled(s, CreateRecord(t));
    } else if th.cur > 0 {
      assert Enabled(s, Descend(t));
    } else if th.job.Insert? {
      assert Enabled(s, BeginLinking(t));
    } else {
      assert Enabled(s, FinishWalk(t));
    }
  }

  // ------------------------------------------------------------------------------------------
  // No job goes on for ever.

  /** A step that brings its thread nearer to the end of its job: neither reading nor relinking. */
  predicate Milestone(step: Step) {
    Advancing(step) && !step.EndOp?
  }

  /** How many phases the thread still has before it. */
  function PhasesLeft(pc: Pc): (n: nat) {
    match pc
    case Start => 8
    case Entered => 7
    case Upgrading => 6
    case Ready => 5
    case Walking => 4
    case Linking => 3
    case Between => 2
    case Dropping => 1
    case Done => 0
  }

  /** How much is left of the phase the thread is in: levels to visit, records to create or drop. */
  function LeftInPhase(elems: map<Elem, Element>, th: Thread): (n: int) {
    3 * th.cur +
    match th.job
    case Insert(e, l) => if e in elems && th.pc.Walking? && th.cur <= l && elems[e].lo == th.cur + 1 then 1 else 0
    case Remove(e) =>
      if e !in elems then 0
      else if th.pc.Walking? then if elems[e].life.Removing? && elems[e].life.low == th.cur + 1 then 1 else 0
      else if th.pc.Dropping? then elems[e].top + 1 - elems[e].lo
      else 0
    case _ => 0
  }

  ghost predicate Nearer(s: State, s': State, t: Tid)
    requires t in s.threads && t in s'.threads
  {
    var th, th' := s.threads[t], s'.threads[t];
    PhasesLeft(th'.pc) < PhasesLeft(th.pc) ||
    (th'.pc == th.pc && LeftInPhase(s'.elems, th') < LeftInPhase(s.elems, th))
  }

  ghost predicate AsFar(s: State, s': State, t: Tid)
    requires t in s.threads && t in s'.threads
  {
    var th, th' := s.threads[t], s'.threads[t];
    th'.pc == th.pc && LeftInPhase(s'.elems, th') == LeftInPhase(s.elems, th)
  }

  /** Each milestone brings its own thread strictly nearer to the end of its job, and no step but the
      start of a new job sets any thread back. */
  lemma StepsComeNearer(steps: seq<Step>, trace: seq<State>, i: nat, u: Tid)
    requires Run(steps, trace) && i < |steps| && u in trace[i].threads && !(steps[i].Spawn? && steps[i].t == u)
    ensures u in trace[i + 1].threads
    ensures if steps[i].t == u && Milestone(steps[i]) then Nearer(trace[i], trace[i + 1], u)
            else AsFar(trace[i], trace[i + 1], u)
  {
    hide LockInv, Enabled, Apply, Nearer, AsFar, Milestone;
    RunKeepsLocks(steps, trace, i);
    if steps[i].t != u {
      OthersStay(trace[i], steps[i], u);
    } else if Milestone(steps[i]) {
      MilestoneComesNearer(trace[i], steps[i]);
    } else {
      OwnStays(trace[i], steps[i]);
    }
  }

  lemma MilestoneComesNearer(s: State, step: Step)
    requires Enabled(s, step) && Milestone(step) && LockInv(s)
    ensures step.t in s.threads && step.t in Apply(s, step).threads && Nearer(s, Apply(s, step), step.t)
  {
    hide LocksOk, ElemsOk, PhasesOk, LevelAvailable, OpAvailable, GraphAvailable, Neighbourhood;
    PhaseAt(s, step.t);
  }

  lemma OwnStays(s: State, step: Step)
    requires Enabled(s, step) && !Milestone(step) && !step.Spawn? && LockInv(s)
    ensures step.t in s.threads && step.t in Apply(s, step).threads && AsFar(s, Apply(s, step), step.t)
  {
    hide LocksOk, ElemsOk, PhasesOk, LevelAvailable, OpAvailable, GraphAvailable, Neighbourhood;
  }

  /** What another thread's step does to an element is nothing to u. */
  lemma OthersStay(s: State, step: Step, u: Tid)
    requires Enabled(s, step) && u in s.threads && u != step.t && LockInv(s)
    ensures u in Apply(s, step).threads && AsFar(s, Apply(s, step), u)
  {
    hide LocksOk, ElemsOk, PhasesOk, LevelAvailable, OpAvailable, GraphAvailable, Neighbourhood;
    PhaseAt(s, step.t);
    PhaseAt(s, u);
  }

  /** No level in sight is above top. */
  ghost predicate Below(s: State, top: Level) {
    ElemsBelow(s, top) && forall t :: t in s.threads ==> ThreadBelow(s.threads[t], top)
  }

  ghost predicate ElemsBelow(s: State, top: Level) {
    (s.entry.Some? ==> s.entry.value.level <= top) && forall e :: e in s.elems ==> s.elems[e].top <= top
  }

  predicate ThreadBelow(th: Thread, top: Level) {
    th.cur <= top && JobBelow(th.job, top) && (th.spare.Some? ==> th.spare.value.level <= top)
  }

  predicate JobBelow(job: Job, top: Level) {
    job.Insert? || job.Mark? ==> job.level <= top
  }

  predicate SpawnsBelow(step: Step, top: Level) {
    step.Spawn? ==> JobBelow(step.job, top)
  }

  lemma StepStaysBelow(s: State, step: Step, top: Level)
    requires Enabled(s, step) && SpawnsBelow(step, top) && Below(s, top)
    ensures Below(Apply(s, step), top)
  {
    hide Enabled, Apply, ThreadBelow, ElemsBelow;
    var s' := Apply(s, step);
    StepRaisesNone(s, step, top);
    forall t | t in s'.threads ensures ThreadBelow(s'.threads[t], top) {
      StepRaisesNoThread(s, step, top, t);
    }
  }

  lemma StepRaisesNone(s: State, step: Step, top: Level)
    requires Enabled(s, step) && SpawnsBelow(step, top) && Below(s, top)
    ensures ElemsBelow(Apply(s, step), top)
  {
    hide LevelAvailable, OpAvailable, GraphAvailable, Neighbourhood, FirstLevel;
  }

  lemma StepRaisesNoThread(s: State, step: Step, top: Level, t: Tid)
    requires Enabled(s, step) && SpawnsBelow(step, top) && Below(s, top) && t in Apply(s, step).threads
    ensures ThreadBelow(Apply(s, step).threads[t], top)
  {
    hide LevelAvailable, OpAvailable, GraphAvailable, Neighbourhood;
  }

  lemma StartsBelow(s: State, top: Level)
    requires Initial(s)
    ensures Below(s, top)
  {
  }

  lemma {:induction false} RunStaysBelow(steps: seq<Step>, trace: seq<State>, i: nat, top: Level)
    requires Run(steps, trace) && i < |trace| && forall j :: 0 <= j < i ==> SpawnsBelow(steps[j], top)
    ensures Below(trace[i], top)
  {
    hide Enabled, Apply, Below, SpawnsBelow;
    if i == 0 {
      StartsBelow(trace[0], top);
    } else {
      RunStaysBelow(steps, trace, i - 1, top);
      StepStaysBelow(trace[i - 1], steps[i - 1], top);
    }
  }

  /** The distance as one number, where levels go up to top. */
  function Distance(s: State, t: Tid, top: Level): (n: int)
    requires t in s.threads
  {
    PhasesLeft(s.threads[t].pc) * (4 * top + 2) + LeftInPhase(s.elems, s.threads[t])
  }

  lemma LittleLeftInPhase(s: State, t: Tid, top: Level)
    requires t in s.threads && Below(s, top) && LockInv(s)
    ensures 0 <= LeftInPhase(s.elems, s.threads[t]) <= 4 * top + 1
  {
    hide LocksOk, ElemsOk, PhasesOk;
    PhaseAt(s, t);
  }

  lemma NearerIsLess(s: State, s': State, t: Tid, top: Level)
    requires t in s.threads && t in s'.threads
    requires 0 <= LeftInPhase(s.elems, s.threads[t]) && LeftInPhase(s'.elems, s'.threads[t]) <= 4 * top + 1
    ensures Nearer(s, s', t) ==> Distance(s', t, top) < Distance(s, t, top)
    ensures AsFar(s, s', t) ==> Distance(s', t, top) == Distance(s, t, top)
  {
    hide LeftInPhase, PhasesLeft;
    var p, p' := PhasesLeft(s.threads[t].pc), PhasesLeft(s'.threads[t].pc);
    if p' < p {
      MorePhases(p', p, 4 * top + 2);
    }
  }

  lemma {:induction false} MorePhases(p: int, p': int, w: nat)
    requires p < p'
    ensures p * w + w <= p' * w
    decreases p' - p
  {
    assert p' * w == (p' - 1) * w + w;
    if p < p' - 1 {
      MorePhases(p, p' - 1, w);
    }
  }

  /** The milestones of thread u from step i up to step k. */
  function Milestones(steps: seq<Step>, i: nat, k: nat, u: Tid): (n: nat)
    requires k <= |steps|
  {
    if k <= i then 0
    else Milestones(steps, i, k - 1, u) + (if steps[k - 1].t == u && Milestone(steps[k - 1]) then 1 else 0)
  }

  lemma {:induction false} MilestonesCost(steps: seq<Step>, trace: seq<State>, i: nat, k: nat, u: Tid, top: Level)
    requires Run(steps, trace) && i <= k <= |steps| && u in trace[i].threads
    requires forall j :: 0 <= j < k ==> SpawnsBelow(steps[j], top)
    requires forall j :: i <= j < k ==> !(steps[j].Spawn? && steps[j].t == u)
    ensures u in trace[k].threads &&
            Milestones(steps, i, k, u) + Distance(trace[k], u, top) <= Distance(trace[i], u, top)
  {
    hide Enabled, Apply, LockInv, Below, SpawnsBelow, Nearer, AsFar, Distance, LeftInPhase, Milestone;
    if i < k {
      MilestonesCost(steps, trace, i, k - 1, u, top);
      StepsComeNearer(steps, trace, k - 1, u);
      RunStaysBelow(steps, trace, k - 1, top);
      RunStaysBelow(steps, trace, k, top);
      RunKeepsLocks(steps, trace, k - 1);
      RunKeepsLocks(steps, trace, k);
      LittleLeftInPhase(trace[k - 1], u, top);
      LittleLeftInPhase(trace[k], u, top);
      NearerIsLess(trace[k - 1], trace[k], u, top);
    }
  }

  /** Every job comes to its end: where inserts reach no level above top, a thread has no more than
      36 * top + 17 milestones before it starts another job. */
  lemma JobsAreBounded(steps: seq<Step>, trace: seq<State>, i: nat, k: nat, u: Tid, top: Level)
    requires Run(steps, trace) && i <= k <= |steps| && u in trace[i].threads
    requires forall j :: 0 <= j < k ==> SpawnsBelow(steps[j], top)
    requires forall j :: i <= j < k ==> !(steps[j].Spawn? && steps[j].t == u)
    ensures Milestones(steps, i, k, u) <= 36 * top + 17
  {
    hide Enabled, Apply, LockInv, Below, SpawnsBelow, LeftInPhase, PhasesLeft;
    MilestonesCost(steps, trace, i, k, u, top);
    RunStaysBelow(steps, trace, i, top);
    RunStaysBelow(steps, trace, k, top);
    RunKeepsLocks(steps, trace, i);
    RunKeepsLocks(steps, trace, k);
    LittleLeftInPhase(trace[i], u, top);
    LittleLeftInPhase(trace[k], u, top);
    DistanceIsBounded(trace[i], u, top);
  }

  lemma DistanceIsBounded(s: State, u: Tid, top: Level)
    requires u in s.threads && LeftInPhase(s.elems, s.threads[u]) <= 4 * top + 1
    ensures Distance(s, u, top) <= 36 * top + 17
  {
    hide LeftInPhase;
    assert PhasesLeft(s.threads[u].pc) * (4 * top + 2) <= 8 * (4 * top + 2);
  }
}
