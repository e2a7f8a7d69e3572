/** The registered entry point in every run: when a removal leaves it behind on the element it has
    freed, what takes its place, and when the index is left without one. */
module DescentEntry {
  import opened Wrappers
  import opened Descent
  import opened DescentLocks
  import opened DescentRuns
  import opened DescentSteps

  /** With this step thread t makes up its mind whether it has to register a new entry point. */
  predicate Decides(step: Step, t: Tid) {
    step == Proceed(t) || step == LockGraphExclusive(t)
  }

  /** Between d and k thread t neither decides again nor finishes a removal. */
  ghost predicate OneJob(steps: seq<Step>, d: nat, k: nat, t: Tid)
    requires k <= |steps|
  {
    forall j :: d < j < k ==> !Decides(steps[j], t) && steps[j] != FinishRemove(t)
  }

  /** Thread t finishes a removal at step i on which it decided at step d. */
  ghost predicate Removal(steps: seq<Step>, trace: seq<State>, d: nat, i: nat, t: Tid) {
    && Run(steps, trace) && d < i < |steps| && Decides(steps[d], t) && steps[i] == FinishRemove(t)
    && OneJob(steps, d, i, t)
  }

  /** The removal was decided while the entry point stood on its element below the top. */
  ghost predicate Overlooks(steps: seq<Step>, trace: seq<State>, d: nat, i: nat, t: Tid) {
    Removal(steps, trace, d, i, t) && !Recognises(trace[d], steps[d])
  }

  predicate RegisteredOn(s: State, e: Elem) {
    s.entry.Some? && s.entry.value.elem == e
  }

  predicate RegisteredAtTop(s: State, e: Elem) {
    e in s.elems && s.entry == Some(Rec(s.elems[e].top, e))
  }

  /** The registered element is gone. */
  predicate Dangles(s: State) {
    s.entry.Some? && s.entry.value.elem !in s.elems
  }

  // ------------------------------------------------------------------------------------------
  // From the decision to the end of the removal.

  /** Since it decided in s0, t is on its way and the entry point has not changed. */
  predicate Underway(s0: State, s: State, t: Tid) {
    && t in s0.threads && t in s.threads
    && var th := s.threads[t];
    && th.job == s0.threads[t].job && th.job.Remove?
    && (th.pc.Ready? || th.pc.Walking? || th.pc.Between? || th.pc.Dropping?)
    && th.renew == RegisteredAtTop(s0, th.job.elem) && s.entry == s0.entry
    && (th.spare.Some? ==> th.spare.value.elem != th.job.elem)
  }

  lemma DecisionStarts(s: State, step: Step, t: Tid)
    requires Enabled(s, step) && Decides(step, t) && s.threads[t].job.Remove? && LockInv(s)
    ensures Underway(s, Apply(s, step), t)
  {
    hide LocksOk, ElemsOk, PhasesOk;
    PhaseAt(s, t);
  }

  /** Only the holder of the exclusive graph lock changes the entry point. */
  lemma OthersKeepEntry(s: State, step: Step, t: Tid)
    requires Enabled(s, step) && step.t != t && t in s.threads && s.threads[t].graph != Free && LockInv(s)
    ensures Apply(s, step).entry == s.entry && t in Apply(s, step).threads && Apply(s, step).threads[t] == s.threads[t]
  {
    hide LocksOk, ElemsOk, PhasesOk, LevelAvailable, OpAvailable, GraphAvailable, Neighbourhood;
    PhaseAt(s, step.t);
    if s.threads[step.t].renew {
      NotBothHold(s, step.t, t);
    }
  }

  lemma NotBothHold(s: State, u: Tid, t: Tid)
    requires t in s.threads && u in s.threads && u != t && LocksOk(s)
    ensures s.threads[u].graph == Exclusive ==> s.threads[t].graph == Free
  {
  }

  lemma StaysUnderway(s0: State, s: State, step: Step, t: Tid)
    requires Enabled(s, step) && Underway(s0, s, t) && LockInv(s)
    requires step != FinishRemove(t)
    ensures Underway(s0, Apply(s, step), t)
  {
    hide LocksOk, ElemsOk, PhasesOk, LevelAvailable, OpAvailable, GraphAvailable;
    PhaseAt(s, t);
    if step.t != t {
      OthersKeepEntry(s, step, t);
    }
  }

  /** After a decision of thread t on removing an element, t is still under way, or the removal
      it decided on has been finished. */
  lemma {:induction false} UnderwayOrFinished(steps: seq<Step>, trace: seq<State>, d: nat, k: nat, t: Tid)
    requires Run(steps, trace) && d < k < |trace| && Decides(steps[d], t) && trace[d].threads[t].job.Remove?
    ensures (Underway(trace[d], trace[k], t) && OneJob(steps, d, k, t)) ||
            exists i: nat :: i < k && Removal(steps, trace, d, i, t)
  {
    hide Enabled, Apply, Underway, LockInv;
    RunKeepsLocks(steps, trace, k - 1);
    if k == d + 1 {
      DecisionStarts(trace[d], steps[d], t);
    } else {
      UnderwayOrFinished(steps, trace, d, k - 1, t);
      if i: nat :| i < k - 1 && Removal(steps, trace, d, i, t) {
      } else if steps[k - 1] == FinishRemove(t) {
        assert Removal(steps, trace, d, k - 1, t);
      } else {
        StaysUnderway(trace[d], trace[k - 1], steps[k - 1], t);
        UnderwayDecidesNoMore(trace[d], trace[k - 1], steps[k - 1], t);
      }
    }
  }

  lemma UnderwayDecidesNoMore(s0: State, s: State, step: Step, t: Tid)
    requires Enabled(s, step) && Underway(s0, s, t)
    ensures !Decides(step, t)
  {
  }

  /** Without another decision t comes to act on a removal only if that is what it decided in s0. */
  predicate Since(s0: State, s: State, t: Tid) {
    && t in s0.threads && t in s.threads
    && var th := s.threads[t];
    || th.pc.Done? || th.pc.Start? || th.pc.Entered? || th.pc.Upgrading?
    || (!th.job.Remove? && th.job == s0.threads[t].job)
    || Underway(s0, s, t)
  }

  lemma StaysSince(s0: State, s: State, step: Step, t: Tid)
    requires Enabled(s, step) && Since(s0, s, t) && !Decides(step, t) && LockInv(s)
    ensures Since(s0, Apply(s, step), t)
  {
    hide LockInv, Underway, LevelAvailable, OpAvailable, GraphAvailable, Neighbourhood;
    if Underway(s0, s, t) && step != FinishRemove(t) {
      StaysUnderway(s0, s, step, t);
    }
  }

  lemma DecisionIsSince(s: State, step: Step, t: Tid)
    requires Enabled(s, step) && Decides(step, t) && LockInv(s)
    ensures Since(s, Apply(s, step), t)
  {
    hide LockInv, Underway;
    if s.threads[t].job.Remove? {
      DecisionStarts(s, step, t);
    }
  }

  lemma {:induction false} SinceDecision(steps: seq<Step>, trace: seq<State>, d: nat, k: nat, t: Tid)
    requires Run(steps, trace) && d < k < |trace| && Decides(steps[d], t)
    requires forall j :: d < j < k ==> !Decides(steps[j], t)
    ensures Since(trace[d], trace[k], t)
  {
    hide Enabled, Apply, Since, LockInv;
    RunKeepsLocks(steps, trace, k - 1);
    if k == d + 1 {
      DecisionIsSince(trace[d], steps[d], t);
    } else {
      SinceDecision(steps, trace, d, k - 1, t);
      StaysSince(trace[d], trace[k - 1], steps[k - 1], t);
    }
  }

  lemma SinceUnderway(s0: State, s: State, t: Tid)
    requires Since(s0, s, t) && Enabled(s, FinishRemove(t))
    ensures Underway(s0, s, t)
  {
  }

  // ------------------------------------------------------------------------------------------
  // What a removal leaves registered.

  /** The removal of e leaves the entry point on e, which it has freed, if and only if the entry
      point stood on e at another level than e's top when the remover decided. */
  lemma LeftRegisteredIff(steps: seq<Step>, trace: seq<State>, d: nat, i: nat, t: Tid)
    requires Removal(steps, trace, d, i, t)
    ensures t in trace[i].threads && trace[i].threads[t].job.Remove?
    ensures var e := trace[i].threads[t].job.elem;
            && e in trace[d].elems && e !in trace[i + 1].elems
            && (RegisteredOn(trace[i + 1], e) <==>
                RegisteredOn(trace[d], e) && trace[d].entry.value.level != trace[d].elems[e].top)
  {
    hide Enabled, Apply, Since, LockInv, Underway;
    SinceDecision(steps, trace, d, i, t);
    SinceUnderway(trace[d], trace[i], t);
    RunKeepsLocks(steps, trace, d);
    DeciderHasElem(trace[d], steps[d], t, trace[i]);
    EndsRemoval(trace[d], trace[i], t);
  }

  lemma DeciderHasElem(s: State, step: Step, t: Tid, s': State)
    requires Enabled(s, step) && Decides(step, t) && Underway(s, s', t) && LockInv(s)
    ensures s'.threads[t].job.Remove? && s'.threads[t].job.elem in s.elems
  {
    hide LocksOk, ElemsOk, PhasesOk;
    PhaseAt(s, t);
  }

  lemma EndsRemoval(s0: State, s: State, t: Tid)
    requires Enabled(s, FinishRemove(t)) && Underway(s0, s, t)
    ensures var e := s.threads[t].job.elem;
            && e !in Apply(s, FinishRemove(t)).elems
            && (RegisteredOn(Apply(s, FinishRemove(t)), e) <==> RegisteredOn(s0, e) && !RegisteredAtTop(s0, e))
  {
  }

  /** The registered element is gone at some point of a run if and only if some removal was decided
      while the entry point stood on its element below the top, and has been finished. */
  lemma EntryDanglesIff(steps: seq<Step>, trace: seq<State>)
    requires Run(steps, trace)
    ensures (exists k :: 0 <= k < |trace| && Dangles(trace[k])) <==>
            (exists d: nat, i: nat, t :: Overlooks(steps, trace, d, i, t))
  {
    hide Dangles, Overlooks, Run;
    if k: nat :| k < |trace| && Dangles(trace[k]) {
      DanglingHasCause(steps, trace, k);
    }
    if d: nat, i: nat, t :| Overlooks(steps, trace, d, i, t) {
      UnrecognisedDangles(steps, trace, d, i, t);
    }
  }

  lemma UnrecognisedDangles(steps: seq<Step>, trace: seq<State>, d: nat, i: nat, t: Tid)
    requires Overlooks(steps, trace, d, i, t)
    ensures i + 1 < |trace| && Dangles(trace[i + 1])
  {
    hide Enabled, Apply, LockInv, Underway, Since;
    LeftRegisteredIff(steps, trace, d, i, t);
    SinceDecision(steps, trace, d, i, t);
    SinceUnderway(trace[d], trace[i], t);
    SameJob(trace[d], trace[i], t);
  }

  lemma SameJob(s0: State, s: State, t: Tid)
    requires Underway(s0, s, t)
    ensures t in s.threads && t in s0.threads && s.threads[t].job == s0.threads[t].job && s.threads[t].job.Remove?
  {
  }

  lemma DanglingHasCause(steps: seq<Step>, trace: seq<State>, k: nat)
    requires Run(steps, trace) && k < |trace| && Dangles(trace[k])
    ensures exists d: nat, i: nat, t :: Overlooks(steps, trace, d, i, t)
  {
    hide Recognises, Removal, Underway, Inv, Enabled, Apply, LockInv;
    if d: nat :| d < k && !Recognises(trace[d], steps[d]) {
      var t := UnrecognisedDecides(trace[d], steps[d]);
      UnderwayOrFinished(steps, trace, d, k, t);
      if Underway(trace[d], trace[k], t) {
        RunKeepsLocks(steps, trace, k);
        UnderwayIsRegistered(trace[d], steps[d], trace[k], t);
        assert false;
      } else {
        var i: nat :| i < k && Removal(steps, trace, d, i, t);
        assert Overlooks(steps, trace, d, i, t);
      }
    } else {
      RunKeepsInv(steps, trace, k);
      EntryStands(trace[k]);
      assert false;
    }
  }

  lemma UnrecognisedDecides(s: State, step: Step) returns (t: Tid)
    requires !Recognises(s, step)
    ensures Decides(step, t) && t in s.threads && s.threads[t].job.Remove?
  {
    t := step.t;
  }

  lemma EntryStands(s: State)
    requires Inv(s)
    ensures !Dangles(s)
  {
  }

  lemma UnderwayIsRegistered(s0: State, step: Step, s: State, t: Tid)
    requires Decides(step, t) && !Recognises(s0, step) && Underway(s0, s, t) && LockInv(s)
    ensures !Dangles(s)
  {
    hide LocksOk, ElemsOk, PhasesOk;
    PhaseAt(s, t);
  }

  // ------------------------------------------------------------------------------------------
  // What comes of a removal that overlooks the entry point.

  /** The run may go on to `s` by the given steps. */
  ghost predicate GoesOn(steps: seq<Step>, k: nat, more: seq<Step>, s: State)
    requires k <= |steps|
  {
    exists trace' :: Run(steps[..k] + more, trace') && |trace'| == k + |more| + 1 && trace'[k + |more|] == s
  }

  lemma GoesOnFrom(steps: seq<Step>, trace: seq<State>, k: nat)
    requires Run(steps, trace) && k < |trace|
    ensures GoesOn(steps, k, [], trace[k])
  {
    Prefix(steps, trace, k);
    assert steps[..k] + [] == steps[..k];
    assert trace[..k + 1][k] == trace[k];
  }

  lemma GoesFurther(steps: seq<Step>, k: nat, more: seq<Step>, s: State, step: Step)
    requires k <= |steps| && GoesOn(steps, k, more, s) && Enabled(s, step)
    ensures GoesOn(steps, k, more + [step], Apply(s, step))
  {
    hide Enabled, Apply, Run;
    var trace' :| Run(steps[..k] + more, trace') && |trace'| == k + |more| + 1 && trace'[k + |more|] == s;
    Extends(steps[..k] + more, trace', step);
    assert steps[..k] + (more + [step]) == steps[..k] + more + [step];
    assert (trace' + [Apply(s, step)])[k + |more + [step]|] == Apply(s, step);
  }

  /** A thread holds a record that has been freed. */
  ghost predicate HoldsFreed(s: State, t: Tid) {
    t in s.threads && exists r :: r in s.threads[t].known && !Exists(s, r)
  }

  /** Whenever such a removal has been finished, the next search can be handed a freed record. */
  lemma FreedEntryIsRead(steps: seq<Step>, trace: seq<State>, d: nat, i: nat, t: Tid)
    requires Overlooks(steps, trace, d, i, t)
    ensures exists s :: GoesOn(steps, i + 1, [Spawn(t, Search), LockGraph(t)], s) && HoldsFreed(s, t)
  {
    hide Enabled, Apply, LockInv, Run, GoesOn;
    UnrecognisedDangles(steps, trace, d, i, t);
    RunIsLong(steps, trace, d, i, t);
    RunKeepsLocks(steps, trace, i);
    var s := trace[i + 1];
    AfterRemovalGraphIsOpen(trace[i], t);
    GoesOnFrom(steps, trace, i + 1);
    var s' := SearchReads(s, t);
    GoesFurther(steps, i + 1, [], s, Spawn(t, Search));
    assert [] + [Spawn(t, Search)] == [Spawn(t, Search)];
    GoesFurther(steps, i + 1, [Spawn(t, Search)], Apply(s, Spawn(t, Search)), LockGraph(t));
    assert [Spawn(t, Search)] + [LockGraph(t)] == [Spawn(t, Search), LockGraph(t)];
    DanglingIsFreed(s, s', t);
  }

  lemma RunIsLong(steps: seq<Step>, trace: seq<State>, d: nat, i: nat, t: Tid)
    requires Removal(steps, trace, d, i, t)
    ensures Run(steps, trace) && i + 1 < |trace| && i < |steps|
    ensures Enabled(trace[i], FinishRemove(t)) && trace[i + 1] == Apply(trace[i], FinishRemove(t))
  {
  }

  /** The remover held the graph lock, so nobody else held it exclusively. */
  lemma AfterRemovalGraphIsOpen(s: State, t: Tid)
    requires Enabled(s, FinishRemove(t)) && LockInv(s)
    ensures var s' := Apply(s, FinishRemove(t));
            t in s'.threads && s'.threads[t].pc.Done? && GraphAvailable(s', t, Shared)
  {
    hide LocksOk, ElemsOk, PhasesOk;
    PhaseAt(s, t);
    forall u | u in s.threads && u != t ensures s.threads[u].graph != Exclusive {
      NotBothHold(s, u, t);
    }
  }

  /** A search enters and reads the entry point. */
  lemma SearchReads(s: State, u: Tid) returns (s': State)
    requires u in s.threads && s.threads[u].pc.Done? && GraphAvailable(s, u, Shared)
    ensures Enabled(s, Spawn(u, Search)) && Enabled(Apply(s, Spawn(u, Search)), LockGraph(u))
    ensures s' == Apply(Apply(s, Spawn(u, Search)), LockGraph(u))
    ensures u in s'.threads && s'.elems == s.elems && (s.entry.Some? ==> s.entry.value in s'.threads[u].known)
    ensures forall t :: t in s.threads && t != u ==> t in s'.threads && s'.threads[t] == s.threads[t]
  {
    s' := Apply(Apply(s, Spawn(u, Search)), LockGraph(u));
  }

  lemma DanglingIsFreed(s: State, s': State, t: Tid)
    requires Dangles(s) && t in s'.threads && s'.elems == s.elems && s.entry.value in s'.threads[t].known
    ensures HoldsFreed(s', t)
  {
    assert !Exists(s', s.entry.value);
  }

  /** Thread t can drop a record of its element although another holds one. */
  ghost predicate DropsHeld(s: State, t: Tid) {
    Enabled(s, Drop(t)) && !Forgotten(s, s.threads[t].job.elem)
  }

  /** Nor is the condition of DropIsSafe idle: while the remover shares the graph lock, any idle
      thread can read the entry point before a record of that element is dropped. */
  lemma DropOfReadEntry(steps: seq<Step>, trace: seq<State>, d: nat, k: nat, t: Tid, u: Tid)
    requires Run(steps, trace) && d < k < |steps| && Decides(steps[d], t) && !Recognises(trace[d], steps[d])
    requires OneJob(steps, d, k, t) && steps[k] == Drop(t)
    requires t in trace[k].threads && trace[k].threads[t].graph == Shared
    requires u in trace[k].threads && u != t && trace[k].threads[u].pc.Done?
    ensures exists s :: GoesOn(steps, k, [Spawn(u, Search), LockGraph(u)], s) && DropsHeld(s, t)
  {
    hide Enabled, Apply, LockInv, Run, GoesOn, Since, Underway;
    RunAt(steps, trace, k);
    SinceDecision(steps, trace, d, k, t);
    RunKeepsLocks(steps, trace, k);
    var s := trace[k];
    DropperIsUnderway(trace[d], steps[d], s, t);
    SharedIsOpen(s, t, u);
    GoesOnFrom(steps, trace, k);
    var s' := SearchReads(s, u);
    GoesFurther(steps, k, [], s, Spawn(u, Search));
    assert [] + [Spawn(u, Search)] == [Spawn(u, Search)];
    GoesFurther(steps, k, [Spawn(u, Search)], Apply(s, Spawn(u, Search)), LockGraph(u));
    assert [Spawn(u, Search)] + [LockGraph(u)] == [Spawn(u, Search), LockGraph(u)];
    StillDrops(s, s', t, u);
    assert DropsHeld(s', t);
  }

  lemma RunAt(steps: seq<Step>, trace: seq<State>, k: nat)
    requires Run(steps, trace) && k < |steps|
    ensures k < |trace| && Enabled(trace[k], steps[k])
  {
  }

  lemma DropperIsUnderway(s0: State, step: Step, s: State, t: Tid)
    requires Since(s0, s, t) && Enabled(s, Drop(t)) && Decides(step, t) && !Recognises(s0, step)
    ensures RegisteredOn(s, s.threads[t].job.elem)
  {
  }

  lemma SharedIsOpen(s: State, t: Tid, u: Tid)
    requires t in s.threads && u in s.threads && u != t && s.threads[t].graph == Shared && s.threads[u].pc.Done? &&
             LockInv(s)
    ensures GraphAvailable(s, u, Shared)
  {
    hide LocksOk, ElemsOk, PhasesOk;
    forall w | w in s.threads && w != u ensures s.threads[w].graph != Exclusive {
      if w != t {
        NotBothHold(s, w, t);
      }
    }
  }

  lemma StillDrops(s: State, s': State, t: Tid, u: Tid)
    requires Enabled(s, Drop(t)) && t != u && s'.elems == s.elems && t in s'.threads && s'.threads[t] == s.threads[t]
    ensures Enabled(s', Drop(t))
  {
  }

  // ------------------------------------------------------------------------------------------
  // Replacements.

  predicate UnlinksFor(s: State, step: Step, t: Tid) {
    step.Unlink? && step.t == t && t in s.threads && s.threads[t].job.Remove?
  }

  /** What the removed element is linked with at the level t unlinks with this step. */
  function Lost(s: State, t: Tid): (n: set<Rec>)
    requires t in s.threads && s.threads[t].job.Remove?
  {
    Neighbourhood(s, s.threads[t].cur, s.threads[t].job.elem)
  }

  /** Between d and k thread t has unlinked no level with a neighbour. */
  ghost predicate LostNothing(steps: seq<Step>, trace: seq<State>, d: nat, k: nat, t: Tid)
    requires k <= |steps| <= |trace|
  {
    forall j :: d < j < k && UnlinksFor(trace[j], steps[j], t) ==> Lost(trace[j], t) == {}
  }

  /** Step j unlinked the topmost level with a neighbour, and r is one of its neighbours there. */
  ghost predicate TopmostLoss(steps: seq<Step>, trace: seq<State>, d: nat, j: nat, k: nat, t: Tid, r: Rec)
    requires k <= |steps| <= |trace|
  {
    d < j < k && UnlinksFor(trace[j], steps[j], t) && r in Lost(trace[j], t) && LostNothing(steps, trace, d, j, t)
  }

  ghost predicate IsTopmostLoss(steps: seq<Step>, trace: seq<State>, d: nat, k: nat, t: Tid, r: Rec)
    requires k <= |steps| <= |trace|
  {
    exists j: nat :: TopmostLoss(steps, trace, d, j, k, t, r)
  }

  /** The spare of t is what its unlinking so far has left it. */
  ghost predicate SpareIsTopmost(steps: seq<Step>, trace: seq<State>, d: nat, k: nat, t: Tid)
    requires k <= |steps| <= |trace| && k < |trace| && t in trace[k].threads
  {
    match trace[k].threads[t].spare
    case None => LostNothing(steps, trace, d, k, t)
    case Some(r) => IsTopmostLoss(steps, trace, d, k, t, r)
  }

  /** Level l of e was unlinked by t between d and k. */
  ghost predicate LevelUnlinked(steps: seq<Step>, trace: seq<State>, d: nat, k: nat, t: Tid, l: Level)
    requires k <= |steps| <= |trace|
  {
    exists j :: d < j < k && UnlinksFor(trace[j], steps[j], t) && trace[j].threads[t].cur == l
  }

  lemma LostNothingGrows(steps: seq<Step>, trace: seq<State>, d: nat, k: nat, t: Tid)
    requires k < |steps| <= |trace| && LostNothing(steps, trace, d, k, t)
    requires d < k && UnlinksFor(trace[k], steps[k], t) ==> Lost(trace[k], t) == {}
    ensures LostNothing(steps, trace, d, k + 1, t)
  {
    hide Lost, UnlinksFor;
  }

  lemma SpareStaysTopmost(steps: seq<Step>, trace: seq<State>, d: nat, k: nat, t: Tid)
    requires Run(steps, trace) && d < k < |steps| && t in trace[k].threads && t in trace[k + 1].threads
    requires Underway(trace[d], trace[k], t) && steps[k] != FinishRemove(t)
    requires SpareIsTopmost(steps, trace, d, k, t)
    requires LockInv(trace[k])
    ensures SpareIsTopmost(steps, trace, d, k + 1, t)
  {
    hide Run, Enabled, Apply, Underway, LockInv, Lost, UnlinksFor, LostNothing;
    RunSteps(steps, trace, k);
    var th, th' := trace[k].threads[t], trace[k + 1].threads[t];
    SpareMoves(trace[d], trace[k], steps[k], t);
    if th.spare.Some? {
      var j: nat :| TopmostLoss(steps, trace, d, j, k, t, th.spare.value);
      assert TopmostLoss(steps, trace, d, j, k + 1, t, th'.spare.value);
    } else if th'.spare.Some? {
      assert TopmostLoss(steps, trace, d, k, k + 1, t, th'.spare.value);
    } else {
      LostNothingGrows(steps, trace, d, k, t);
    }
  }

  lemma RunSteps(steps: seq<Step>, trace: seq<State>, k: nat)
    requires Run(steps, trace) && k < |steps|
    ensures |trace| == |steps| + 1 && Enabled(trace[k], steps[k]) && trace[k + 1] == Apply(trace[k], steps[k])
  {
  }

  /** A spare once found stays; without one, an unlinking step finds one exactly if it loses a neighbour. */
  lemma SpareMoves(s0: State, s: State, step: Step, t: Tid)
    requires Enabled(s, step) && Underway(s0, s, t) && step != FinishRemove(t) && LockInv(s)
    ensures t in s.threads && s.threads[t].job.Remove? && t in Apply(s, step).threads
    ensures var sp, sp' := s.threads[t].spare, Apply(s, step).threads[t].spare;
            && (sp.Some? ==> sp' == sp)
            && (sp.None? && sp'.None? && UnlinksFor(s, step, t) ==> Lost(s, t) == {})
            && (sp.None? && sp'.Some? ==> UnlinksFor(s, step, t) && sp'.value in Lost(s, t))
  {
    hide LocksOk, ElemsOk, PhasesOk, LevelAvailable, OpAvailable, GraphAvailable, Neighbourhood;
    PhaseAt(s, t);
    if step.t != t {
      OthersKeepEntry(s, step, t);
    }
  }

  /** The levels of the removed element that are unlinked, the levels from low up, were unlinked since d. */
  ghost predicate UnlinkedSince(steps: seq<Step>, trace: seq<State>, d: nat, k: nat, t: Tid)
    requires k <= |steps| <= |trace| && k < |trace| && t in trace[k].threads && trace[k].threads[t].job.Remove?
  {
    var e := trace[k].threads[t].job.elem;
    e in trace[k].elems && trace[k].elems[e].life.Removing? &&
    forall l: Level :: trace[k].elems[e].life.low <= l <= trace[k].elems[e].top ==>
      LevelUnlinked(steps, trace, d, k, t, l)
  }

  lemma LevelsStayUnlinked(steps: seq<Step>, trace: seq<State>, d: nat, k: nat, t: Tid)
    requires Run(steps, trace) && d < k < |steps| && t in trace[k].threads && t in trace[k + 1].threads
    requires trace[k].threads[t].job.Remove? && trace[k + 1].threads[t].job.Remove?
    requires Underway(trace[d], trace[k], t) && steps[k] != FinishRemove(t)
    requires UnlinkedSince(steps, trace, d, k, t)
    requires LockInv(trace[k])
    ensures UnlinkedSince(steps, trace, d, k + 1, t)
  {
    hide Run, Enabled, Apply, Underway, LockInv, UnlinksFor, LevelUnlinked;
    RunSteps(steps, trace, k);
    LowMoves(trace[d], trace[k], steps[k], t);
    var e := trace[k].threads[t].job.elem;
    var next := k + 1;
    forall l: Level | trace[next].elems[e].life.low <= l <= trace[next].elems[e].top
      ensures LevelUnlinked(steps, trace, d, next, t, l)
    {
      LevelIsUnlinked(steps, trace, d, k, t, l);
    }
  }

  lemma LevelIsUnlinked(steps: seq<Step>, trace: seq<State>, d: nat, k: nat, t: Tid, l: Level)
    requires d < k < |steps| <= |trace|
    requires LevelUnlinked(steps, trace, d, k, t, l) ||
             (UnlinksFor(trace[k], steps[k], t) && trace[k].threads[t].cur == l)
    ensures LevelUnlinked(steps, trace, d, k + 1, t, l)
  {
  }

  lemma LowMoves(s0: State, s: State, step: Step, t: Tid)
    requires Enabled(s, step) && Underway(s0, s, t) && step != FinishRemove(t) && LockInv(s)
    ensures t in s.threads && s.threads[t].job.Remove?
    ensures t in Apply(s, step).threads && Apply(s, step).threads[t].job == s.threads[t].job
    ensures var e, s' := s.threads[t].job.elem, Apply(s, step);
            && e in s.elems && s.elems[e].life.Removing? && e in s'.elems && s'.elems[e].life.Removing?
            && s'.elems[e].top == s.elems[e].top
            && (s'.elems[e].life.low == s.elems[e].life.low ||
                (UnlinksFor(s, step, t) && s'.elems[e].life.low == s.threads[t].cur == s.elems[e].life.low - 1))
  {
    hide LockInv, Enabled, Apply;
    RemovesOwn(s0, s, t);
    UnderwayRemoves(s0, s, t);
    if step.t == t {
      OwnLowMoves(s, step, s.threads[t].job.elem);
    } else {
      OthersLeaveLow(s, step, t, s.threads[t].job.elem);
    }
  }

  lemma UnderwayRemoves(s0: State, s: State, t: Tid)
    requires Underway(s0, s, t)
    ensures t in s.threads && s.threads[t].job.Remove?
    ensures var pc := s.threads[t].pc; pc.Ready? || pc.Walking? || pc.Between? || pc.Dropping?
  {
  }

  lemma RemovesOwn(s0: State, s: State, t: Tid)
    requires Underway(s0, s, t) && LockInv(s)
    ensures var e := s.threads[t].job.elem; e in s.elems && s.elems[e].life.Removing? && s.elems[e].life.owner == t
  {
    hide LocksOk, ElemsOk, PhasesOk;
    PhaseAt(s, t);
  }

  lemma OwnLowMoves(s: State, step: Step, e: Elem)
    requires Enabled(s, step) && s.threads[step.t].job == Remove(e) && step != FinishRemove(step.t)
    requires var pc := s.threads[step.t].pc; pc.Ready? || pc.Walking? || pc.Between? || pc.Dropping?
    requires e in s.elems && s.elems[e].life.Removing?
    ensures var t, s' := step.t, Apply(s, step);
            && t in s'.threads && s'.threads[t].job == Remove(e)
            && e in s'.elems && s'.elems[e].life.Removing? && s'.elems[e].top == s.elems[e].top
            && (s'.elems[e].life.low == s.elems[e].life.low ||
                (UnlinksFor(s, step, t) && s'.elems[e].life.low == s.threads[t].cur == s.elems[e].life.low - 1))
  {
    hide LevelAvailable, OpAvailable, GraphAvailable, Neighbourhood;
  }

  lemma OthersLeaveLow(s: State, step: Step, t: Tid, e: Elem)
    requires Enabled(s, step) && step.t != t && t in s.threads && LockInv(s)
    requires e in s.elems && s.elems[e].life.Removing? && s.elems[e].life.owner == t
    ensures var s' := Apply(s, step);
            t in s'.threads && s'.threads[t] == s.threads[t] && e in s'.elems && s'.elems[e] == s.elems[e]
  {
    hide LocksOk, ElemsOk, PhasesOk, LevelAvailable, OpAvailable, GraphAvailable, Neighbourhood;
    PhaseAt(s, step.t);
  }

  lemma RemovalBegins(steps: seq<Step>, trace: seq<State>, d: nat, t: Tid)
    requires Run(steps, trace) && d < |steps| && Decides(steps[d], t) && trace[d].threads[t].job.Remove?
    requires LockInv(trace[d])
    ensures t in trace[d + 1].threads && trace[d + 1].threads[t].job.Remove?
    ensures d + 1 < |steps| ==> SpareIsTopmost(steps, trace, d, d + 1, t) && UnlinkedSince(steps, trace, d, d + 1, t)
  {
    hide Enabled, Apply, LockInv, UnlinksFor, LevelUnlinked, Lost;
    RunSteps(steps, trace, d);
    DecidesWithout(trace[d], steps[d], t);
  }

  lemma DecidesWithout(s: State, step: Step, t: Tid)
    requires Enabled(s, step) && Decides(step, t) && s.threads[t].job.Remove? && LockInv(s)
    ensures var s' := Apply(s, step);
            && t in s'.threads && s'.threads[t].job == s.threads[t].job && s'.threads[t].spare.None?
            && var e := s.threads[t].job.elem;
            && e in s'.elems && s'.elems[e].life.Removing? && s'.elems[e].life.low == s'.elems[e].top + 1
  {
    hide LocksOk, ElemsOk, PhasesOk;
    PhaseAt(s, t);
  }

  lemma {:induction false} RemovalHistory(steps: seq<Step>, trace: seq<State>, d: nat, k: nat, i: nat, t: Tid)
    requires Removal(steps, trace, d, i, t) && d < k <= i && trace[d].threads[t].job.Remove?
    ensures t in trace[k].threads && trace[k].threads[t].job.Remove? && Underway(trace[d], trace[k], t)
    ensures SpareIsTopmost(steps, trace, d, k, t) && UnlinkedSince(steps, trace, d, k, t)
  {
    hide Enabled, Apply, Underway, LockInv, SpareIsTopmost, UnlinkedSince;
    RunKeepsLocks(steps, trace, k - 1);
    if k == d + 1 {
      RemovalBegins(steps, trace, d, t);
      DecisionStarts(trace[d], steps[d], t);
    } else {
      RemovalHistory(steps, trace, d, k - 1, i, t);
      StaysUnderway(trace[d], trace[k - 1], steps[k - 1], t);
      SameJob(trace[d], trace[k], t);
      SpareStaysTopmost(steps, trace, d, k - 1, t);
      LevelsStayUnlinked(steps, trace, d, k - 1, t);
    }
  }

  /** When t's removal of the registered element e ends, no entry point is registered if and only if
      e had no neighbour at any level when that level was unlinked, and every level was; otherwise
      the new entry point is a neighbour e lost at the topmost level at which it had one. */
  lemma ReplacementIsTopmost(steps: seq<Step>, trace: seq<State>, d: nat, i: nat, t: Tid)
    requires Removal(steps, trace, d, i, t)
    requires t in trace[i].threads && trace[i].threads[t].renew
    ensures trace[i + 1].entry.None? <==> LostNothing(steps, trace, d, i, t)
    ensures trace[i + 1].entry.Some? ==> IsTopmostLoss(steps, trace, d, i, t, trace[i + 1].entry.value)
    ensures var e := trace[i].threads[t].job.elem;
            && e in trace[i].elems
            && forall l: Level :: l <= trace[i].elems[e].top ==> LevelUnlinked(steps, trace, d, i, t, l)
  {
    hide Enabled, Apply, Underway, LockInv, LostNothing, LevelUnlinked, Since, Lost, UnlinksFor;
    SinceDecision(steps, trace, d, i, t);
    SinceUnderway(trace[d], trace[i], t);
    SameJob(trace[d], trace[i], t);
    RemovalHistory(steps, trace, d, i, i, t);
    RunKeepsLocks(steps, trace, i);
    EndsWithSpare(trace[i], t);
    if LostNothing(steps, trace, d, i, t) && trace[i].threads[t].spare.Some? {
      LossIsLoss(steps, trace, d, i, t, trace[i].threads[t].spare.value);
    }
  }

  lemma LossIsLoss(steps: seq<Step>, trace: seq<State>, d: nat, i: nat, t: Tid, r: Rec)
    requires i <= |steps| <= |trace| && IsTopmostLoss(steps, trace, d, i, t, r)
    ensures !LostNothing(steps, trace, d, i, t)
  {
    hide Lost, UnlinksFor;
  }

  lemma EndsWithSpare(s: State, t: Tid)
    requires Enabled(s, FinishRemove(t)) && s.threads[t].renew && LockInv(s)
    ensures Apply(s, FinishRemove(t)).entry == s.threads[t].spare
    ensures s.elems[s.threads[t].job.elem].life.Removing? && s.elems[s.threads[t].job.elem].life.low == 0
  {
    hide LocksOk, ElemsOk, PhasesOk;
    PhaseAt(s, t);
  }

  // ------------------------------------------------------------------------------------------
  // Runs whose replacements stand at their own top level.

  predicate RegistersTop(s: State, step: Step) {
    step.FinishRemove? && step.t in s.threads && s.threads[step.t].renew && s.threads[step.t].spare.Some? ==>
      var r := s.threads[step.t].spare.value;
      r.elem in s.elems ==> r.level == s.elems[r.elem].top
  }

  /** The registered entry point is the top record of an element that is not being inserted. */
  predicate EntryAtTop(s: State) {
    s.entry.Some? ==> RegisteredAtTop(s, s.entry.value.elem)
  }

  lemma TopIsRecognised(s: State, step: Step)
    requires EntryAtTop(s)
    ensures Recognises(s, step)
  {
  }

  lemma StepKeepsTop(s: State, step: Step)
    requires Enabled(s, step) && RegistersTop(s, step) && EntryAtTop(s) && Inv(s)
    ensures EntryAtTop(Apply(s, step))
  {
    hide LocksOk, ThreadsOk, ElemsOk, EdgesOk, KnownOk, CouplingOk, SparesOk, LevelAvailable, OpAvailable,
         GraphAvailable, Neighbourhood;
    ThreadAt(s, step.t);
    if step.FinishRemove? && s.threads[step.t].renew && s.threads[step.t].spare.Some? {
      SpareAt(s, step.t);
    }
  }

  /** If every replacement is registered at its own top level, every remover recognises the entry
      point, and the entry point is always the top record of a present element. */
  lemma {:induction false} EntryStaysAtTop(steps: seq<Step>, trace: seq<State>, k: nat)
    requires Run(steps, trace) && k <= |steps| && forall i :: 0 <= i < k ==> RegistersTop(trace[i], steps[i])
    ensures Recognised(steps, trace, k) && EntryAtTop(trace[k])
  {
    hide Inv, Enabled, Apply, Recognises, RegistersTop, EntryAtTop;
    if k == 0 {
      StartsAtTop(trace[0]);
    } else {
      EntryStaysAtTop(steps, trace, k - 1);
      TopIsRecognised(trace[k - 1], steps[k - 1]);
      RunKeepsInv(steps, trace, k - 1);
      StepKeepsTop(trace[k - 1], steps[k - 1]);
    }
  }

  lemma StartsAtTop(s: State)
    requires Initial(s)
    ensures EntryAtTop(s)
  {
  }

  /** Then it leads through existing records down to level 0, unless its remover has the graph to itself. */
  lemma EntryIsRegisteredAtTop(steps: seq<Step>, trace: seq<State>, k: nat)
    requires Run(steps, trace) && k <= |steps| && forall i :: 0 <= i < k ==> RegistersTop(trace[i], steps[i])
    requires trace[k].entry.Some?
    ensures RegisteredAtTop(trace[k], trace[k].entry.value.elem)
    ensures ChainDown(trace[k], trace[k].entry.value) || EntryRemoverAlone(trace[k])
  {
    hide Run, RegistersTop, ChainDown;
    EntryStaysAtTop(steps, trace, k);
    LinkedReachesBottom(steps, trace, k);
  }

  // ------------------------------------------------------------------------------------------
  // Every removal has a decision.

  predicate Acting(s: State, t: Tid) {
    && t in s.threads
    && var pc := s.threads[t].pc;
    pc.Ready? || pc.Walking? || pc.Linking? || pc.Between? || pc.Dropping?
  }

  lemma ActsAfterDeciding(s: State, step: Step, t: Tid)
    requires Enabled(s, step) && Acting(Apply(s, step), t) && !Decides(step, t)
    ensures Acting(s, t) && step != FinishRemove(t)
  {
    hide LevelAvailable, OpAvailable, GraphAvailable, Neighbourhood;
  }

  lemma {:induction false} ActingDecided(steps: seq<Step>, trace: seq<State>, k: nat, t: Tid)
    requires Run(steps, trace) && k < |trace| && Acting(trace[k], t)
    ensures exists d: nat :: d < k && Decides(steps[d], t) && OneJob(steps, d, k, t)
  {
    hide Enabled, Apply, Acting;
    if k == 0 {
      RestedActsNot(trace[0], t);
    } else if Decides(steps[k - 1], t) {
      assert OneJob(steps, k - 1, k, t);
    } else {
      ActsAfterDeciding(trace[k - 1], steps[k - 1], t);
      ActingDecided(steps, trace, k - 1, t);
      var d: nat :| d < k - 1 && Decides(steps[d], t) && OneJob(steps, d, k - 1, t);
      assert OneJob(steps, d, k, t);
    }
  }

  lemma RestedActsNot(s: State, t: Tid)
    requires Initial(s)
    ensures !Acting(s, t)
  {
  }

  lemma RemovalHasDecision(steps: seq<Step>, trace: seq<State>, i: nat, t: Tid)
    requires Run(steps, trace) && i < |steps| && steps[i] == FinishRemove(t)
    ensures exists d: nat :: Removal(steps, trace, d, i, t)
  {
    hide Apply;
    ActingDecided(steps, trace, i, t);
    var d: nat :| d < i && Decides(steps[d], t) && OneJob(steps, d, i, t);
    assert Removal(steps, trace, d, i, t);
  }
}
