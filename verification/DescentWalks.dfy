/** What a job does between its decision on the entry point and the end of its descent, in every
    run: the levels it visits, and what an insertion leaves behind. */
module DescentWalks {
  import opened Wrappers
  import opened Descent
  import opened DescentLocks
  import opened DescentRuns
  import opened DescentSteps
  import opened DescentEntry

  predicate Descending(th: Thread) {
    th.pc.Ready? || th.pc.Walking? || th.pc.Linking?
  }

  /** Since it decided in s0, t is on its way down with the same job, and nothing it decided on has
      changed. */
  predicate OnTheWay(s0: State, s: State, t: Tid) {
    && t in s0.threads && t in s.threads
    && var th := s.threads[t];
    && th.job == s0.threads[t].job && th.renew == MustRenew(s0, th.job)
    && s.entry == s0.entry && FirstLevel(s, th.job) == FirstLevel(s0, th.job)
    && (th.pc.Walking? ==> th.cur <= FirstLevel(s0, th.job) && (th.job.Search? ==> s0.entry.Some?))
    && (th.pc.Linking? ==> th.cur == 0)
  }

  /** The levels from here up to the first have been visited. */
  function Lowest(s: State, t: Tid): (l: nat)
    requires t in s.threads
  {
    var th := s.threads[t];
    if th.pc.Ready? then FirstLevel(s, th.job) + 1 else th.cur
  }

  lemma DecidesOnWay(s: State, step: Step, t: Tid)
    requires Enabled(s, step) && Decides(step, t) && LockInv(s)
    ensures var s' := Apply(s, step); OnTheWay(s, s', t) && s'.threads[t].pc.Ready?
  {
    hide LocksOk, ElemsOk, PhasesOk;
    PhaseAt(s, t);
  }

  /** What the first level is read from stays while other threads go on. */
  lemma OthersKeepFirst(s: State, step: Step, t: Tid)
    requires Enabled(s, step) && step.t != t && t in s.threads && Descending(s.threads[t]) && LockInv(s)
    ensures var s', job := Apply(s, step), s.threads[t].job;
            && s'.entry == s.entry && t in s'.threads && s'.threads[t] == s.threads[t]
            && FirstLevel(s', job) == FirstLevel(s, job)
  {
    hide LocksOk, ElemsOk, PhasesOk, Enabled, Apply;
    PhaseAt(s, t);
    OthersKeepEntry(s, step, t);
    if s.threads[t].job.Remove? {
      OthersLeaveLow(s, step, t, s.threads[t].job.elem);
    }
  }

  /** How its own steps move a thread on its way down. */
  lemma OwnStepMoves(s: State, step: Step)
    requires Enabled(s, step) && Descending(s.threads[step.t]) && PhaseOk(s.threads[step.t])
    requires ProgressOk(s.elems, step.t, s.threads[step.t])
    ensures step.t in Apply(s, step).threads
    ensures var s', th, th' := Apply(s, step), s.threads[step.t], Apply(s, step).threads[step.t];
            Descending(th') ==>
              && th'.job == th.job && th'.renew == th.renew && s'.entry == s.entry
              && FirstLevel(s', th.job) == FirstLevel(s, th.job)
              && MovesDown(s, th, th')
  {
    hide LevelAvailable, OpAvailable, GraphAvailable, Neighbourhood, EntryKnown, Without, Keeps;
  }

  /** The thread stays in its phase and level, starts at the first level, goes one level down, or
      begins to link at level 0. */
  predicate MovesDown(s: State, th: Thread, th': Thread) {
    || (th'.pc == th.pc && th'.cur == th.cur)
    || (th.pc.Ready? && th'.pc.Walking? && th'.cur == FirstLevel(s, th.job) && (th.job.Search? ==> s.entry.Some?))
    || (th.pc.Walking? && th'.pc.Walking? && th'.cur == th.cur - 1)
    || (th.pc.Walking? && th'.pc.Linking? && th'.cur == th.cur == 0)
  }

  lemma OwnKeepsFirst(s0: State, s: State, step: Step)
    requires Enabled(s, step) && OnTheWay(s0, s, step.t) && Descending(s.threads[step.t]) && LockInv(s)
    ensures var s', t := Apply(s, step), step.t;
            t in s'.threads && (Descending(s'.threads[t]) ==>
              && OnTheWay(s0, s', t)
              && (Lowest(s', t) == Lowest(s, t) ||
                  (s'.threads[t].pc.Walking? && s'.threads[t].cur == Lowest(s', t) == Lowest(s, t) - 1)))
  {
    hide LocksOk, ElemsOk, PhasesOk, Enabled, Apply, PhaseOk, ProgressOk, MustRenew, FirstLevel;
    PhaseAt(s, step.t);
    OwnStepMoves(s, step);
  }

  lemma StaysOnWay(s0: State, s: State, step: Step, t: Tid)
    requires Enabled(s, step) && OnTheWay(s0, s, t) && Descending(s.threads[t]) && LockInv(s)
    ensures var s' := Apply(s, step);
            t in s'.threads && (Descending(s'.threads[t]) ==>
              && OnTheWay(s0, s', t)
              && (Lowest(s', t) == Lowest(s, t) ||
                  (s'.threads[t].pc.Walking? && s'.threads[t].cur == Lowest(s', t) == Lowest(s, t) - 1)))
  {
    hide LockInv, Enabled, Apply;
    if step.t == t {
      OwnKeepsFirst(s0, s, step);
    } else {
      OthersKeepFirst(s, step, t);
    }
  }

  lemma DescendsOnlyIfDecided(s: State, step: Step, t: Tid)
    requires Enabled(s, step) && !Decides(step, t) && t in Apply(s, step).threads &&
             Descending(Apply(s, step).threads[t])
    ensures t in s.threads && Descending(s.threads[t])
  {
    hide LevelAvailable, OpAvailable, GraphAvailable, Neighbourhood;
  }

  // ------------------------------------------------------------------------------------------
  // The levels visited.

  /** At some point after d and up to k, t holds level l locked as the lowest of its descent. */
  ghost predicate Visits(trace: seq<State>, d: nat, k: nat, t: Tid, l: Level) {
    exists j: nat :: d < j <= k && VisitsAt(trace, j, t, l)
  }

  ghost predicate VisitsAt(trace: seq<State>, j: nat, t: Tid, l: Level) {
    && j < |trace| && t in trace[j].threads
    && var th := trace[j].threads[t]; th.pc.Walking? && th.cur == l && l in th.held
  }

  ghost predicate VisitsExactly(trace: seq<State>, d: nat, k: nat, t: Tid, low: nat, high: nat) {
    forall l: Level :: low <= l <= high <==> Visits(trace, d, k, t, l)
  }

  lemma VisitsOnlyNow(trace: seq<State>, d: nat, t: Tid, high: nat)
    requires d + 1 < |trace| && t in trace[d + 1].threads && !trace[d + 1].threads[t].pc.Walking?
    ensures VisitsExactly(trace, d, d + 1, t, high + 1, high)
  {
  }

  lemma VisitsOneMore(trace: seq<State>, d: nat, k: nat, next: nat, t: Tid, l: Level)
    requires d <= k && next == k + 1
    ensures Visits(trace, d, next, t, l) <==> Visits(trace, d, k, t, l) || VisitsAt(trace, next, t, l)
  {
    hide VisitsAt;
    if j: nat :| d < j <= k && VisitsAt(trace, j, t, l) {
      assert j <= next;
    }
    if j: nat :| d < j <= next && VisitsAt(trace, j, t, l) {
      assert j == next || j <= k;
    }
  }

  /** The visited levels after one more step, on which t holds level low or none. */
  lemma VisitsNext(trace: seq<State>, d: nat, k: nat, next: nat, t: Tid, low: nat, low': nat, high: nat)
    requires d <= k && next == k + 1 && VisitsExactly(trace, d, k, t, low, high)
    requires forall l: Level :: VisitsAt(trace, next, t, l) ==> l == low' <= high
    requires low' == low || (low' == low - 1 <= high && VisitsAt(trace, next, t, low'))
    ensures VisitsExactly(trace, d, next, t, low', high)
  {
    hide VisitsAt, Visits;
    forall l: Level ensures low' <= l <= high <==> Visits(trace, d, next, t, l) {
      VisitsOneMore(trace, d, k, next, t, l);
    }
  }

  lemma VisitsWhere(s: State, trace: seq<State>, j: nat, t: Tid)
    requires j < |trace| && trace[j] == s && t in s.threads && LockInv(s)
    ensures forall l: Level :: VisitsAt(trace, j, t, l) <==> s.threads[t].pc.Walking? && s.threads[t].cur == l
  {
    hide LocksOk, ElemsOk, PhasesOk;
    PhaseAt(s, t);
  }

  lemma {:induction false} VisitedOnTheWay(steps: seq<Step>, trace: seq<State>, d: nat, k: nat, t: Tid)
    requires Run(steps, trace) && d < k < |trace| && Decides(steps[d], t)
    requires forall j :: d < j < k ==> !Decides(steps[j], t)
    requires t in trace[k].threads && Descending(trace[k].threads[t])
    ensures OnTheWay(trace[d], trace[k], t)
    ensures VisitsExactly(trace, d, k, t, Lowest(trace[k], t), FirstLevel(trace[d], trace[k].threads[t].job))
  {
    hide Enabled, Apply, LockInv, OnTheWay, VisitsExactly, VisitsAt;
    RunKeepsLocks(steps, trace, k - 1);
    RunKeepsLocks(steps, trace, k);
    if k == d + 1 {
      DecidesOnWay(trace[d], steps[d], t);
      WayHasLevel(trace[d], trace[k], t);
      VisitsOnlyNow(trace, d, t, FirstLevel(trace[d], trace[k].threads[t].job));
    } else {
      DescendsOnlyIfDecided(trace[k - 1], steps[k - 1], t);
      VisitedOnTheWay(steps, trace, d, k - 1, t);
      StaysOnWay(trace[d], trace[k - 1], steps[k - 1], t);
      WayHasLevel(trace[d], trace[k - 1], t);
      WayHasLevel(trace[d], trace[k], t);
      VisitsWhere(trace[k], trace, k, t);
      var high := FirstLevel(trace[d], trace[k].threads[t].job);
      VisitsNext(trace, d, k - 1, k, t, Lowest(trace[k - 1], t), Lowest(trace[k], t), high);
    }
  }

  lemma WayHasLevel(s0: State, s: State, t: Tid)
    requires OnTheWay(s0, s, t)
    ensures t in s0.threads && t in s.threads && s.threads[t].job == s0.threads[t].job
    ensures FirstLevel(s, s.threads[t].job) == FirstLevel(s0, s.threads[t].job)
    ensures s.threads[t].pc.Walking? ==> s.threads[t].cur <= FirstLevel(s0, s.threads[t].job)
    ensures s.threads[t].pc.Linking? ==> s.threads[t].cur == 0
  {
  }

  /** The end of a descent: of a search or a marking, of an insertion, or of the unlinking. */
  predicate EndsDescent(step: Step, t: Tid) {
    step == FinishWalk(t) || step == FinishInsert(t) || step == FinishPhase1(t)
  }

  /** Step i ends the descent on whose start thread t decided at step d. */
  ghost predicate WholeDescent(steps: seq<Step>, trace: seq<State>, d: nat, i: nat, t: Tid) {
    && Run(steps, trace) && d < i < |steps| && Decides(steps[d], t) && EndsDescent(steps[i], t)
    && forall j :: d < j < i ==> !Decides(steps[j], t)
  }

  /** The topmost level of a descent: the entry point's for a search, the higher of the entry point's
      and its own for an insertion, and its own for a removal or a marking. */
  ghost predicate StartsAt(s: State, job: Job, l: Level) {
    match job
    case Search => s.entry.Some? && s.entry.value.level == l
    case Insert(_, own) =>
      l >= own && (s.entry.Some? ==> l >= s.entry.value.level) &&
      (l == own || (s.entry.Some? && l == s.entry.value.level))
    case Remove(e) => e in s.elems && s.elems[e].top == l
    case Mark(_, own) => l == own
  }

  lemma EndOfDescent(s0: State, s: State, step: Step, t: Tid)
    requires Enabled(s, step) && EndsDescent(step, t)
    ensures t in s.threads && Descending(s.threads[t])
    ensures OnTheWay(s0, s, t) ==>
              if s0.threads[t].job.Search? && s0.entry.None? then Lowest(s, t) == 1 else Lowest(s, t) == 0
  {
  }

  lemma StartIsFirst(s: State, s': State, t: Tid, l: Level)
    requires OnTheWay(s, s', t) && StartsAt(s, s'.threads[t].job, l)
    ensures FirstLevel(s, s'.threads[t].job) == l
  {
  }

  lemma SearchStartsAtEntry(s: State)
    ensures s.entry.None? ==> FirstLevel(s, Search) == 0
  {
  }

  /** Every level from the topmost down to 0 is visited, and no other; a search of an empty index
      visits none. */
  lemma WalksEveryLevel(steps: seq<Step>, trace: seq<State>, d: nat, i: nat, t: Tid, top: Level)
    requires WholeDescent(steps, trace, d, i, t)
    ensures t in trace[d].threads
    ensures StartsAt(trace[d], trace[d].threads[t].job, top) ==>
              forall l: Level :: l <= top <==> Visits(trace, d, i, t, l)
    ensures trace[d].threads[t].job.Search? && trace[d].entry.None? ==>
              forall l: Level :: !Visits(trace, d, i, t, l)
  {
    hide Enabled, Apply, LockInv, OnTheWay, VisitsAt;
    EndOfDescent(trace[d], trace[i], steps[i], t);
    VisitedOnTheWay(steps, trace, d, i, t);
    WayHasLevel(trace[d], trace[i], t);
    SearchStartsAtEntry(trace[d]);
    if StartsAt(trace[d], trace[d].threads[t].job, top) {
      StartIsFirst(trace[d], trace[i], t, top);
    }
  }

  // ------------------------------------------------------------------------------------------
  // What an insertion leaves.

  /** Thread t finishes at step i an insertion on which it decided at step d. */
  ghost predicate Insertion(steps: seq<Step>, trace: seq<State>, d: nat, i: nat, t: Tid) {
    WholeDescent(steps, trace, d, i, t) && steps[i] == FinishInsert(t)
  }

  lemma FinishedInsert(s0: State, s: State, t: Tid)
    requires Enabled(s, FinishInsert(t)) && OnTheWay(s0, s, t) && LockInv(s)
    ensures t in s0.threads && s0.threads[t].job.Insert?
    ensures var s', job := Apply(s, FinishInsert(t)), s0.threads[t].job;
            && s'.entry == (if s0.entry.None? || s0.entry.value.level < job.level then Some(Rec(job.level, job.elem))
                            else s0.entry)
            && job.elem in s'.elems && s'.elems[job.elem] == Element(job.level, 0, Live)
  {
    hide LocksOk, ElemsOk, PhasesOk;
    PhaseAt(s, t);
  }

  /** An insertion of e at level l registers its top record if no entry point was registered, or one
      at a level below l, when the thread decided; otherwise the entry point stays as it was then.
      The element has a record at each level from l down to 0. */
  lemma InsertionRegisters(steps: seq<Step>, trace: seq<State>, d: nat, i: nat, t: Tid)
    requires Insertion(steps, trace, d, i, t)
    ensures t in trace[d].threads && trace[d].threads[t].job.Insert?
    ensures var e, l := trace[d].threads[t].job.elem, trace[d].threads[t].job.level;
            && (trace[d].entry.None? || trace[d].entry.value.level < l ==> trace[i + 1].entry == Some(Rec(l, e)))
            && (trace[d].entry.Some? && trace[d].entry.value.level >= l ==> trace[i + 1].entry == trace[d].entry)
            && e in trace[i + 1].elems && trace[i + 1].elems[e] == Element(l, 0, Live)
  {
    hide Enabled, Apply, LockInv, OnTheWay, VisitsExactly;
    EndOfDescent(trace[d], trace[i], steps[i], t);
    VisitedOnTheWay(steps, trace, d, i, t);
    RunKeepsLocks(steps, trace, i);
    FinishedInsert(trace[d], trace[i], t);
  }

  /** Every descent that ends has begun with a decision. */
  lemma DescentHasDecision(steps: seq<Step>, trace: seq<State>, i: nat, t: Tid)
    requires Run(steps, trace) && i < |steps| && EndsDescent(steps[i], t)
    ensures exists d: nat :: WholeDescent(steps, trace, d, i, t)
  {
    hide Enabled, Apply;
    RunSteps(steps, trace, i);
    EndOfDescent(trace[i], trace[i], steps[i], t);
    ActingDecided(steps, trace, i, t);
    var d: nat :| d < i && Decides(steps[d], t) && OneJob(steps, d, i, t);
    assert WholeDescent(steps, trace, d, i, t);
  }
}
