/** What the locks and phases of the multi-level protocol keep in every run, whatever entry point is
    registered and whatever the threads know. */
module DescentLocks {
  import opened Wrappers
  import opened Descent
  import opened DescentSteps

  ghost predicate PhasesOk(s: State) {
    forall t :: t in s.threads ==> PhaseOk(s.threads[t]) && ProgressOk(s.elems, t, s.threads[t])
  }

  ghost predicate LockInv(s: State) {
    LocksOk(s) && ElemsOk(s) && PhasesOk(s)
  }

  lemma PhaseAt(s: State, t: Tid)
    requires t in s.threads && PhasesOk(s)
    ensures PhaseOk(s.threads[t]) && ProgressOk(s.elems, t, s.threads[t])
  {
  }

  lemma PhasesAfter(s: State, t: Tid, th: Thread)
    requires t in s.threads && PhaseOk(th) && ProgressOk(s.elems, t, th) && PhasesOk(s)
    ensures PhasesOk(SetThread(s, t, th))
  {
    hide PhaseOk, ProgressOk;
  }

  /** The threads and elements are all that matters. */
  lemma SameForLocks(s: State, s': State)
    requires s'.threads == s.threads && s'.elems == s.elems && LockInv(s)
    ensures LockInv(s')
  {
    hide PhaseOk, ProgressOk;
  }

  /** A step that changes thread t only. */
  lemma ThreadLocks(s: State, t: Tid, th: Thread)
    requires t in s.threads && LocksFit(s, t, th) && PhaseOk(th) && ProgressOk(s.elems, t, th)
    requires (th.job == s.threads[t].job && !th.pc.Done?) || s.threads[t].job.Search? || s.threads[t].job.Mark? ||
             s.threads[t].pc.Done?
    requires LockInv(s)
    ensures LockInv(SetThread(s, t, th))
  {
    hide LocksOk, ElemsOk, PhasesOk, LocksFit, PhaseOk, ProgressOk, SetThread;
    LocksAfter(s, t, th);
    PhasesAfter(s, t, th);
    ElemsAfter(s, t, th);
  }

  lemma ProgressCarries(elems: map<Elem, Element>, elems': map<Elem, Element>, e: Elem, u: Tid, th: Thread)
    requires SameBut(elems, elems', e) && ProgressOk(elems, u, th)
    requires !th.pc.Done? && (th.job.Insert? || th.job.Remove?) ==> th.job.elem != e
    ensures ProgressOk(elems', u, th)
  {
  }

  /** Another thread's own element is never e when e belongs to t or to nobody. */
  lemma OthersElsewhere(s: State, e: Elem, t: Tid)
    requires PhasesOk(s) && (e in s.elems ==> s.elems[e].life.Live? || s.elems[e].life.owner == t)
    ensures NotOthers(s, e, t)
  {
    forall u | u in s.threads && u != t && !s.threads[u].pc.Done?
      ensures (s.threads[u].job.Insert? || s.threads[u].job.Remove?) ==> s.threads[u].job.elem != e
    {
      PhaseAt(s, u);
    }
  }

  /** A step that changes element e and its thread t. */
  lemma ElemLocks(s: State, elems': map<Elem, Element>, e: Elem, t: Tid, th: Thread)
    requires t in s.threads && SameBut(s.elems, elems', e)
    requires e in s.elems ==> s.elems[e].life.Live? || s.elems[e].life.owner == t
    requires LocksFit(s, t, th) && PhaseOk(th) && ProgressOk(elems', t, th)
    requires ElemsOk(SetThread(s.(elems := elems'), t, th))
    requires LockInv(s)
    ensures LockInv(SetThread(s.(elems := elems'), t, th))
  {
    hide LocksOk, ElemsOk, PhasesOk, LocksFit, PhaseOk, ProgressOk, SameBut, NotOthers;
    LocksAfter(s, t, th);
    SameThreadsSameLocks(SetThread(s, t, th), SetThread(s.(elems := elems'), t, th));
    OthersElsewhere(s, e, t);
    PhasesTo(s, elems', e, t, th);
  }

  lemma PhasesTo(s: State, elems': map<Elem, Element>, e: Elem, t: Tid, th: Thread)
    requires t in s.threads && SameBut(s.elems, elems', e) && NotOthers(s, e, t)
    requires PhaseOk(th) && ProgressOk(elems', t, th) && PhasesOk(s)
    ensures PhasesOk(SetThread(s.(elems := elems'), t, th))
  {
    hide PhaseOk;
    forall u | u in s.threads && u != t ensures ProgressOk(elems', u, s.threads[u]) {
      ProgressCarries(s.elems, elems', e, u, s.threads[u]);
    }
    hide ProgressOk;
  }

  // ------------------------------------------------------------------------------------------
  // Steps that change one thread only.

  lemma LockGraphLocks(s: State, t: Tid)
    requires Enabled(s, LockGraph(t)) && LockInv(s)
    ensures LockInv(Apply(s, LockGraph(t)))
  {
    hide LocksOk, ElemsOk, PhasesOk, LocksFit, SetThread;
    PhaseAt(s, t);
    LocksBefore(s, t);
    var th := s.threads[t];
    var th' := th.(pc := Entered, graph := Shared, known := EntryKnown(s, th.job));
    NoLevelsFit(s, t, th');
    ThreadLocks(s, t, th');
  }

  lemma UpgradeLocks(s: State, t: Tid)
    requires Enabled(s, Upgrade(t)) && LockInv(s)
    ensures LockInv(Apply(s, Upgrade(t)))
  {
    hide LocksOk, ElemsOk, PhasesOk, LocksFit, SetThread;
    PhaseAt(s, t);
    LocksBefore(s, t);
    var th := s.threads[t];
    var th' := th.(pc := Upgrading, graph := Free, known := {});
    NoLevelsFit(s, t, th');
    ThreadLocks(s, t, th');
  }

  lemma LockGraphExclusiveLocks(s: State, t: Tid)
    requires Enabled(s, LockGraphExclusive(t)) && LockInv(s)
    ensures LockInv(Apply(s, LockGraphExclusive(t)))
  {
    hide LocksOk, ElemsOk, PhasesOk, LocksFit, SetThread;
    PhaseAt(s, t);
    LocksBefore(s, t);
    var th := s.threads[t];
    var th' := th.(pc := Ready, graph := Exclusive, known := EntryKnown(s, th.job), renew := MustRenew(s, th.job));
    NoLevelsFit(s, t, th');
    ThreadLocks(s, t, th');
  }

  lemma ProceedLocks(s: State, t: Tid)
    requires Enabled(s, Proceed(t)) && LockInv(s)
    ensures LockInv(Apply(s, Proceed(t)))
  {
    hide LocksOk, ElemsOk, PhasesOk, LocksFit, SetThread;
    PhaseAt(s, t);
    LocksBefore(s, t);
    var th := s.threads[t];
    var th' := th.(pc := Ready);
    SameLocksFit(s, t, th, th');
    ThreadLocks(s, t, th');
  }

  lemma LockFirstLocks(s: State, t: Tid)
    requires Enabled(s, LockFirst(t)) && LockInv(s)
    ensures LockInv(Apply(s, LockFirst(t)))
  {
    hide LocksOk, ElemsOk, PhasesOk, LocksFit, SetThread;
    PhaseAt(s, t);
    LocksBefore(s, t);
    var th := s.threads[t];
    var th' := th.(pc := Walking, mode := if th.job.Remove? then Exclusive else Shared, held := {FirstLevel(s, th.job)},
                  cur := FirstLevel(s, th.job));
    OneLevelFits(s, t, th, th', FirstLevel(s, th.job));
    ThreadLocks(s, t, th');
  }

  lemma FollowLocks(s: State, t: Tid, edge: Edge)
    requires Enabled(s, Follow(t, edge)) && LockInv(s)
    ensures LockInv(Apply(s, Follow(t, edge)))
  {
    hide LocksOk, ElemsOk, PhasesOk, LocksFit, SetThread;
    PhaseAt(s, t);
    LocksBefore(s, t);
    var th := s.threads[t];
    var th' := th.(known := th.known + {Rec(edge.level, edge.to)});
    SameLocksFit(s, t, th, th');
    ThreadLocks(s, t, th');
  }

  lemma AdvanceLocks(s: State, t: Tid, e: Elem)
    requires Enabled(s, Advance(t, e)) && LockInv(s)
    ensures LockInv(Apply(s, Advance(t, e)))
  {
    hide LocksOk, ElemsOk, PhasesOk, LocksFit, SetThread;
    PhaseAt(s, t);
    LocksBefore(s, t);
    var th := s.threads[t];
    var th' := th.(known := th.known + {Rec(th.cur - 1, e)});
    SameLocksFit(s, t, th, th');
    ThreadLocks(s, t, th');
  }

  lemma BeginLinkingLocks(s: State, t: Tid)
    requires Enabled(s, BeginLinking(t)) && LockInv(s)
    ensures LockInv(Apply(s, BeginLinking(t)))
  {
    hide LocksOk, ElemsOk, PhasesOk, LocksFit, SetThread;
    PhaseAt(s, t);
    LocksBefore(s, t);
    var th := s.threads[t];
    var th' := th.(pc := Linking);
    QuietLocks(s, t, th, th');
    ThreadLocks(s, t, th');
  }

  lemma BeginOpLocks(s: State, t: Tid, l: Level, mode: Mode)
    requires Enabled(s, BeginOp(t, l, mode)) && LockInv(s)
    ensures LockInv(Apply(s, BeginOp(t, l, mode)))
  {
    hide LocksOk, ElemsOk, PhasesOk, LocksFit, SetThread;
    PhaseAt(s, t);
    LocksBefore(s, t);
    var th := s.threads[t];
    var th' := th.(op := Some(l), opMode := mode);
    QuietLocks(s, t, th, th');
    ThreadLocks(s, t, th');
  }

  lemma EndOpLocks(s: State, t: Tid)
    requires Enabled(s, EndOp(t)) && LockInv(s)
    ensures LockInv(Apply(s, EndOp(t)))
  {
    hide LocksOk, ElemsOk, PhasesOk, LocksFit, SetThread;
    PhaseAt(s, t);
    LocksBefore(s, t);
    var th := s.threads[t];
    var th' := th.(op := None, opMode := Free);
    QuietLocks(s, t, th, th');
    ThreadLocks(s, t, th');
  }

  lemma FinishWalkLocks(s: State, t: Tid)
    requires Enabled(s, FinishWalk(t)) && LockInv(s)
    ensures LockInv(Apply(s, FinishWalk(t)))
  {
    hide LocksOk, ElemsOk, PhasesOk, LocksFit, SetThread;
    PhaseAt(s, t);
    LocksBefore(s, t);
    var th := s.threads[t];
    var th' := Rested(th);
    NoLevelsFit(s, t, th');
    ThreadLocks(s, t, th');
  }

  lemma FinishPhase1Locks(s: State, t: Tid)
    requires Enabled(s, FinishPhase1(t)) && LockInv(s)
    ensures LockInv(Apply(s, FinishPhase1(t)))
  {
    hide LocksOk, ElemsOk, PhasesOk, LocksFit, SetThread;
    PhaseAt(s, t);
    LocksBefore(s, t);
    var th := s.threads[t];
    var th' := th.(pc := Between, held := {}, mode := Free, known := {});
    NoHeldFits(s, t, th, th');
    ThreadLocks(s, t, th');
  }

  lemma DescendLocks(s: State, t: Tid)
    requires Enabled(s, Descend(t)) && LockInv(s)
    ensures LockInv(Apply(s, Descend(t)))
  {
    hide LockInv, SetThread;
    if Keeps(s.threads[t].job, s.threads[t].cur) {
      DescendKeepingLocks(s, t);
    } else {
      DescendReleasingLocks(s, t);
    }
  }

  lemma DescendKeepingLocks(s: State, t: Tid)
    requires t in s.threads && s.threads[t].pc.Walking? && s.threads[t].cur > 0 && s.threads[t].op.None?
    requires LevelAvailable(s, t, s.threads[t].cur - 1, s.threads[t].mode)
    requires Keeps(s.threads[t].job, s.threads[t].cur)
    requires s.threads[t].job.elem in s.elems && s.elems[s.threads[t].job.elem].lo == s.threads[t].cur
    requires LockInv(s)
    ensures var th := s.threads[t]; LockInv(SetThread(s, t, th.(held := th.held + {th.cur - 1}, cur := th.cur - 1)))
  {
    hide LocksOk, ElemsOk, PhasesOk, LocksFit, SetThread;
    var th := s.threads[t];
    var th' := th.(held := th.held + {th.cur - 1}, cur := th.cur - 1);
    PhaseAt(s, t);
    LocksBefore(s, t);
    LowerLevelFits(s, t, th, th');
    ThreadLocks(s, t, th');
  }

  lemma DescendReleasingLocks(s: State, t: Tid)
    requires t in s.threads && s.threads[t].pc.Walking? && s.threads[t].cur > 0 && s.threads[t].op.None?
    requires LevelAvailable(s, t, s.threads[t].cur - 1, s.threads[t].mode)
    requires !Keeps(s.threads[t].job, s.threads[t].cur)
    requires s.threads[t].job.Remove? ==>
               s.threads[t].job.elem in s.elems && s.elems[s.threads[t].job.elem].life == Removing(t, s.threads[t].cur)
    requires LockInv(s)
    ensures var th := s.threads[t];
            LockInv(SetThread(s, t, th.(held := th.held + {th.cur - 1} - {th.cur}, cur := th.cur - 1,
                                        known := Without(th.known, th.cur))))
  {
    hide LocksOk, ElemsOk, PhasesOk, LocksFit, SetThread;
    var th := s.threads[t];
    var th' := th.(held := th.held + {th.cur - 1} - {th.cur}, cur := th.cur - 1, known := Without(th.known, th.cur));
    PhaseAt(s, t);
    LocksBefore(s, t);
    LowerLevelFits(s, t, th, th');
    assert th.cur - 1 in th'.held;
    ThreadLocks(s, t, th');
  }

  lemma RelockLocks(s: State, t: Tid)
    requires Enabled(s, Relock(t)) && LockInv(s)
    ensures LockInv(Apply(s, Relock(t)))
  {
    hide LocksOk, ElemsOk, PhasesOk, LocksFit, SetThread;
    var th := s.threads[t];
    PhaseAt(s, t);
    LocksBefore(s, t);
    if th.pc.Between? {
      var l := s.elems[th.job.elem].top;
      var th' := th.(pc := Dropping, held := {l}, mode := Shared, cur := l);
      OneLevelFits(s, t, th, th', l);
      ThreadLocks(s, t, th');
    } else {
      var th' := th.(held := th.held + {th.cur - 1}, cur := th.cur - 1);
      LowerLevelFits(s, t, th, th');
      ThreadLocks(s, t, th');
    }
  }

  // ------------------------------------------------------------------------------------------
  // Steps that change an element.

  lemma SpawnLocks(s: State, t: Tid, job: Job)
    requires Enabled(s, Spawn(t, job)) && LockInv(s)
    ensures LockInv(Apply(s, Spawn(t, job)))
  {
    hide LockInv;
    if job.Insert? {
      SpawnInsertLocks(s, t, job.elem, job.level);
    } else if job.Remove? {
      SpawnRemoveLocks(s, t, job.elem);
    } else {
      SpawnWalkLocks(s, t, job);
    }
  }

  lemma SpawnWalkLocks(s: State, t: Tid, job: Job)
    requires t in s.threads && s.threads[t].pc.Done? && (job.Search? || job.Mark?) && LockInv(s)
    ensures LockInv(SetThread(s, t, Spawned(job)))
  {
    hide LocksOk, ElemsOk, PhasesOk, LocksFit, SetThread;
    PhaseAt(s, t);
    NoLevelsFit(s, t, Spawned(job));
    ThreadLocks(s, t, Spawned(job));
  }

  lemma SpawnInsertLocks(s: State, t: Tid, e: Elem, l: Level)
    requires t in s.threads && s.threads[t].pc.Done? && e !in s.elems && LockInv(s)
    ensures LockInv(SetThread(SetElem(s, e, Element(l, l + 1, Inserting(t))), t, Spawned(Insert(e, l))))
  {
    hide LocksOk, ElemsOk, PhasesOk, LocksFit, SetThread;
    var elems' := s.elems[e := Element(l, l + 1, Inserting(t))];
    NoLevelsFit(s, t, Spawned(Insert(e, l)));
    ElemsTo(s, elems', e, t, Spawned(Insert(e, l)));
    ElemLocks(s, elems', e, t, Spawned(Insert(e, l)));
  }

  lemma SpawnRemoveLocks(s: State, t: Tid, e: Elem)
    requires t in s.threads && s.threads[t].pc.Done? && e in s.elems && s.elems[e].life.Live? && LockInv(s)
    ensures LockInv(SetThread(SetElem(s, e, s.elems[e].(life := Removing(t, s.elems[e].top + 1))), t,
                              Spawned(Remove(e))))
  {
    hide LocksOk, ElemsOk, PhasesOk, LocksFit, SetThread;
    var elems' := s.elems[e := s.elems[e].(life := Removing(t, s.elems[e].top + 1))];
    LiveIsWhole(s, e);
    NoLevelsFit(s, t, Spawned(Remove(e)));
    ElemsTo(s, elems', e, t, Spawned(Remove(e)));
    ElemLocks(s, elems', e, t, Spawned(Remove(e)));
  }

  lemma CreateRecordLocks(s: State, t: Tid)
    requires Enabled(s, CreateRecord(t)) && LockInv(s)
    ensures LockInv(Apply(s, CreateRecord(t)))
  {
    hide LockInv;
    CreateLocks(s, t, s.threads[t].job.elem);
  }

  lemma CreateLocks(s: State, t: Tid, e: Elem)
    requires t in s.threads && s.threads[t].pc.Walking? && Keeps(s.threads[t].job, s.threads[t].cur)
    requires s.threads[t].job.elem == e && e in s.elems && s.elems[e].lo == s.threads[t].cur + 1
    requires LockInv(s)
    ensures LockInv(SetThread(SetElem(s, e, s.elems[e].(lo := s.threads[t].cur)), t,
                              s.threads[t].(known := s.threads[t].known + {Rec(s.threads[t].cur, e)})))
  {
    hide LocksOk, ElemsOk, PhasesOk, LocksFit, SetThread;
    var th := s.threads[t];
    var elems' := s.elems[e := s.elems[e].(lo := th.cur)];
    var th' := th.(known := th.known + {Rec(th.cur, e)});
    PhaseAt(s, t);
    LocksBefore(s, t);
    SameLocksFit(s, t, th, th');
    ElemsTo(s, elems', e, t, th');
    ElemLocks(s, elems', e, t, th');
  }

  lemma UnlinkLocked(s: State, t: Tid, spare: Option<Elem>)
    requires Enabled(s, Unlink(t, spare)) && LockInv(s)
    ensures LockInv(Apply(s, Unlink(t, spare)))
  {
    hide LockInv, Neighbourhood;
    var th := s.threads[t];
    var e := th.job.elem;
    var spare' := if th.spare.None? && spare.Some? then Some(Rec(th.cur, spare.value)) else th.spare;
    UnlinkLocksCore(s, t, e, th.known + Neighbourhood(s, th.cur, e), spare');
    SameForLocks(SetThread(SetElem(s, e, s.elems[e].(life := Removing(t, th.cur))), t,
                           th.(known := th.known + Neighbourhood(s, th.cur, e), spare := spare')),
                 Apply(s, Unlink(t, spare)));
  }

  lemma UnlinkLocksCore(s: State, t: Tid, e: Elem, known: set<Rec>, spare: Option<Rec>)
    requires t in s.threads && s.threads[t].pc.Walking? && s.threads[t].job == Remove(e)
    requires e in s.elems && s.elems[e].life == Removing(t, s.threads[t].cur + 1)
    requires LockInv(s)
    ensures LockInv(SetThread(SetElem(s, e, s.elems[e].(life := Removing(t, s.threads[t].cur))), t,
                              s.threads[t].(known := known, spare := spare)))
  {
    hide LocksOk, ElemsOk, PhasesOk, LocksFit, SetThread;
    var th := s.threads[t];
    var elems' := s.elems[e := s.elems[e].(life := Removing(t, th.cur))];
    var th' := th.(known := known, spare := spare);
    PhaseAt(s, t);
    LocksBefore(s, t);
    SameLocksFit(s, t, th, th');
    ElemsTo(s, elems', e, t, th');
    ElemLocks(s, elems', e, t, th');
  }

  lemma FinishInsertLocks(s: State, t: Tid)
    requires Enabled(s, FinishInsert(t)) && LockInv(s)
    ensures LockInv(Apply(s, FinishInsert(t)))
  {
    hide LockInv, SetThread, SetElem;
    var e := s.threads[t].job.elem;
    FinishInsertLocked(s, t, e);
    SameForLocks(SetThread(SetElem(s, e, s.elems[e].(life := Live)), t, Rested(s.threads[t])),
                 Apply(s, FinishInsert(t)));
  }

  lemma FinishInsertLocked(s: State, t: Tid, e: Elem)
    requires t in s.threads && s.threads[t].pc.Linking? && s.threads[t].job.Insert? && s.threads[t].job.elem == e
    requires e in s.elems && LockInv(s)
    ensures LockInv(SetThread(SetElem(s, e, s.elems[e].(life := Live)), t, Rested(s.threads[t])))
  {
    hide LocksOk, ElemsOk, PhasesOk, LocksFit, SetThread;
    var th := Rested(s.threads[t]);
    var elems' := s.elems[e := s.elems[e].(life := Live)];
    PhaseAt(s, t);
    NoLevelsFit(s, t, th);
    ElemsTo(s, elems', e, t, th);
    ElemLocks(s, elems', e, t, th);
  }

  lemma DropLocks(s: State, t: Tid)
    requires Enabled(s, Drop(t)) && LockInv(s)
    ensures LockInv(Apply(s, Drop(t)))
  {
    hide LockInv;
    DropLocked(s, t, s.threads[t].job.elem);
  }

  lemma DropLocked(s: State, t: Tid, e: Elem)
    requires t in s.threads && s.threads[t].pc.Dropping? && s.threads[t].cur == 0 && s.threads[t].job == Remove(e)
    requires e in s.elems && s.elems[e].lo <= s.elems[e].top && LockInv(s)
    ensures LockInv(SetElem(s, e, s.elems[e].(lo := s.elems[e].lo + 1)))
  {
    hide LocksOk, ElemsOk, PhasesOk, LocksFit, SetThread;
    var th := s.threads[t];
    var elems' := s.elems[e := s.elems[e].(lo := s.elems[e].lo + 1)];
    PhaseAt(s, t);
    LocksBefore(s, t);
    ElemsTo(s, elems', e, t, th);
    ElemLocks(s, elems', e, t, th);
    SetThreadSame(s.(elems := elems'), t);
  }

  lemma FinishRemoveLocks(s: State, t: Tid)
    requires Enabled(s, FinishRemove(t)) && LockInv(s)
    ensures LockInv(Apply(s, FinishRemove(t)))
  {
    hide LockInv, SetThread;
    var e := s.threads[t].job.elem;
    FinishRemoveLocked(s, t, e);
    SameForLocks(SetThread(s.(elems := s.elems - {e}), t, Rested(s.threads[t])), Apply(s, FinishRemove(t)));
  }

  lemma FinishRemoveLocked(s: State, t: Tid, e: Elem)
    requires t in s.threads && s.threads[t].pc.Dropping? && s.threads[t].job == Remove(e) && e in s.elems && LockInv(s)
    ensures LockInv(SetThread(s.(elems := s.elems - {e}), t, Rested(s.threads[t])))
  {
    hide LocksOk, ElemsOk, PhasesOk, LocksFit, SetThread;
    var th := Rested(s.threads[t]);
    PhaseAt(s, t);
    NoLevelsFit(s, t, th);
    ElemsTo(s, s.elems - {e}, e, t, th);
    ElemLocks(s, s.elems - {e}, e, t, th);
  }

  lemma LinkStepLocks(s: State, step: Step)
    requires Enabled(s, step) && (step.AddEdge? || step.DeleteEdge?) && LockInv(s)
    ensures LockInv(Apply(s, step))
  {
    hide LockInv;
    SameForLocks(s, Apply(s, step));
  }

  /** Every step keeps locks, phases and elements in order. */
  lemma StepKeepsLocks(s: State, step: Step)
    requires Enabled(s, step) && LockInv(s)
    ensures LockInv(Apply(s, step))
  {
    hide *;
    match step
    case Spawn(t, job) => SpawnLocks(s, t, job);
    case LockGraph(t) => LockGraphLocks(s, t);
    case Upgrade(t) => UpgradeLocks(s, t);
    case LockGraphExclusive(t) => LockGraphExclusiveLocks(s, t);
    case Proceed(t) => ProceedLocks(s, t);
    case LockFirst(t) => LockFirstLocks(s, t);
    case Follow(t, edge) => FollowLocks(s, t, edge);
    case Advance(t, e) => AdvanceLocks(s, t, e);
    case Descend(t) => DescendLocks(s, t);
    case CreateRecord(t) => CreateRecordLocks(s, t);
    case BeginLinking(t) => BeginLinkingLocks(s, t);
    case BeginOp(t, l, mode) => BeginOpLocks(s, t, l, mode);
    case EndOp(t) => EndOpLocks(s, t);
    case AddEdge(t, edge) => LinkStepLocks(s, step);
    case DeleteEdge(t, edge) => LinkStepLocks(s, step);
    case Unlink(t, spare) => UnlinkLocked(s, t, spare);
    case FinishWalk(t) => FinishWalkLocks(s, t);
    case FinishInsert(t) => FinishInsertLocks(s, t);
    case FinishPhase1(t) => FinishPhase1Locks(s, t);
    case Relock(t) => RelockLocks(s, t);
    case Drop(t) => DropLocks(s, t);
    case FinishRemove(t) => FinishRemoveLocks(s, t);
  }
}
