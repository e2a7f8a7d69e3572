/** Every step of the multi-level protocol keeps its invariant. */
module DescentSteps {
  import opened Wrappers
  import opened Descent

  /** A remover that makes up its mind whether it takes the entry point away finds it at the top
      level of its element, if it is registered on its element at all. */
  predicate Recognises(s: State, step: Step) {
    (step.Proceed? || step.LockGraphExclusive?) && step.t in s.threads && s.threads[step.t].job.Remove? ==>
      var e := s.threads[step.t].job.elem;
      s.entry.Some? && s.entry.value.elem == e && e in s.elems ==> s.entry.value.level == s.elems[e].top
  }

  // ------------------------------------------------------------------------------------------
  // Steps that change one thread only.

  ghost predicate LocksFit(s: State, t: Tid, th: Thread) {
    && (th.graph == Exclusive ==> GraphAvailable(s, t, Exclusive))
    && (th.graph != Free ==> forall u :: u in s.threads && u != t ==> s.threads[u].graph != Exclusive)
    && (forall l :: l in th.held ==> LevelAvailable(s, t, l, th.mode))
    && (th.op.Some? ==> OpAvailable(s, t, th.op.value, th.opMode))
  }

  lemma LocksAfter(s: State, t: Tid, th: Thread)
    requires t in s.threads && LocksFit(s, t, th) && LocksOk(s)
    ensures LocksOk(SetThread(s, t, th))
  {
    hide GraphLockOk, LevelLocksOk, OpLocksOk, LocksFit, SetThread;
    GraphLockAfter(s, t, th);
    LevelLocksAfter(s, t, th);
    OpLocksAfter(s, t, th);
  }

  lemma GraphLockAfter(s: State, t: Tid, th: Thread)
    requires t in s.threads && LocksFit(s, t, th) && GraphLockOk(s)
    ensures GraphLockOk(SetThread(s, t, th))
  {
    hide LevelAvailable, OpAvailable;
  }

  lemma LevelLocksAfter(s: State, t: Tid, th: Thread)
    requires t in s.threads && LocksFit(s, t, th) && LevelLocksOk(s)
    ensures LevelLocksOk(SetThread(s, t, th))
  {
    hide GraphAvailable, OpAvailable;
  }

  lemma OpLocksAfter(s: State, t: Tid, th: Thread)
    requires t in s.threads && LocksFit(s, t, th) && OpLocksOk(s)
    ensures OpLocksOk(SetThread(s, t, th))
  {
    hide GraphAvailable, LevelAvailable;
  }

  lemma LocksBefore(s: State, t: Tid)
    requires t in s.threads && LocksOk(s)
    ensures LocksFit(s, t, s.threads[t])
  {
  }

  ghost predicate KnowledgeFits(s: State, t: Tid, th: Thread) {
    forall r :: r in th.known ==> (Meetable(s.elems, r) || Own(s.elems, t, r)) && Coupled(s.entry, th, r)
  }

  lemma KnowledgeBefore(s: State, t: Tid)
    requires t in s.threads && KnownOk(s) && CouplingOk(s)
    ensures KnowledgeFits(s, t, s.threads[t])
  {
    hide Meetable, Own, Coupled;
  }

  lemma KnowledgeAfter(s: State, t: Tid, th: Thread)
    requires t in s.threads && KnowledgeFits(s, t, th) && KnownOk(s) && CouplingOk(s)
    ensures KnownOk(SetThread(s, t, th)) && CouplingOk(SetThread(s, t, th))
  {
  }

  lemma ThreadsAfter(s: State, t: Tid, th: Thread)
    requires t in s.threads && ThreadOk(th) && JobOk(s.elems, s.entry, t, th) && ThreadsOk(s)
    ensures ThreadsOk(SetThread(s, t, th))
  {
    hide ThreadOk, JobOk;
  }

  lemma ElemsAfter(s: State, t: Tid, th: Thread)
    requires t in s.threads && ElemsOk(s)
    requires (th.job == s.threads[t].job && !th.pc.Done?) || s.threads[t].job.Search? || s.threads[t].job.Mark? ||
             s.threads[t].pc.Done?
    ensures ElemsOk(SetThread(s, t, th))
  {
  }

  lemma EntryAfter(s: State, t: Tid, th: Thread)
    requires t in s.threads && EntryOk(s)
    requires s.threads[t].graph == Exclusive && s.threads[t].job.Remove? ==> th.graph == Exclusive
    requires ElemsOk(s)
    ensures EntryOk(SetThread(s, t, th))
  {
  }

  lemma SparesAfter(s: State, t: Tid, th: Thread)
    requires t in s.threads && SparesOk(s)
    requires th.renew && th.spare.Some? ==>
               th.spare == s.threads[t].spare && th.job == s.threads[t].job && s.threads[t].renew
    ensures SparesOk(SetThread(s, t, th))
  {
  }

  /** The invariant after a step that changes thread t to th. */
  lemma ThreadOnly(s: State, t: Tid, th: Thread)
    requires t in s.threads
    requires LocksFit(s, t, th) && ThreadOk(th) && JobOk(s.elems, s.entry, t, th) && KnowledgeFits(s, t, th)
    requires (th.job == s.threads[t].job && !th.pc.Done?) || s.threads[t].job.Search? || s.threads[t].job.Mark? ||
             s.threads[t].pc.Done?
    requires s.threads[t].graph == Exclusive && s.threads[t].job.Remove? ==> th.graph == Exclusive
    requires th.renew && th.spare.Some? ==>
               th.spare == s.threads[t].spare && th.job == s.threads[t].job && s.threads[t].renew
    requires Inv(s)
    ensures Inv(SetThread(s, t, th))
  {
    hide LocksOk, ThreadsOk, ElemsOk, EdgesOk, KnownOk, CouplingOk, EntryOk, SparesOk,
         LocksFit, ThreadOk, JobOk, KnowledgeFits, SetThread;
    LocksAfter(s, t, th);
    ThreadsAfter(s, t, th);
    ElemsAfter(s, t, th);
    EdgesUntouched(s, t, th);
    KnowledgeAfter(s, t, th);
    EntryAfter(s, t, th);
    SparesAfter(s, t, th);
  }

  lemma EdgesUntouched(s: State, t: Tid, th: Thread)
    requires EdgesOk(s)
    ensures EdgesOk(SetThread(s, t, th))
  {
  }

  lemma ThreadAt(s: State, t: Tid)
    requires t in s.threads && ThreadsOk(s)
    ensures ThreadOk(s.threads[t]) && JobOk(s.elems, s.entry, t, s.threads[t])
  {
  }

  /** The entry point can be met whenever no thread holds the graph lock exclusively. */
  lemma EntryCanBeMet(s: State, t: Tid)
    requires t in s.threads && s.entry.Some? && EntryOk(s) && s.threads[t].graph == Free
    requires forall u :: u in s.threads && u != t ==> s.threads[u].graph != Exclusive
    ensures Meetable(s.elems, s.entry.value)
  {
  }

  lemma EntersWithEntry(s: State, t: Tid, th: Thread)
    requires t in s.threads && s.threads[t].graph == Free && EntryOk(s)
    requires forall u :: u in s.threads && u != t ==> s.threads[u].graph != Exclusive
    requires th.known == EntryKnown(s, th.job) && (th.pc.Entered? || th.pc.Ready?)
    ensures KnowledgeFits(s, t, th)
  {
    if s.entry.Some? {
      EntryCanBeMet(s, t);
    }
  }

  lemma LockGraphKeeps(s: State, t: Tid)
    requires Enabled(s, LockGraph(t)) && Inv(s)
    ensures Inv(Apply(s, LockGraph(t)))
  {
    var th := s.threads[t];
    var th' := th.(pc := Entered, graph := Shared, known := EntryKnown(s, th.job));
    hide LocksOk, ThreadsOk, ElemsOk, EdgesOk, KnownOk, CouplingOk, EntryOk, SparesOk, LocksFit, KnowledgeFits,
         SetThread;
    ThreadAt(s, t);
    assert LocksFit(s, t, th') by { NoLevelsFit(s, t, th'); }
    EntersWithEntry(s, t, th');
    ThreadOnly(s, t, th');
  }

  lemma NoLevelsFit(s: State, t: Tid, th: Thread)
    requires th.held == {} && th.op.None? && (th.graph == Exclusive ==> GraphAvailable(s, t, Exclusive))
    requires th.graph != Free ==> forall u :: u in s.threads && u != t ==> s.threads[u].graph != Exclusive
    ensures LocksFit(s, t, th)
  {
  }

  lemma UpgradeKeeps(s: State, t: Tid)
    requires Enabled(s, Upgrade(t)) && Inv(s)
    ensures Inv(Apply(s, Upgrade(t)))
  {
    var th' := s.threads[t].(pc := Upgrading, graph := Free, known := {});
    hide LocksOk, ThreadsOk, ElemsOk, EdgesOk, KnownOk, CouplingOk, EntryOk, SparesOk, LocksFit, KnowledgeFits,
         SetThread;
    ThreadAt(s, t);
    NoLevelsFit(s, t, th');
    assert KnowledgeFits(s, t, th') by { NothingKnownFits(s, t, th'); }
    ThreadOnly(s, t, th');
  }

  lemma NothingKnownFits(s: State, t: Tid, th: Thread)
    requires th.known == {}
    ensures KnowledgeFits(s, t, th)
  {
  }

  lemma LockGraphExclusiveKeeps(s: State, t: Tid)
    requires Enabled(s, LockGraphExclusive(t)) && Recognises(s, LockGraphExclusive(t)) && Inv(s)
    ensures Inv(Apply(s, LockGraphExclusive(t)))
  {
    var th := s.threads[t];
    var th' := th.(pc := Ready, graph := Exclusive, known := EntryKnown(s, th.job), renew := MustRenew(s, th.job));
    hide LocksOk, ThreadsOk, ElemsOk, EdgesOk, KnownOk, CouplingOk, EntryOk, SparesOk, LocksFit, KnowledgeFits,
         SetThread;
    ThreadAt(s, t);
    assert LocksFit(s, t, th') by { NoLevelsFit(s, t, th'); }
    EntersWithEntry(s, t, th');
    ThreadOnly(s, t, th');
  }

  lemma ProceedKeeps(s: State, t: Tid)
    requires Enabled(s, Proceed(t)) && Recognises(s, Proceed(t)) && Inv(s)
    ensures Inv(Apply(s, Proceed(t)))
  {
    var th' := s.threads[t].(pc := Ready);
    hide LocksOk, ThreadsOk, ElemsOk, EdgesOk, KnownOk, CouplingOk, EntryOk, SparesOk, LocksFit, KnowledgeFits,
         SetThread;
    ThreadAt(s, t);
    LocksBefore(s, t);
    assert LocksFit(s, t, th') by { SameLocksFit(s, t, s.threads[t], th'); }
    KnowledgeBefore(s, t);
    assert KnowledgeFits(s, t, th') by { StillKnown(s, t, s.threads[t], th'); }
    ThreadOnly(s, t, th');
  }

  lemma SameLocksFit(s: State, t: Tid, th: Thread, th': Thread)
    requires LocksFit(s, t, th) && th'.graph == th.graph && th'.held <= th.held && th'.mode == th.mode
    requires th'.op == None || (th'.op == th.op && th'.opMode == th.opMode)
    ensures LocksFit(s, t, th')
  {
  }

  lemma StillKnown(s: State, t: Tid, th: Thread, th': Thread)
    requires KnowledgeFits(s, t, th) && th'.known == th.known && th'.graph == th.graph && th'.held == th.held &&
             th'.cur == th.cur
    requires th.pc.Entered? || th.pc.Ready? ==> th'.pc.Entered? || th'.pc.Ready?
    ensures KnowledgeFits(s, t, th')
  {
  }

  lemma LockFirstKeeps(s: State, t: Tid)
    requires Enabled(s, LockFirst(t)) && Inv(s)
    ensures Inv(Apply(s, LockFirst(t)))
  {
    hide Inv, SetThread, LevelAvailable;
    LockFirstCore(s, t, FirstLevel(s, s.threads[t].job));
  }

  lemma LockFirstCore(s: State, t: Tid, l: Level)
    requires t in s.threads && s.threads[t].pc.Ready? && l == FirstLevel(s, s.threads[t].job)
    requires LevelAvailable(s, t, l, if s.threads[t].job.Remove? then Exclusive else Shared)
    requires Inv(s)
    ensures var th := s.threads[t];
            Inv(SetThread(s, t, th.(pc := Walking, mode := if th.job.Remove? then Exclusive else Shared,
                                    held := {l}, cur := l)))
  {
    hide LocksOk, ThreadsOk, ElemsOk, EdgesOk, KnownOk, CouplingOk, EntryOk, SparesOk, LocksFit, KnowledgeFits,
         SetThread, LevelAvailable;
    var th := s.threads[t];
    var th' := th.(pc := Walking, mode := if th.job.Remove? then Exclusive else Shared, held := {l}, cur := l);
    ThreadAt(s, t);
    LocksBefore(s, t);
    OneLevelFits(s, t, th, th', l);
    KnowledgeBefore(s, t);
    FirstLevelCovers(s, t, th, th');
    ThreadOnly(s, t, th');
  }

  lemma OneLevelFits(s: State, t: Tid, th: Thread, th': Thread, l: Level)
    requires LocksFit(s, t, th) && th'.graph == th.graph && th'.op == None && th'.held == {l}
    requires LevelAvailable(s, t, l, th'.mode)
    ensures LocksFit(s, t, th')
  {
  }

  lemma FirstLevelCovers(s: State, t: Tid, th: Thread, th': Thread)
    requires KnowledgeFits(s, t, th) && th.pc.Ready? && th.held == {} && JobOk(s.elems, s.entry, t, th)
    requires th.job.Remove? || th.job.Mark? ==> th.known == {}
    requires th' == th.(pc := Walking, mode := if th.job.Remove? then Exclusive else Shared,
                        held := {FirstLevel(s, th.job)}, cur := FirstLevel(s, th.job))
    ensures KnowledgeFits(s, t, th')
  {
    forall r | r in th'.known ensures Coupled(s.entry, th', r) {
      assert Coupled(s.entry, th, r);
    }
  }

  lemma FollowKeeps(s: State, t: Tid, edge: Edge)
    requires Enabled(s, Follow(t, edge)) && Inv(s)
    ensures Inv(Apply(s, Follow(t, edge)))
  {
    var th := s.threads[t];
    var r := Rec(edge.level, edge.to);
    var th' := th.(known := th.known + {r});
    hide LocksOk, ThreadsOk, ElemsOk, EdgesOk, KnownOk, CouplingOk, EntryOk, SparesOk, LocksFit, KnowledgeFits,
         SetThread;
    ThreadAt(s, t);
    LocksBefore(s, t);
    assert LocksFit(s, t, th') by { SameLocksFit(s, t, th, th'); }
    KnowledgeBefore(s, t);
    EdgeAt(s, edge);
    assert KnowledgeFits(s, t, th') by { LearnsHeld(s, t, th, th', r); }
    ThreadOnly(s, t, th');
  }

  lemma EdgeAt(s: State, edge: Edge)
    requires EdgesOk(s) && edge in s.edges
    ensures Meetable(s.elems, Rec(edge.level, edge.from)) && Meetable(s.elems, Rec(edge.level, edge.to))
  {
  }

  lemma LearnsHeld(s: State, t: Tid, th: Thread, th': Thread, r: Rec)
    requires KnowledgeFits(s, t, th) && th' == th.(known := th.known + {r})
    requires (Meetable(s.elems, r) || Own(s.elems, t, r)) && r.level in th.held
    ensures KnowledgeFits(s, t, th')
  {
  }

  lemma AdvanceKeeps(s: State, t: Tid, e: Elem)
    requires Enabled(s, Advance(t, e)) && Inv(s)
    ensures Inv(Apply(s, Advance(t, e)))
  {
    hide Inv, SetThread;
    AdvanceCore(s, t, e);
  }

  lemma AdvanceCore(s: State, t: Tid, e: Elem)
    requires t in s.threads && s.threads[t].pc.Walking? && s.threads[t].cur > 0
    requires Rec(s.threads[t].cur, e) in s.threads[t].known
    requires s.threads[t].job.Search? || (s.threads[t].job.Insert? && s.threads[t].job.elem != e)
    requires Inv(s)
    ensures Inv(SetThread(s, t, s.threads[t].(known := s.threads[t].known + {Rec(s.threads[t].cur - 1, e)})))
  {
    hide LocksOk, ThreadsOk, ElemsOk, EdgesOk, KnownOk, CouplingOk, EntryOk, SparesOk, LocksFit, KnowledgeFits,
         SetThread, Meetable, Own;
    var th := s.threads[t];
    var th' := th.(known := th.known + {Rec(th.cur - 1, e)});
    ThreadAt(s, t);
    LocksBefore(s, t);
    SameLocksFit(s, t, th, th');
    KnowledgeBefore(s, t);
    OthersAreMet(s, t, Rec(th.cur, e));
    LearnsBelow(s, t, th, th', e);
    ThreadOnly(s, t, th');
  }

  /** Apart from its own new records, everything a thread holds can be met. */
  lemma OthersAreMet(s: State, t: Tid, r: Rec)
    requires t in s.threads && KnownOk(s) && ElemsOk(s) && r in s.threads[t].known
    requires s.threads[t].job.Insert? ==> s.threads[t].job.elem != r.elem
    ensures Meetable(s.elems, r)
  {
  }

  lemma LearnsBelow(s: State, t: Tid, th: Thread, th': Thread, e: Elem)
    requires KnowledgeFits(s, t, th) && th.cur > 0 && th.cur in th.held && Rec(th.cur, e) in th.known
    requires th' == th.(known := th.known + {Rec(th.cur - 1, e)})
    requires Meetable(s.elems, Rec(th.cur, e))
    ensures KnowledgeFits(s, t, th')
  {
  }

  lemma DescendKeeps(s: State, t: Tid)
    requires Enabled(s, Descend(t)) && Inv(s)
    ensures Inv(Apply(s, Descend(t)))
  {
    hide Inv, SetThread;
    if Keeps(s.threads[t].job, s.threads[t].cur) {
      DescendKeeping(s, t);
    } else {
      DescendReleasing(s, t);
    }
  }

  lemma DescendKeeping(s: State, t: Tid)
    requires t in s.threads && s.threads[t].pc.Walking? && s.threads[t].cur > 0 && s.threads[t].op.None?
    requires LevelAvailable(s, t, s.threads[t].cur - 1, s.threads[t].mode)
    requires Keeps(s.threads[t].job, s.threads[t].cur)
    requires s.threads[t].job.elem in s.elems && s.elems[s.threads[t].job.elem].lo == s.threads[t].cur
    requires Inv(s)
    ensures var th := s.threads[t]; Inv(SetThread(s, t, th.(held := th.held + {th.cur - 1}, cur := th.cur - 1)))
  {
    hide LocksOk, ThreadsOk, ElemsOk, EdgesOk, KnownOk, CouplingOk, EntryOk, SparesOk, LocksFit, KnowledgeFits,
         SetThread, Meetable, Own;
    var th := s.threads[t];
    var th' := th.(held := th.held + {th.cur - 1}, cur := th.cur - 1);
    ThreadAt(s, t);
    LocksBefore(s, t);
    LowerLevelFits(s, t, th, th');
    KnowledgeBefore(s, t);
    LowerLevelCovers(s, t, th, th');
    ThreadOnly(s, t, th');
  }

  lemma LowerLevelFits(s: State, t: Tid, th: Thread, th': Thread)
    requires LocksFit(s, t, th) && th.cur > 0 && LevelAvailable(s, t, th.cur - 1, th.mode)
    requires th'.graph == th.graph && th'.mode == th.mode && th'.op == None && th'.held <= th.held + {th.cur - 1}
    ensures LocksFit(s, t, th')
  {
  }

  /** Once the lower level is locked, candidates there no longer need the level above. */
  lemma LowerLevelCovers(s: State, t: Tid, th: Thread, th': Thread)
    requires KnowledgeFits(s, t, th) && th.pc.Walking? && th.cur > 0 && th'.cur == th.cur - 1 && th'.graph == th.graph
    requires th'.known <= th.known && th.held + {th.cur - 1} - {th.cur} <= th'.held
    requires th.cur !in th'.held ==> forall r :: r in th'.known ==> r.level != th.cur
    ensures KnowledgeFits(s, t, th')
  {
    hide Meetable, Own;
    forall r | r in th'.known ensures Coupled(s.entry, th', r) {
      assert Coupled(s.entry, th, r);
    }
  }

  lemma DescendReleasing(s: State, t: Tid)
    requires t in s.threads && s.threads[t].pc.Walking? && s.threads[t].cur > 0 && s.threads[t].op.None?
    requires LevelAvailable(s, t, s.threads[t].cur - 1, s.threads[t].mode)
    requires !Keeps(s.threads[t].job, s.threads[t].cur)
    requires s.threads[t].job.Remove? ==>
               s.threads[t].job.elem in s.elems && s.elems[s.threads[t].job.elem].life == Removing(t, s.threads[t].cur)
    requires Inv(s)
    ensures var th := s.threads[t];
            Inv(SetThread(s, t, th.(held := th.held + {th.cur - 1} - {th.cur}, cur := th.cur - 1,
                                    known := Without(th.known, th.cur))))
  {
    hide LocksOk, ThreadsOk, ElemsOk, EdgesOk, KnownOk, CouplingOk, EntryOk, SparesOk, LocksFit, KnowledgeFits,
         SetThread, Meetable, Own;
    var th := s.threads[t];
    var th' := th.(held := th.held + {th.cur - 1} - {th.cur}, cur := th.cur - 1, known := Without(th.known, th.cur));
    ThreadAt(s, t);
    LocksBefore(s, t);
    LowerLevelFits(s, t, th, th');
    KnowledgeBefore(s, t);
    LowerLevelCovers(s, t, th, th');
    ReleasedThread(th);
    ReleasedJob(s, t, th);
    hide ThreadOk, JobOk;
    ThreadOnly(s, t, th');
  }

  lemma ReleasedThread(th: Thread)
    requires ThreadOk(th) && th.pc.Walking? && th.cur > 0 && th.op.None?
    ensures ThreadOk(th.(held := th.held + {th.cur - 1} - {th.cur}, cur := th.cur - 1,
                         known := Without(th.known, th.cur)))
  {
    assert th.cur - 1 in th.held + {th.cur - 1} - {th.cur};
  }

  lemma ReleasedJob(s: State, t: Tid, th: Thread)
    requires ThreadOk(th) && th.pc.Walking? && th.cur > 0 && !Keeps(th.job, th.cur)
    requires th.job.Remove? ==> th.job.elem in s.elems && s.elems[th.job.elem].life == Removing(t, th.cur)
    requires JobOk(s.elems, s.entry, t, th)
    ensures JobOk(s.elems, s.entry, t, th.(held := th.held + {th.cur - 1} - {th.cur}, cur := th.cur - 1,
                                           known := Without(th.known, th.cur)))
  {
  }

  /** Steps that change neither what the thread knows nor its levels. */
  lemma QuietThread(s: State, t: Tid, th': Thread)
    requires t in s.threads
    requires var th := s.threads[t];
             && th'.graph == th.graph && th'.held == th.held && th'.mode == th.mode && th'.cur == th.cur
             && th'.known == th.known && th'.job == th.job && th'.renew == th.renew && th'.spare == th.spare
             && !th.pc.Entered? && !th.pc.Ready? && !th'.pc.Done?
             && (th'.op == None || OpAvailable(s, t, th'.op.value, th'.opMode))
    requires ThreadOk(th') && JobOk(s.elems, s.entry, t, th')
    requires Inv(s)
    ensures Inv(SetThread(s, t, th'))
  {
    hide LocksOk, ThreadsOk, ElemsOk, EdgesOk, KnownOk, CouplingOk, EntryOk, SparesOk, LocksFit, KnowledgeFits,
         SetThread, Meetable, Own;
    hide ThreadOk, JobOk;
    LocksBefore(s, t);
    QuietLocks(s, t, s.threads[t], th');
    KnowledgeBefore(s, t);
    StillKnown(s, t, s.threads[t], th');
    ThreadOnly(s, t, th');
  }

  lemma QuietLocks(s: State, t: Tid, th: Thread, th': Thread)
    requires LocksFit(s, t, th) && th'.graph == th.graph && th'.held == th.held && th'.mode == th.mode
    requires th'.op == None || OpAvailable(s, t, th'.op.value, th'.opMode)
    ensures LocksFit(s, t, th')
  {
  }

  lemma BeginLinkingKeeps(s: State, t: Tid)
    requires Enabled(s, BeginLinking(t)) && Inv(s)
    ensures Inv(Apply(s, BeginLinking(t)))
  {
    ThreadAt(s, t);
    hide LocksOk, ThreadsOk, ElemsOk, EdgesOk, KnownOk, CouplingOk, EntryOk, SparesOk, SetThread, OpAvailable;
    QuietThread(s, t, s.threads[t].(pc := Linking));
  }

  lemma BeginOpKeeps(s: State, t: Tid, l: Level, mode: Mode)
    requires Enabled(s, BeginOp(t, l, mode)) && Inv(s)
    ensures Inv(Apply(s, BeginOp(t, l, mode)))
  {
    ThreadAt(s, t);
    hide LocksOk, ThreadsOk, ElemsOk, EdgesOk, KnownOk, CouplingOk, EntryOk, SparesOk, SetThread, OpAvailable;
    QuietThread(s, t, s.threads[t].(op := Some(l), opMode := mode));
  }

  lemma EndOpKeeps(s: State, t: Tid)
    requires Enabled(s, EndOp(t)) && Inv(s)
    ensures Inv(Apply(s, EndOp(t)))
  {
    hide Inv, SetThread;
    EndOpCore(s, t);
  }

  lemma EndOpCore(s: State, t: Tid)
    requires t in s.threads && s.threads[t].op.Some? && Inv(s)
    ensures Inv(SetThread(s, t, s.threads[t].(op := None, opMode := Free)))
  {
    ThreadAt(s, t);
    hide LocksOk, ThreadsOk, ElemsOk, EdgesOk, KnownOk, CouplingOk, EntryOk, SparesOk, SetThread, OpAvailable;
    QuietThread(s, t, s.threads[t].(op := None, opMode := Free));
  }

  lemma FinishWalkKeeps(s: State, t: Tid)
    requires Enabled(s, FinishWalk(t)) && Inv(s)
    ensures Inv(Apply(s, FinishWalk(t)))
  {
    hide LocksOk, ThreadsOk, ElemsOk, EdgesOk, KnownOk, CouplingOk, EntryOk, SparesOk, LocksFit, KnowledgeFits,
         SetThread, Meetable, Own;
    var th' := Rested(s.threads[t]);
    NoLevelsFit(s, t, th');
    NothingKnownFits(s, t, th');
    ThreadOnly(s, t, th');
  }

  lemma FinishPhase1Keeps(s: State, t: Tid)
    requires Enabled(s, FinishPhase1(t)) && Inv(s)
    ensures Inv(Apply(s, FinishPhase1(t)))
  {
    hide LocksOk, ThreadsOk, ElemsOk, EdgesOk, KnownOk, CouplingOk, EntryOk, SparesOk, LocksFit, KnowledgeFits,
         SetThread, Meetable, Own;
    var th := s.threads[t];
    var th' := th.(pc := Between, held := {}, mode := Free, known := {});
    ThreadAt(s, t);
    LocksBefore(s, t);
    NoHeldFits(s, t, th, th');
    NothingKnownFits(s, t, th');
    ThreadOnly(s, t, th');
  }

  lemma NoHeldFits(s: State, t: Tid, th: Thread, th': Thread)
    requires LocksFit(s, t, th) && th'.graph == th.graph && th'.held == {} && th'.op == None
    ensures LocksFit(s, t, th')
  {
  }

  lemma RelockKeeps(s: State, t: Tid)
    requires Enabled(s, Relock(t)) && Inv(s)
    ensures Inv(Apply(s, Relock(t)))
  {
    hide LocksOk, ThreadsOk, ElemsOk, EdgesOk, KnownOk, CouplingOk, EntryOk, SparesOk, LocksFit, KnowledgeFits,
         SetThread, Meetable, Own;
    var th := s.threads[t];
    ThreadAt(s, t);
    LocksBefore(s, t);
    if th.pc.Between? {
      var l := s.elems[th.job.elem].top;
      var th' := th.(pc := Dropping, held := {l}, mode := Shared, cur := l);
      OneLevelFits(s, t, th, th', l);
      NothingKnownFits(s, t, th');
      ThreadOnly(s, t, th');
    } else {
      var th' := th.(held := th.held + {th.cur - 1}, cur := th.cur - 1);
      LowerLevelFits(s, t, th, th');
      NothingKnownFits(s, t, th');
      ThreadOnly(s, t, th');
    }
  }

  // ------------------------------------------------------------------------------------------
  // Steps that add or delete a link.

  lemma AddEdgeKeeps(s: State, t: Tid, edge: Edge)
    requires Enabled(s, AddEdge(t, edge)) && Inv(s)
    ensures Inv(Apply(s, AddEdge(t, edge)))
  {
    hide Inv;
    AddEdgeCore(s, t, edge);
  }

  lemma AddEdgeCore(s: State, t: Tid, edge: Edge)
    requires t in s.threads && s.threads[t].op.Some?
    requires Rec(edge.level, edge.from) in s.threads[t].known && Rec(edge.level, edge.to) in s.threads[t].known
    requires Inv(s)
    ensures Inv(s.(edges := s.edges + {edge}))
  {
    hide LocksOk, ThreadsOk, ElemsOk, EdgesOk, KnownOk, CouplingOk, EntryOk, SparesOk;
    KnownUnderOp(s, t, Rec(edge.level, edge.from));
    KnownUnderOp(s, t, Rec(edge.level, edge.to));
    EdgeJoins(s, edge);
    EdgesApart(s, s.edges + {edge});
  }

  lemma EdgeJoins(s: State, edge: Edge)
    requires Meetable(s.elems, Rec(edge.level, edge.from)) && Meetable(s.elems, Rec(edge.level, edge.to)) && EdgesOk(s)
    ensures EdgesOk(s.(edges := s.edges + {edge}))
  {
    hide Meetable;
  }

  /** Nothing but the links themselves depends on the links. */
  lemma EdgesApart(s: State, edges: set<Edge>)
    ensures var s' := s.(edges := edges);
            && (LocksOk(s) ==> LocksOk(s')) && (ThreadsOk(s) ==> ThreadsOk(s')) && (ElemsOk(s) ==> ElemsOk(s'))
            && (KnownOk(s) ==> KnownOk(s')) && (CouplingOk(s) ==> CouplingOk(s')) && (EntryOk(s) ==> EntryOk(s'))
            && (SparesOk(s) ==> SparesOk(s'))
  {
    hide Meetable, JobOk, ThreadOk, Coupled, Own;
  }

  /** While a thread may link, everything it holds can be met, its own records included. */
  lemma KnownUnderOp(s: State, t: Tid, r: Rec)
    requires t in s.threads && s.threads[t].op.Some? && r in s.threads[t].known
    requires ThreadsOk(s) && KnownOk(s) && ElemsOk(s)
    ensures Meetable(s.elems, r)
  {
    ThreadAt(s, t);
  }

  lemma DeleteEdgeKeeps(s: State, t: Tid, edge: Edge)
    requires Enabled(s, DeleteEdge(t, edge)) && Inv(s)
    ensures Inv(Apply(s, DeleteEdge(t, edge)))
  {
    hide Meetable, JobOk, ThreadOk;
  }

  // ------------------------------------------------------------------------------------------
  // Steps that change one element, its thread with it.

  ghost predicate SameBut(elems: map<Elem, Element>, elems': map<Elem, Element>, e: Elem) {
    forall x :: x != e ==> (x in elems <==> x in elems') && (x in elems ==> elems[x] == elems'[x])
  }

  /** Nothing that could be met of e is lost. */
  ghost predicate MeetKept(elems: map<Elem, Element>, elems': map<Elem, Element>, e: Elem) {
    forall r: Rec :: r.elem == e && Meetable(elems, r) ==> Meetable(elems', r)
  }

  lemma MeetCarries(elems: map<Elem, Element>, elems': map<Elem, Element>, e: Elem, r: Rec)
    requires SameBut(elems, elems', e) && MeetKept(elems, elems', e) && Meetable(elems, r)
    ensures Meetable(elems', r)
  {
  }

  lemma EdgesTo(s: State, elems': map<Elem, Element>, e: Elem)
    requires EdgesOk(s) && SameBut(s.elems, elems', e) && MeetKept(s.elems, elems', e)
    ensures EdgesOk(s.(elems := elems'))
  {
    hide Meetable, SameBut, MeetKept;
    forall x | x in s.edges ensures Meetable(elems', Rec(x.level, x.from)) && Meetable(elems', Rec(x.level, x.to)) {
      MeetCarries(s.elems, elems', e, Rec(x.level, x.from));
      MeetCarries(s.elems, elems', e, Rec(x.level, x.to));
    }
  }

  /** e, as far as it is being inserted, is being inserted by t. */
  ghost predicate OwnedBy(elems: map<Elem, Element>, e: Elem, t: Tid) {
    e in elems && elems[e].life.Inserting? ==> elems[e].life.owner == t
  }

  lemma KnownTo(s: State, elems': map<Elem, Element>, e: Elem, t: Tid, th: Thread)
    requires t in s.threads && KnownOk(s) && CouplingOk(s)
    requires SameBut(s.elems, elems', e) && MeetKept(s.elems, elems', e) && OwnedBy(s.elems, e, t)
    requires KnowledgeFits(s.(elems := elems'), t, th)
    ensures KnownOk(SetThread(s.(elems := elems'), t, th)) && CouplingOk(SetThread(s.(elems := elems'), t, th))
  {
    hide Meetable, MeetKept, Coupled;
    forall u, r | u in s.threads && u != t && r in s.threads[u].known ensures Meetable(elems', r) || Own(elems', u, r) {
      assert Meetable(s.elems, r) || Own(s.elems, u, r);
      if Meetable(s.elems, r) {
        MeetCarries(s.elems, elems', e, r);
      }
    }
  }

  /** No other thread has e as its own. */
  ghost predicate NotOthers(s: State, e: Elem, t: Tid) {
    forall u :: u in s.threads && u != t && !s.threads[u].pc.Done? ==>
      (s.threads[u].job.Insert? || s.threads[u].job.Remove?) ==> s.threads[u].job.elem != e
  }

  lemma ThreadsTo(s: State, elems': map<Elem, Element>, e: Elem, t: Tid, th: Thread)
    requires t in s.threads && SameBut(s.elems, elems', e) && NotOthers(s, e, t)
    requires ThreadOk(th) && JobOk(elems', s.entry, t, th) && ThreadsOk(s)
    ensures ThreadsOk(SetThread(s.(elems := elems'), t, th))
  {
    hide ThreadOk;
    forall u | u in s.threads && u != t ensures JobOk(elems', s.entry, u, s.threads[u]) {
      JobCarries(s.elems, elems', s.entry, e, u, s.threads[u]);
    }
    hide JobOk;
  }

  lemma JobCarries(elems: map<Elem, Element>, elems': map<Elem, Element>, entry: Option<Rec>, e: Elem, u: Tid,
                   th: Thread)
    requires SameBut(elems, elems', e) && JobOk(elems, entry, u, th)
    requires !th.pc.Done? && (th.job.Insert? || th.job.Remove?) ==> th.job.elem != e
    ensures JobOk(elems', entry, u, th)
  {
  }

  /** Another thread's own element is never e when e belongs to t or to nobody. */
  lemma OwnersDiffer(s: State, e: Elem, t: Tid)
    requires ThreadsOk(s) && (e in s.elems ==> s.elems[e].life.Live? || s.elems[e].life.owner == t)
    ensures NotOthers(s, e, t)
  {
    forall u | u in s.threads && u != t && !s.threads[u].pc.Done?
      ensures (s.threads[u].job.Insert? || s.threads[u].job.Remove?) ==> s.threads[u].job.elem != e
    {
      ThreadAt(s, u);
    }
  }

  lemma ElemsTo(s: State, elems': map<Elem, Element>, e: Elem, t: Tid, th: Thread)
    requires t in s.threads && SameBut(s.elems, elems', e) && ElemsOk(s)
    requires e in elems' ==>
               match elems'[e].life
               case Live => elems'[e].lo == 0
               case Inserting(o) => o == t && !th.pc.Done? && th.job == Insert(e, elems'[e].top)
               case Removing(o, _) => o == t && !th.pc.Done? && th.job == Remove(e)
    requires s.threads[t].pc.Done? || s.threads[t].job == Remove(e) ||
             (s.threads[t].job.Insert? && s.threads[t].job.elem == e)
    ensures ElemsOk(SetThread(s.(elems := elems'), t, th))
  {
  }

  /** The invariant after a step that changes element e and thread t. */
  lemma ElemAndThread(s: State, elems': map<Elem, Element>, e: Elem, t: Tid, th: Thread)
    requires t in s.threads
    requires SameBut(s.elems, elems', e) && MeetKept(s.elems, elems', e) && OwnedBy(s.elems, e, t) && NotOthers(s, e, t)
    requires LocksFit(s, t, th) && ThreadOk(th) && JobOk(elems', s.entry, t, th) &&
             KnowledgeFits(s.(elems := elems'), t, th)
    requires ElemsOk(SetThread(s.(elems := elems'), t, th))
    requires EntryOk(SetThread(s.(elems := elems'), t, th))
    requires SparesOk(SetThread(s.(elems := elems'), t, th))
    requires Inv(s)
    ensures Inv(SetThread(s.(elems := elems'), t, th))
  {
    hide LocksOk, ThreadsOk, ElemsOk, EdgesOk, KnownOk, CouplingOk, EntryOk, SparesOk,
         LocksFit, ThreadOk, JobOk, KnowledgeFits, SameBut, MeetKept, OwnedBy, NotOthers;
    var s1 := s.(elems := elems');
    LocksAfter(s, t, th);
    SameThreadsSameLocks(SetThread(s, t, th), SetThread(s1, t, th));
    ThreadsTo(s, elems', e, t, th);
    EdgesTo(s, elems', e);
    EdgesUntouched(s1, t, th);
    KnownTo(s, elems', e, t, th);
  }

  lemma SameThreadsSameLocks(s: State, s': State)
    requires s.threads == s'.threads && LocksOk(s)
    ensures LocksOk(s')
  {
  }

  lemma CreateRecordKeeps(s: State, t: Tid)
    requires Enabled(s, CreateRecord(t)) && Inv(s)
    ensures Inv(Apply(s, CreateRecord(t)))
  {
    hide Inv;
    var th := s.threads[t];
    CreateCore(s, t, th.job.elem);
  }

  lemma CreateCore(s: State, t: Tid, e: Elem)
    requires t in s.threads && s.threads[t].pc.Walking? && Keeps(s.threads[t].job, s.threads[t].cur)
    requires s.threads[t].job.elem == e && e in s.elems && s.elems[e].lo == s.threads[t].cur + 1
    requires Inv(s)
    ensures Inv(SetThread(SetElem(s, e, s.elems[e].(lo := s.threads[t].cur)), t,
                          s.threads[t].(known := s.threads[t].known + {Rec(s.threads[t].cur, e)})))
  {
    hide LocksOk, ThreadsOk, ElemsOk, EdgesOk, KnownOk, CouplingOk, EntryOk, SparesOk, LocksFit, KnowledgeFits,
         SetThread, Meetable, Own;
    var th := s.threads[t];
    var elems' := s.elems[e := s.elems[e].(lo := th.cur)];
    var th' := th.(known := th.known + {Rec(th.cur, e)});
    ThreadAt(s, t);
    OwnersDiffer(s, e, t);
    LocksBefore(s, t);
    SameLocksFit(s, t, th, th');
    KnowledgeBefore(s, t);
    CreateKnowledge(s, t, e, th');
    CreateRest(s, t, e, th');
    ElemAndThread(s, elems', e, t, th');
  }

  lemma CreateKnowledge(s: State, t: Tid, e: Elem, th': Thread)
    requires t in s.threads && e in s.elems && s.elems[e].life == Inserting(t)
    requires var th := s.threads[t];
             && th' == th.(known := th.known + {Rec(th.cur, e)}) && th.cur in th.held
             && s.elems[e].lo == th.cur + 1 && th.cur <= s.elems[e].top
    requires KnowledgeFits(s, t, s.threads[t])
    ensures var elems' := s.elems[e := s.elems[e].(lo := th'.cur)];
            && KnowledgeFits(s.(elems := elems'), t, th') && SameBut(s.elems, elems', e) && MeetKept(s.elems, elems', e)
  {
    var th := s.threads[t];
    var elems' := s.elems[e := s.elems[e].(lo := th.cur)];
    forall r | r in th'.known ensures (Meetable(elems', r) || Own(elems', t, r)) && Coupled(s.entry, th', r) {
      if r in th.known {
        assert Coupled(s.entry, th, r);
      }
    }
  }

  lemma CreateRest(s: State, t: Tid, e: Elem, th': Thread)
    requires t in s.threads && e in s.elems && s.elems[e].life == Inserting(t) && s.elems[e].lo == s.threads[t].cur + 1
    requires var th := s.threads[t];
             th' == th.(known := th.known + {Rec(th.cur, e)}) && th.pc.Walking? && th.job.Insert? && th.job.elem == e
    requires ElemsOk(s) && EntryOk(s) && SparesOk(s)
    ensures var s' := SetThread(s.(elems := s.elems[e := s.elems[e].(lo := th'.cur)]), t, th');
            ElemsOk(s') && EntryOk(s') && SparesOk(s')
  {
  }

  function Spawned(job: Job): (th: Thread) {
    Thread(job, Start, Free, Free, {}, 0, {}, false, None, None, Free)
  }

  lemma SpawnKeeps(s: State, t: Tid, job: Job)
    requires Enabled(s, Spawn(t, job)) && Inv(s)
    ensures Inv(Apply(s, Spawn(t, job)))
  {
    hide Inv;
    if job.Insert? {
      SpawnInsert(s, t, job.elem, job.level);
    } else if job.Remove? {
      SpawnRemove(s, t, job.elem);
    } else {
      SpawnWalk(s, t, job);
    }
  }

  lemma SpawnWalk(s: State, t: Tid, job: Job)
    requires t in s.threads && s.threads[t].pc.Done? && (job.Search? || job.Mark?) && Inv(s)
    ensures Inv(SetThread(s, t, Spawned(job)))
  {
    hide LocksOk, ThreadsOk, ElemsOk, EdgesOk, KnownOk, CouplingOk, EntryOk, SparesOk, LocksFit, KnowledgeFits,
         SetThread, Meetable, Own;
    ThreadAt(s, t);
    NoLevelsFit(s, t, Spawned(job));
    NothingKnownFits(s, t, Spawned(job));
    ThreadOnly(s, t, Spawned(job));
  }

  lemma SpawnInsert(s: State, t: Tid, e: Elem, l: Level)
    requires t in s.threads && s.threads[t].pc.Done? && e !in s.elems && Inv(s)
    ensures Inv(SetThread(SetElem(s, e, Element(l, l + 1, Inserting(t))), t, Spawned(Insert(e, l))))
  {
    hide LocksOk, ThreadsOk, ElemsOk, EdgesOk, KnownOk, CouplingOk, EntryOk, SparesOk, LocksFit, KnowledgeFits,
         SetThread, Meetable, Own;
    var elems' := s.elems[e := Element(l, l + 1, Inserting(t))];
    var th := Spawned(Insert(e, l));
    OwnersDiffer(s, e, t);
    NoLevelsFit(s, t, th);
    NothingKnownFits(s.(elems := elems'), t, th);
    SpawnMeet(s.elems, elems', e);
    ElemsTo(s, elems', e, t, th);
    SpawnInsertRest(s, t, e, l);
    ElemAndThread(s, elems', e, t, th);
  }

  lemma SpawnMeet(elems: map<Elem, Element>, elems': map<Elem, Element>, e: Elem)
    requires e in elems' && elems' == elems[e := elems'[e]]
    requires e in elems ==> elems[e].life.Live? && elems'[e].top == elems[e].top && elems'[e].lo == elems[e].lo
    requires e in elems ==> elems'[e].life.Removing? && elems'[e].life.low == elems[e].top + 1
    ensures SameBut(elems, elems', e) && MeetKept(elems, elems', e)
  {
  }

  lemma SpawnInsertRest(s: State, t: Tid, e: Elem, l: Level)
    requires t in s.threads && s.threads[t].pc.Done? && e !in s.elems && ThreadsOk(s) && EntryOk(s) && SparesOk(s)
    ensures var s' := SetThread(s.(elems := s.elems[e := Element(l, l + 1, Inserting(t))]), t, Spawned(Insert(e, l)));
            EntryOk(s') && SparesOk(s')
  {
    ThreadAt(s, t);
  }

  lemma SpawnRemove(s: State, t: Tid, e: Elem)
    requires t in s.threads && s.threads[t].pc.Done? && e in s.elems && s.elems[e].life.Live? && Inv(s)
    ensures Inv(SetThread(SetElem(s, e, s.elems[e].(life := Removing(t, s.elems[e].top + 1))), t, Spawned(Remove(e))))
  {
    hide LocksOk, ThreadsOk, ElemsOk, EdgesOk, KnownOk, CouplingOk, EntryOk, SparesOk, LocksFit, KnowledgeFits,
         SetThread, Meetable, Own;
    var elems' := s.elems[e := s.elems[e].(life := Removing(t, s.elems[e].top + 1))];
    var th := Spawned(Remove(e));
    OwnersDiffer(s, e, t);
    NoLevelsFit(s, t, th);
    NothingKnownFits(s.(elems := elems'), t, th);
    SpawnMeet(s.elems, elems', e);
    ElemsTo(s, elems', e, t, th);
    SpawnRemoveRest(s, t, e);
    LiveIsWhole(s, e);
    ElemAndThread(s, elems', e, t, th);
  }

  lemma LiveIsWhole(s: State, e: Elem)
    requires e in s.elems && s.elems[e].life.Live? && ElemsOk(s)
    ensures s.elems[e].lo == 0
  {
  }

  lemma SpawnRemoveRest(s: State, t: Tid, e: Elem)
    requires t in s.threads && s.threads[t].pc.Done? && e in s.elems && s.elems[e].life.Live?
    requires ThreadsOk(s) && EntryOk(s) && SparesOk(s)
    ensures var s' := SetThread(s.(elems := s.elems[e := s.elems[e].(life := Removing(t, s.elems[e].top + 1))]), t,
                                Spawned(Remove(e)));
            EntryOk(s') && SparesOk(s')
  {
    ThreadAt(s, t);
  }

  lemma DropKeeps(s: State, t: Tid)
    requires Enabled(s, Drop(t)) && Inv(s)
    ensures Inv(Apply(s, Drop(t)))
  {
    hide Inv;
    DropCore(s, t, s.threads[t].job.elem);
  }

  lemma DropCore(s: State, t: Tid, e: Elem)
    requires t in s.threads && s.threads[t].pc.Dropping? && s.threads[t].cur == 0 && s.threads[t].job == Remove(e)
    requires e in s.elems && s.elems[e].lo <= s.elems[e].top && Inv(s)
    ensures Inv(SetElem(s, e, s.elems[e].(lo := s.elems[e].lo + 1)))
  {
    hide LocksOk, ThreadsOk, ElemsOk, EdgesOk, KnownOk, CouplingOk, EntryOk, SparesOk, LocksFit, KnowledgeFits,
         SetThread, Meetable, Own;
    var th := s.threads[t];
    var elems' := s.elems[e := s.elems[e].(lo := s.elems[e].lo + 1)];
    ThreadAt(s, t);
    OwnersDiffer(s, e, t);
    LocksBefore(s, t);
    NothingKnownFits(s.(elems := elems'), t, th);
    UnlinkedCannotBeMet(s.elems, elems', e);
    ElemsTo(s, elems', e, t, th);
    DropRest(s, t, e);
    ElemAndThread(s, elems', e, t, th);
    assert s.threads[t := th] == s.threads;
    SetThreadSame(s.(elems := elems'), t);
  }

  lemma SetThreadSame(s: State, t: Tid)
    requires t in s.threads
    ensures SetThread(s, t, s.threads[t]) == s
  {
    assert s.threads[t := s.threads[t]] == s.threads;
  }

  lemma UnlinkedCannotBeMet(elems: map<Elem, Element>, elems': map<Elem, Element>, e: Elem)
    requires e in elems && elems[e].life.Removing? && elems[e].life.low == 0
    requires elems' == elems - {e} || (e in elems' && elems' == elems[e := elems'[e]])
    ensures SameBut(elems, elems', e) && MeetKept(elems, elems', e)
  {
  }

  lemma DropRest(s: State, t: Tid, e: Elem)
    requires t in s.threads && s.threads[t].job == Remove(e) && s.threads[t].pc.Dropping?
    requires e in s.elems && s.elems[e].life == Removing(t, 0)
    requires s.entry.Some? && s.entry.value.elem == e ==> s.threads[t].graph == Exclusive
    requires EntryOk(s) && SparesOk(s)
    ensures var s' := SetThread(s.(elems := s.elems[e := s.elems[e].(lo := s.elems[e].lo + 1)]), t, s.threads[t]);
            EntryOk(s') && SparesOk(s')
  {
  }

  /** A new entry point, written while no other thread holds the graph lock. */
  lemma EntryTo(s: State, t: Tid, entry: Option<Rec>)
    requires t in s.threads && (forall u :: u in s.threads && u != t ==> s.threads[u].graph == Free)
    requires s.threads[t].known == {} && JobOk(s.elems, entry, t, s.threads[t]) && EntryOk(s.(entry := entry))
    requires Inv(s)
    ensures Inv(s.(entry := entry))
  {
    hide LocksOk, ThreadsOk, ElemsOk, EdgesOk, KnownOk, CouplingOk, EntryOk, SparesOk, JobOk;
    SameThreadsSameLocks(s, s.(entry := entry));
    EntryThreads(s, t, entry);
    EntryFree(s, entry);
    EntryCoupling(s, t, entry);
  }

  lemma EntryFree(s: State, entry: Option<Rec>)
    requires ElemsOk(s) && EdgesOk(s) && KnownOk(s) && SparesOk(s)
    ensures var s' := s.(entry := entry); ElemsOk(s') && EdgesOk(s') && KnownOk(s') && SparesOk(s')
  {
    hide Meetable, Own;
  }

  lemma EntryCoupling(s: State, t: Tid, entry: Option<Rec>)
    requires t in s.threads && (forall u :: u in s.threads && u != t ==> s.threads[u].graph == Free)
    requires s.threads[t].known == {} && ThreadsOk(s)
    ensures CouplingOk(s.(entry := entry))
  {
    hide JobOk, Coupled;
    forall u | u in s.threads ensures s.threads[u].known == {} {
      ThreadAt(s, u);
    }
  }

  lemma EntryThreads(s: State, t: Tid, entry: Option<Rec>)
    requires t in s.threads && (forall u :: u in s.threads && u != t ==> s.threads[u].graph == Free)
    requires JobOk(s.elems, entry, t, s.threads[t]) && ThreadsOk(s)
    ensures ThreadsOk(s.(entry := entry))
  {
    hide JobOk, ThreadOk;
    forall u | u in s.threads && u != t ensures JobOk(s.elems, entry, u, s.threads[u]) {
      IdleKnowsNothing(s.elems, s.entry, entry, u, s.threads[u]);
    }
  }

  lemma IdleKnowsNothing(elems: map<Elem, Element>, entry: Option<Rec>, entry': Option<Rec>, u: Tid, th: Thread)
    requires ThreadOk(th) && th.graph == Free && JobOk(elems, entry, u, th)
    ensures th.known == {} && JobOk(elems, entry', u, th)
  {
  }

  lemma FinishInsertKeeps(s: State, t: Tid)
    requires Enabled(s, FinishInsert(t)) && Inv(s)
    ensures Inv(Apply(s, FinishInsert(t)))
  {
    hide Inv, SetThread, SetElem;
    var th := s.threads[t];
    var e := th.job.elem;
    var s1 := SetThread(SetElem(s, e, s.elems[e].(life := Live)), t, Rested(th));
    FinishInsertCore(s, t, e);
    if th.renew {
      InsertRegisters(s, t, e, s1);
    }
  }

  lemma FinishInsertCore(s: State, t: Tid, e: Elem)
    requires t in s.threads && s.threads[t].pc.Linking? && s.threads[t].job.Insert? && s.threads[t].job.elem == e
    requires e in s.elems && Inv(s)
    ensures Inv(SetThread(SetElem(s, e, s.elems[e].(life := Live)), t, Rested(s.threads[t])))
    ensures s.elems[e].top == s.threads[t].job.level && s.elems[e].lo == 0
  {
    hide LocksOk, ThreadsOk, ElemsOk, EdgesOk, KnownOk, CouplingOk, EntryOk, SparesOk, LocksFit, KnowledgeFits,
         SetThread, Meetable, Own;
    var th := Rested(s.threads[t]);
    var elems' := s.elems[e := s.elems[e].(life := Live)];
    ThreadAt(s, t);
    OwnersDiffer(s, e, t);
    NoLevelsFit(s, t, th);
    NothingKnownFits(s.(elems := elems'), t, th);
    InsertedIsMet(s.elems, elems', e);
    ElemsTo(s, elems', e, t, th);
    FinishInsertRest(s, t, e);
    ElemAndThread(s, elems', e, t, th);
  }

  lemma InsertedIsMet(elems: map<Elem, Element>, elems': map<Elem, Element>, e: Elem)
    requires e in elems && elems[e].life.Inserting? && elems' == elems[e := elems[e].(life := Live)]
    ensures SameBut(elems, elems', e) && MeetKept(elems, elems', e)
  {
  }

  lemma FinishInsertRest(s: State, t: Tid, e: Elem)
    requires t in s.threads && s.threads[t].job.Insert? && e in s.elems && s.elems[e].life == Inserting(t)
    requires EntryOk(s) && SparesOk(s) && ElemsOk(s)
    ensures var s' := SetThread(s.(elems := s.elems[e := s.elems[e].(life := Live)]), t, Rested(s.threads[t]));
            EntryOk(s') && SparesOk(s')
  {
  }

  lemma InsertRegisters(s: State, t: Tid, e: Elem, s1: State)
    requires t in s.threads && s.threads[t].renew && s.threads[t].job.Insert? && s.threads[t].job.elem == e &&
             e in s.elems
    requires s1 == SetThread(SetElem(s, e, s.elems[e].(life := Live)), t, Rested(s.threads[t]))
    requires s.elems[e].top == s.threads[t].job.level && s.elems[e].lo == 0
    requires Inv(s) && Inv(s1)
    ensures Inv(s1.(entry := Some(Rec(s.threads[t].job.level, e))))
  {
    ThreadAt(s, t);
    hide ThreadsOk, ElemsOk, EdgesOk, KnownOk, CouplingOk, SparesOk;
    EntryTo(s1, t, Some(Rec(s.threads[t].job.level, e)));
  }

  // ------------------------------------------------------------------------------------------
  // Removal: unlinking a level, and the end of the job.

  /** No thread other than t holds e's record at level l. */
  ghost predicate NoOneKnows(s: State, t: Tid, r: Rec) {
    forall u :: u in s.threads && u != t ==> r !in s.threads[u].known
  }

  /** A remover holding a level exclusively, with the levels above unlinked, is alone in knowing its record there. */
  lemma RemoverIsAlone(s: State, t: Tid, e: Elem)
    requires t in s.threads && s.threads[t].pc.Walking? && s.threads[t].job == Remove(e)
    requires e in s.elems && s.elems[e].life == Removing(t, s.threads[t].cur + 1)
    requires Inv(s)
    ensures NoOneKnows(s, t, Rec(s.threads[t].cur, e))
  {
    hide LocksOk, ThreadsOk, ElemsOk, EdgesOk, KnownOk, CouplingOk, EntryOk, SparesOk, JobOk, ThreadOk;
    forall u | u in s.threads && u != t ensures Rec(s.threads[t].cur, e) !in s.threads[u].known {
      AloneAgainst(s, t, e, u);
    }
  }

  lemma AloneAgainst(s: State, t: Tid, e: Elem, u: Tid)
    requires t in s.threads && s.threads[t].pc.Walking? && s.threads[t].job == Remove(e)
    requires e in s.elems && s.elems[e].life == Removing(t, s.threads[t].cur + 1)
    requires u in s.threads && u != t
    requires LocksOk(s) && ThreadsOk(s) && KnownOk(s) && CouplingOk(s)
    ensures Rec(s.threads[t].cur, e) !in s.threads[u].known
  {
    hide LocksOk, ThreadsOk, KnownOk, CouplingOk;
    if Rec(s.threads[t].cur, e) in s.threads[u].known {
      ThreadAt(s, t);
      ThreadAt(s, u);
      CoupledAt(s, u, Rec(s.threads[t].cur, e));
      GraphExcludes(s, t, u);
      LevelExcludes(s, t, u, s.threads[t].cur);
      if Rec(s.threads[t].cur + 1, e) in s.threads[u].known {
        KnownAt(s, u, Rec(s.threads[t].cur + 1, e));
      }
    }
  }

  lemma CoupledAt(s: State, t: Tid, r: Rec)
    requires t in s.threads && r in s.threads[t].known && CouplingOk(s)
    ensures Coupled(s.entry, s.threads[t], r)
  {
  }

  lemma KnownAt(s: State, t: Tid, r: Rec)
    requires t in s.threads && r in s.threads[t].known && KnownOk(s)
    ensures Meetable(s.elems, r) || Own(s.elems, t, r)
  {
  }

  lemma GraphExcludes(s: State, t: Tid, u: Tid)
    requires t in s.threads && u in s.threads && t != u && LocksOk(s)
    ensures s.threads[t].graph == Exclusive ==> s.threads[u].graph == Free
    ensures s.threads[u].graph == Exclusive ==> s.threads[t].graph == Free
  {
  }

  lemma LevelExcludes(s: State, t: Tid, u: Tid, l: Level)
    requires t in s.threads && u in s.threads && t != u && LocksOk(s)
    ensures l in s.threads[t].held && l in s.threads[u].held ==>
              s.threads[t].mode == Shared && s.threads[u].mode == Shared
  {
  }

  lemma UnlinkKeeps(s: State, t: Tid, spare: Option<Elem>)
    requires Enabled(s, Unlink(t, spare)) && Inv(s)
    ensures Inv(Apply(s, Unlink(t, spare)))
  {
    hide Inv, SetThread, SetElem, Neighbourhood;
    var th := s.threads[t];
    var e := th.job.elem;
    var spare' := if th.spare.None? && spare.Some? then Some(Rec(th.cur, spare.value)) else th.spare;
    var th' := th.(known := th.known + Neighbourhood(s, th.cur, e), spare := spare');
    UnlinkCore(s, t, e, th');
  }

  function Severed(s: State, l: Level, e: Elem): (edges: set<Edge>) {
    set x | x in s.edges && !(x.level == l && (x.from == e || x.to == e))
  }

  function LevelUnlinked(s: State, t: Tid, e: Elem, l: Level): (s': State)
    requires e in s.elems
  {
    SetElem(s, e, s.elems[e].(life := Removing(t, l))).(edges := Severed(s, l, e))
  }

  /** The replacement, if any, is a neighbour, or was found at a level above. */
  ghost predicate SpareFound(s: State, t: Tid, e: Elem, th': Thread)
    requires t in s.threads
  {
    th'.spare == s.threads[t].spare || (th'.spare.Some? && th'.spare.value in Neighbourhood(s, th'.cur, e))
  }

  ghost predicate Unlinking(s: State, t: Tid, e: Elem, th': Thread) {
    && t in s.threads && s.threads[t].pc.Walking? && s.threads[t].job == Remove(e)
    && e in s.elems && s.elems[e].life == Removing(t, s.threads[t].cur + 1)
    && th' == s.threads[t].(known := s.threads[t].known + Neighbourhood(s, s.threads[t].cur, e), spare := th'.spare)
  }

  lemma UnlinkLocks(s: State, t: Tid, e: Elem, th': Thread)
    requires Unlinking(s, t, e, th')
    requires LocksOk(s)
    ensures LocksOk(SetThread(LevelUnlinked(s, t, e, th'.cur), t, th'))
  {
    hide LocksFit, LocksOk;
    LocksBefore(s, t);
    SameLocksFit(s, t, s.threads[t], th');
    LocksAfter(s, t, th');
    SameThreadsSameLocks(SetThread(s, t, th'), SetThread(LevelUnlinked(s, t, e, th'.cur), t, th'));
  }

  lemma UnlinkThreads(s: State, t: Tid, e: Elem, th': Thread)
    requires Unlinking(s, t, e, th')
    requires ThreadsOk(s)
    ensures ThreadsOk(SetThread(LevelUnlinked(s, t, e, th'.cur), t, th'))
  {
    hide ThreadsOk, Neighbourhood, Severed;
    ThreadAt(s, t);
    OwnersDiffer(s, e, t);
    NeighboursAtLevel(s, th'.cur, e);
    ThreadsTo(s, s.elems[e := s.elems[e].(life := Removing(t, th'.cur))], e, t, th');
    SameThreadsSameJobs(SetThread(s.(elems := s.elems[e := s.elems[e].(life := Removing(t, th'.cur))]), t, th'),
                        SetThread(LevelUnlinked(s, t, e, th'.cur), t, th'));
  }

  lemma NeighboursAtLevel(s: State, l: Level, e: Elem)
    ensures forall r :: r in Neighbourhood(s, l, e) ==> r.level == l && r.elem != e
  {
  }

  lemma SameThreadsSameJobs(s: State, s': State)
    requires s.threads == s'.threads && s.elems == s'.elems && s.entry == s'.entry && ThreadsOk(s)
    ensures ThreadsOk(s')
  {
    hide ThreadOk, JobOk;
  }

  lemma UnlinkElems(s: State, t: Tid, e: Elem, th': Thread)
    requires Unlinking(s, t, e, th')
    requires ElemsOk(s)
    ensures ElemsOk(SetThread(LevelUnlinked(s, t, e, th'.cur), t, th'))
  {
    hide Neighbourhood, Severed;
  }

  lemma UnlinkEdges(s: State, t: Tid, e: Elem, th': Thread)
    requires Unlinking(s, t, e, th')
    requires EdgesOk(s)
    ensures EdgesOk(SetThread(LevelUnlinked(s, t, e, th'.cur), t, th'))
  {
    hide Neighbourhood;
  }

  lemma UnlinkKnown(s: State, t: Tid, e: Elem, th': Thread)
    requires Unlinking(s, t, e, th')
    requires NoOneKnows(s, t, Rec(s.threads[t].cur, e)) && ThreadsOk(s) && EdgesOk(s) && KnownOk(s)
    ensures KnownOk(SetThread(LevelUnlinked(s, t, e, th'.cur), t, th'))
  {
    hide ThreadsOk, KnownOk, EdgesOk, Neighbourhood, Severed, NoOneKnows;
    var s' := SetThread(LevelUnlinked(s, t, e, th'.cur), t, th');
    forall u, r | u in s'.threads && r in s'.threads[u].known ensures Meetable(s'.elems, r) || Own(s'.elems, u, r) {
      if u == t {
        ThreadAt(s, t);
        NeighbourCanBeMet(s, th'.cur, e, r);
      } else {
        KnownAt(s, u, r);
        NotKnown(s, t, Rec(th'.cur, e), u);
      }
    }
    KnownFrom(s');
  }

  lemma NeighbourCanBeMet(s: State, l: Level, e: Elem, r: Rec)
    requires EdgesOk(s) && r in Neighbourhood(s, l, e)
    ensures Meetable(s.elems, r) && r.level == l && r.elem != e
  {
    hide Meetable;
  }

  lemma NotKnown(s: State, t: Tid, r: Rec, u: Tid)
    requires NoOneKnows(s, t, r) && u in s.threads && u != t
    ensures r !in s.threads[u].known
  {
  }

  lemma KnownFrom(s: State)
    requires forall u, r :: u in s.threads && r in s.threads[u].known ==> Meetable(s.elems, r) || Own(s.elems, u, r)
    ensures KnownOk(s)
  {
  }

  lemma UnlinkCoupling(s: State, t: Tid, e: Elem, th': Thread)
    requires Unlinking(s, t, e, th')
    requires ThreadsOk(s) && CouplingOk(s)
    ensures CouplingOk(SetThread(LevelUnlinked(s, t, e, th'.cur), t, th'))
  {
    hide ThreadsOk, Neighbourhood, Severed, Coupled, JobOk;
    ThreadAt(s, t);
    NeighboursAtLevel(s, th'.cur, e);
    forall r | r in th'.known ensures Coupled(s.entry, th', r) {
      HeldIsCoupled(s.entry, th', r);
    }
  }

  lemma HeldIsCoupled(entry: Option<Rec>, th: Thread, r: Rec)
    requires r.level in th.held
    ensures Coupled(entry, th, r)
  {
  }

  lemma UnlinkEntry(s: State, t: Tid, e: Elem, th': Thread)
    requires Unlinking(s, t, e, th')
    requires ThreadsOk(s) && EntryOk(s)
    ensures EntryOk(SetThread(LevelUnlinked(s, t, e, th'.cur), t, th'))
  {
    hide ThreadsOk, Neighbourhood, Severed;
    ThreadAt(s, t);
  }

  lemma UnlinkSpares(s: State, t: Tid, e: Elem, th': Thread)
    requires Unlinking(s, t, e, th')
    requires SpareFound(s, t, e, th') && LocksOk(s) && ThreadsOk(s) && ElemsOk(s) && EdgesOk(s) && SparesOk(s)
    ensures SparesOk(SetThread(LevelUnlinked(s, t, e, th'.cur), t, th'))
  {
    hide ThreadsOk, LocksOk, ElemsOk, EdgesOk, Neighbourhood, Severed, SparesOk, Meetable;
    var s' := SetThread(LevelUnlinked(s, t, e, th'.cur), t, th');
    ThreadAt(s, t);
    forall u | u in s'.threads && s'.threads[u].renew && s'.threads[u].spare.Some?
      ensures SpareOk(s'.elems, s'.threads[u])
    {
      if u != t {
        ThreadAt(s, u);
        GraphExcludes(s, t, u);
        assert false;
      } else if th'.spare == s.threads[t].spare {
        SpareAt(s, t);
        SpareCarries(s.elems, s'.elems, e, th');
      } else {
        NeighbourCanBeMet(s, th'.cur, e, th'.spare.value);
        WholeUnderExclusive(s, t, th'.spare.value);
        SpareCarries(s.elems, s'.elems, e, th');
      }
    }
    SparesFrom(s');
  }

  predicate SpareOk(elems: map<Elem, Element>, th: Thread)
    requires th.spare.Some?
  {
    && var r := th.spare.value;
    && r.elem in elems && !elems[r.elem].life.Inserting? && Meetable(elems, r) && th.job != Remove(r.elem)
    && (elems[r.elem].life.Removing? ==> elems[r.elem].life.low == elems[r.elem].top + 1)
  }

  lemma SpareAt(s: State, t: Tid)
    requires t in s.threads && s.threads[t].renew && s.threads[t].spare.Some? && SparesOk(s)
    ensures SpareOk(s.elems, s.threads[t])
  {
    hide Meetable;
  }

  lemma SparesFrom(s: State)
    requires forall t :: t in s.threads && s.threads[t].renew && s.threads[t].spare.Some? ==>
               SpareOk(s.elems, s.threads[t])
    ensures SparesOk(s)
  {
    hide Meetable;
  }

  lemma SpareCarries(elems: map<Elem, Element>, elems': map<Elem, Element>, e: Elem, th: Thread)
    requires SameBut(elems, elems', e) && th.spare.Some? && th.spare.value.elem != e && th.job == Remove(e)
    requires SpareOk(elems, th)
    ensures SpareOk(elems', th)
  {
  }

  /** While t holds the graph lock exclusively, whatever can be met is finished and untouched by any remover but t. */
  lemma WholeUnderExclusive(s: State, t: Tid, r: Rec)
    requires t in s.threads && s.threads[t].graph == Exclusive && s.threads[t].job.Remove?
    requires LocksOk(s) && ThreadsOk(s) && ElemsOk(s) && Meetable(s.elems, r) && s.threads[t].job != Remove(r.elem)
    ensures r.elem in s.elems && !s.elems[r.elem].life.Inserting?
    ensures s.elems[r.elem].life.Removing? ==> s.elems[r.elem].life.low == s.elems[r.elem].top + 1
  {
    hide LocksOk, ThreadsOk;
    var life := s.elems[r.elem].life;
    if !life.Live? {
      assert life.owner in s.threads && life.owner != t;
      ThreadAt(s, life.owner);
      GraphExcludes(s, t, life.owner);
    }
  }

  lemma UnlinkCore(s: State, t: Tid, e: Elem, th': Thread)
    requires t in s.threads && s.threads[t].pc.Walking? && s.threads[t].job == Remove(e)
    requires e in s.elems && s.elems[e].life == Removing(t, s.threads[t].cur + 1)
    requires th' == s.threads[t].(known := s.threads[t].known + Neighbourhood(s, s.threads[t].cur, e),
                                  spare := th'.spare)
    requires SpareFound(s, t, e, th')
    requires Inv(s)
    ensures Inv(SetThread(LevelUnlinked(s, t, e, th'.cur), t, th'))
  {
    hide LocksOk, ThreadsOk, ElemsOk, EdgesOk, KnownOk, CouplingOk, EntryOk, SparesOk, LocksFit, KnowledgeFits,
         SetThread, Meetable, Own, Severed, JobOk, ThreadOk, Neighbourhood, NoOneKnows, SpareFound;
    RemoverIsAlone(s, t, e);
    assert Unlinking(s, t, e, th');
    UnlinkLocks(s, t, e, th');
    UnlinkThreads(s, t, e, th');
    UnlinkElems(s, t, e, th');
    UnlinkEdges(s, t, e, th');
    UnlinkKnown(s, t, e, th');
    UnlinkCoupling(s, t, e, th');
    UnlinkEntry(s, t, e, th');
    UnlinkSpares(s, t, e, th');
  }

  lemma FinishRemoveKeeps(s: State, t: Tid)
    requires Enabled(s, FinishRemove(t)) && Inv(s)
    ensures Inv(Apply(s, FinishRemove(t)))
  {
    hide Inv, SetThread, JobOk, ThreadOk;
    var e := s.threads[t].job.elem;
    if s.threads[t].renew {
      SpareRegisters(s, t, e);
      FinishRemoveCore(s.(entry := s.threads[t].spare), t, e);
      EntryLast(s, t, e);
    } else {
      NotTheEntry(s, t, e);
      FinishRemoveCore(s, t, e);
    }
  }

  lemma NotTheEntry(s: State, t: Tid, e: Elem)
    requires t in s.threads && s.threads[t].pc.Dropping? && s.threads[t].job == Remove(e) && !s.threads[t].renew &&
             Inv(s)
    ensures s.entry.Some? ==> s.entry.value.elem != e
  {
    ThreadAt(s, t);
  }

  lemma EntryLast(s: State, t: Tid, e: Elem)
    requires t in s.threads
    ensures var th := s.threads[t];
            SetThread(s.(entry := th.spare).(elems := s.elems - {e}), t, Rested(th)) ==
            SetThread(s.(elems := s.elems - {e}), t, Rested(th)).(entry := th.spare)
  {
  }

  lemma SpareRegisters(s: State, t: Tid, e: Elem)
    requires t in s.threads && s.threads[t].pc.Dropping? && s.threads[t].job == Remove(e) && s.threads[t].renew
    requires Inv(s)
    ensures var s' := s.(entry := s.threads[t].spare); Inv(s') && (s'.entry.Some? ==> s'.entry.value.elem != e)
  {
    hide LocksOk, ThreadsOk, ElemsOk, EdgesOk, KnownOk, CouplingOk, SparesOk;
    var th := s.threads[t];
    ThreadAt(s, t);
    forall u | u in s.threads && u != t ensures s.threads[u].graph == Free {
      GraphExcludes(s, t, u);
    }
    if th.spare.Some? {
      SpareAt(s, t);
    }
    EntryTo(s, t, th.spare);
  }

  lemma FinishRemoveCore(s: State, t: Tid, e: Elem)
    requires t in s.threads && s.threads[t].pc.Dropping? && s.threads[t].job == Remove(e) && e in s.elems
    requires s.entry.Some? ==> s.entry.value.elem != e
    requires Inv(s)
    ensures Inv(SetThread(s.(elems := s.elems - {e}), t, Rested(s.threads[t])))
  {
    hide LocksOk, ThreadsOk, ElemsOk, EdgesOk, KnownOk, CouplingOk, EntryOk, SparesOk, LocksFit, KnowledgeFits,
         SetThread, Meetable, Own;
    var th := Rested(s.threads[t]);
    var elems' := s.elems - {e};
    ThreadAt(s, t);
    OwnersDiffer(s, e, t);
    NoLevelsFit(s, t, th);
    NothingKnownFits(s.(elems := elems'), t, th);
    UnlinkedCannotBeMet(s.elems, elems', e);
    ElemsTo(s, elems', e, t, th);
    FinishRemoveRest(s, t, e);
    ElemAndThread(s, elems', e, t, th);
  }

  lemma FinishRemoveRest(s: State, t: Tid, e: Elem)
    requires t in s.threads && s.threads[t].job == Remove(e) && e in s.elems && s.elems[e].life == Removing(t, 0)
    requires s.entry.Some? ==> s.entry.value.elem != e
    requires ElemsOk(s) && EntryOk(s) && SparesOk(s)
    ensures var s' := SetThread(s.(elems := s.elems - {e}), t, Rested(s.threads[t])); EntryOk(s') && SparesOk(s')
  {
  }

  /** Every step keeps the invariant, as long as removers recognise the entry point. */
  lemma StepKeeps(s: State, step: Step)
    requires Enabled(s, step) && Recognises(s, step) && Inv(s)
    ensures Inv(Apply(s, step))
  {
    hide *;
    match step
    case Spawn(t, job) => SpawnKeeps(s, t, job);
    case LockGraph(t) => LockGraphKeeps(s, t);
    case Upgrade(t) => UpgradeKeeps(s, t);
    case LockGraphExclusive(t) => LockGraphExclusiveKeeps(s, t);
    case Proceed(t) => ProceedKeeps(s, t);
    case LockFirst(t) => LockFirstKeeps(s, t);
    case Follow(t, edge) => FollowKeeps(s, t, edge);
    case Advance(t, e) => AdvanceKeeps(s, t, e);
    case Descend(t) => DescendKeeps(s, t);
    case CreateRecord(t) => CreateRecordKeeps(s, t);
    case BeginLinking(t) => BeginLinkingKeeps(s, t);
    case BeginOp(t, l, mode) => BeginOpKeeps(s, t, l, mode);
    case EndOp(t) => EndOpKeeps(s, t);
    case AddEdge(t, edge) => AddEdgeKeeps(s, t, edge);
    case DeleteEdge(t, edge) => DeleteEdgeKeeps(s, t, edge);
    case Unlink(t, spare) => UnlinkKeeps(s, t, spare);
    case FinishWalk(t) => FinishWalkKeeps(s, t);
    case FinishInsert(t) => FinishInsertKeeps(s, t);
    case FinishPhase1(t) => FinishPhase1Keeps(s, t);
    case Relock(t) => RelockKeeps(s, t);
    case Drop(t) => DropKeeps(s, t);
    case FinishRemove(t) => FinishRemoveKeeps(s, t);
  }
}
