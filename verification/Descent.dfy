/** Whole operations over all levels, as steps of any number of threads: the graph lock, the
    level locks taken top-down and hand over hand, and what a thread has met on the way.

    A vector is one element; its record at level l is Rec(l, e), and the LowerLevel pointer of
    that record leads to Rec(l - 1, e). An element has records from `lo` up to `top`: inserting
    creates them downwards, removing drops them upwards from level 0. */
module Descent {
  import opened Wrappers

  type Elem = nat
  type Level = nat
  type Tid = nat

  datatype Rec = Rec(level: Level, elem: Elem)

  /** An outgoing link at one level. */
  datatype Edge = Edge(level: Level, from: Elem, to: Elem)

  datatype Mode = Free | Shared | Exclusive

  /** `low`: the levels from low up have been unlinked. */
  datatype Life = Inserting(owner: Tid) | Live | Removing(owner: Tid, low: Level)

  datatype Element = Element(top: Level, lo: Level, life: Life)

  datatype Job = Search | Insert(elem: Elem, level: Level) | Remove(elem: Elem) | Mark(elem: Elem, level: Level)

  datatype Pc =
    | Done        // between jobs
    | Start       // holds nothing
    | Entered     // graph lock shared, entry point read
    | Upgrading   // graph lock given up, waiting for it exclusively
    | Ready       // graph lock in its final mode, entry point read
    | Walking     // descending, `cur` is the lowest level locked
    | Linking     // insert: every level created, adding the reciprocal links and selecting full lists anew
    | Between     // remove: unlinked at every level, no level locked
    | Dropping    // remove: locking every level again, shared, then dropping bottom-up

  /** `known` is what the thread holds as candidates or neighbours; `renew` says it must register
      a new entry point, `spare` is the replacement it has found; `op` the level operation lock. */
  datatype Thread = Thread(job: Job, pc: Pc, graph: Mode, mode: Mode, held: set<Level>, cur: Level,
                           known: set<Rec>, renew: bool, spare: Option<Rec>, op: Option<Level>, opMode: Mode)

  datatype State = State(elems: map<Elem, Element>, edges: set<Edge>, entry: Option<Rec>, threads: map<Tid, Thread>)

  datatype Step =
    | Spawn(t: Tid, job: Job)
    | LockGraph(t: Tid)
    | Upgrade(t: Tid)
    | LockGraphExclusive(t: Tid)
    | Proceed(t: Tid)
    | LockFirst(t: Tid)
    | Follow(t: Tid, edge: Edge)
    | Advance(t: Tid, elem: Elem)
    | Descend(t: Tid)
    | CreateRecord(t: Tid)
    | BeginLinking(t: Tid)
    | BeginOp(t: Tid, level: Level, mode: Mode)
    | EndOp(t: Tid)
    | AddEdge(t: Tid, edge: Edge)
    | DeleteEdge(t: Tid, edge: Edge)
    | Unlink(t: Tid, spare: Option<Elem>)
    | FinishWalk(t: Tid)
    | FinishInsert(t: Tid)
    | FinishPhase1(t: Tid)
    | Relock(t: Tid)
    | Drop(t: Tid)
    | FinishRemove(t: Tid)

  // ------------------------------------------------------------------------------------------
  // Guards.

  predicate GraphAvailable(s: State, t: Tid, mode: Mode) {
    forall u :: u in s.threads && u != t ==>
      s.threads[u].graph == Free || (mode == Shared && s.threads[u].graph == Shared)
  }

  predicate LevelAvailable(s: State, t: Tid, l: Level, mode: Mode) {
    forall u :: u in s.threads && u != t && l in s.threads[u].held ==> mode == Shared && s.threads[u].mode == Shared
  }

  predicate OpAvailable(s: State, t: Tid, l: Level, mode: Mode) {
    forall u :: u in s.threads && u != t && s.threads[u].op == Some(l) ==>
      mode == Shared && s.threads[u].opMode == Shared
  }

  /** What insert and remove ask of the entry point before and after upgrading the graph lock. */
  predicate MustRenew(s: State, job: Job) {
    match job
    case Insert(_, l) => s.entry.None? || l > s.entry.value.level
    case Remove(e) => e in s.elems && s.entry == Some(Rec(s.elems[e].top, e))
    case _ => false
  }

  function FirstLevel(s: State, job: Job): (l: Level) {
    match job
    case Search => if s.entry.Some? then s.entry.value.level else 0
    case Insert(_, l) => if s.entry.Some? && s.entry.value.level > l then s.entry.value.level else l
    case Remove(e) => if e in s.elems then s.elems[e].top else 0
    case Mark(_, l) => l
  }

  /** Candidates read from the entry point; a remover or marker starts from its own handle. */
  function EntryKnown(s: State, job: Job): (k: set<Rec>) {
    if s.entry.Some? && (job.Search? || job.Insert?) then {s.entry.value} else {}
  }

  /** Levels an insert keeps locked once it has reached its own level. */
  predicate Keeps(job: Job, cur: Level) {
    job.Insert? && cur <= job.level
  }

  predicate Enabled(s: State, step: Step) {
    && step.t in s.threads
    && var th := s.threads[step.t];
    match step
    case Spawn(t, job) =>
      && th.pc.Done?
      && (job.Insert? ==> job.elem !in s.elems)
      && (job.Remove? ==> job.elem in s.elems && s.elems[job.elem].life.Live?)
    case LockGraph(t) => th.pc.Start? && GraphAvailable(s, t, Shared)
    case Upgrade(t) => th.pc.Entered? && MustRenew(s, th.job)
    case LockGraphExclusive(t) => th.pc.Upgrading? && GraphAvailable(s, t, Exclusive)
    case Proceed(t) => th.pc.Entered? && !MustRenew(s, th.job)
    case LockFirst(t) =>
      && th.pc.Ready? && (th.job.Search? ==> s.entry.Some?)
      && LevelAvailable(s, t, FirstLevel(s, th.job), if th.job.Remove? then Exclusive else Shared)
    case Follow(t, edge) =>
      && (th.pc.Walking? || th.pc.Linking?)
      && edge in s.edges && edge.level in th.held && Rec(edge.level, edge.from) in th.known
    case Advance(t, e) =>
      && th.pc.Walking? && th.cur > 0 && Rec(th.cur, e) in th.known
      && (th.job.Search? || (th.job.Insert? && th.job.elem != e))
    case Descend(t) =>
      && th.pc.Walking? && th.cur > 0 && th.op.None? && LevelAvailable(s, t, th.cur - 1, th.mode)
      && (Keeps(th.job, th.cur) ==> th.job.elem in s.elems && s.elems[th.job.elem].lo == th.cur)
      && (th.job.Remove? ==> th.job.elem in s.elems && s.elems[th.job.elem].life == Removing(t, th.cur))
    case CreateRecord(t) =>
      && th.pc.Walking? && Keeps(th.job, th.cur) && th.job.elem in s.elems && s.elems[th.job.elem].lo == th.cur + 1
    case BeginLinking(t) =>
      th.pc.Walking? && th.cur == 0 && th.job.Insert? && th.job.elem in s.elems && s.elems[th.job.elem].lo == 0
    case BeginOp(t, l, mode) =>
      && th.op.None? && l in th.held && mode != Free && OpAvailable(s, t, l, mode)
      && (th.pc.Linking? || (th.pc.Walking? && th.job.Remove?))
    case EndOp(t) => th.op.Some?
    case AddEdge(t, edge) =>
      && th.op == Some(edge.level) && edge.level in th.held
      && Rec(edge.level, edge.from) in th.known && Rec(edge.level, edge.to) in th.known
    case DeleteEdge(t, edge) => th.op == Some(edge.level) && edge.level in th.held
    case Unlink(t, spare) =>
      && th.pc.Walking? && th.job.Remove? && th.job.elem in s.elems &&
         s.elems[th.job.elem].life == Removing(t, th.cur + 1)
      && (spare.Some? ==> Rec(th.cur, spare.value) in Neighbourhood(s, th.cur, th.job.elem))
      && (spare.None? && th.spare.None? ==> Neighbourhood(s, th.cur, th.job.elem) == {})
    case FinishWalk(t) =>
      || (th.pc.Ready? && th.job.Search? && s.entry.None?)
      || (th.pc.Walking? && th.cur == 0 && (th.job.Search? || th.job.Mark?))
    case FinishInsert(t) => th.pc.Linking? && th.op.None? && th.job.Insert? && th.job.elem in s.elems
    case FinishPhase1(t) =>
      && th.pc.Walking? && th.cur == 0 && th.op.None? && th.job.Remove? && th.job.elem in s.elems
      && s.elems[th.job.elem].life == Removing(t, 0)
    case Relock(t) =>
      && th.job.Remove? && th.job.elem in s.elems
      && if th.pc.Between? then LevelAvailable(s, t, s.elems[th.job.elem].top, Shared)
         else th.pc.Dropping? && th.cur > 0 && LevelAvailable(s, t, th.cur - 1, Shared)
    case Drop(t) =>
      && th.pc.Dropping? && th.cur == 0 && th.job.Remove? && th.job.elem in s.elems
      && s.elems[th.job.elem].lo <= s.elems[th.job.elem].top
    case FinishRemove(t) =>
      && th.pc.Dropping? && th.cur == 0 && th.job.Remove? && th.job.elem in s.elems
      && s.elems[th.job.elem].lo == s.elems[th.job.elem].top + 1
  }

  /** Everything linked with e at level l. */
  function Neighbourhood(s: State, l: Level, e: Elem): (n: set<Rec>) {
    (set x | x in s.edges && x.level == l && x.from == e && x.to != e :: Rec(l, x.to)) +
    (set x | x in s.edges && x.level == l && x.to == e && x.from != e :: Rec(l, x.from))
  }

  function Without(known: set<Rec>, l: Level): (k: set<Rec>) {
    set r | r in known && r.level != l
  }

  // ------------------------------------------------------------------------------------------
  // Effects.

  function SetThread(s: State, t: Tid, th: Thread): (s': State) {
    s.(threads := s.threads[t := th])
  }

  function SetElem(s: State, e: Elem, el: Element): (s': State) {
    s.(elems := s.elems[e := el])
  }

  function Rested(th: Thread): (th': Thread) {
    Thread(Search, Done, Free, Free, {}, 0, {}, false, None, None, Free)
  }

  function Apply(s: State, step: Step): (s': State)
    requires Enabled(s, step)
  {
    var t := step.t;
    var th := s.threads[t];
    match step
    case Spawn(_, job) =>
      var th' := Thread(job, Start, Free, Free, {}, 0, {}, false, None, None, Free);
      if job.Insert? then SetThread(SetElem(s, job.elem, Element(job.level, job.level + 1, Inserting(t))), t, th')
      else if job.Remove? then
        var el := s.elems[job.elem];
        SetThread(SetElem(s, job.elem, el.(life := Removing(t, el.top + 1))), t, th')
      else SetThread(s, t, th')
    case LockGraph(_) => SetThread(s, t, th.(pc := Entered, graph := Shared, known := EntryKnown(s, th.job)))
    case Upgrade(_) => SetThread(s, t, th.(pc := Upgrading, graph := Free, known := {}))
    case LockGraphExclusive(_) =>
      SetThread(s, t, th.(pc := Ready, graph := Exclusive, known := EntryKnown(s, th.job),
                          renew := MustRenew(s, th.job)))
    case Proceed(_) => SetThread(s, t, th.(pc := Ready))
    case LockFirst(_) =>
      var l := FirstLevel(s, th.job);
      SetThread(s, t, th.(pc := Walking, mode := if th.job.Remove? then Exclusive else Shared, held := {l}, cur := l))
    case Follow(_, edge) => SetThread(s, t, th.(known := th.known + {Rec(edge.level, edge.to)}))
    case Advance(_, e) => SetThread(s, t, th.(known := th.known + {Rec(th.cur - 1, e)}))
    case Descend(_) =>
      if Keeps(th.job, th.cur) then SetThread(s, t, th.(held := th.held + {th.cur - 1}, cur := th.cur - 1))
      else SetThread(s, t, th.(held := th.held + {th.cur - 1} - {th.cur}, cur := th.cur - 1,
                               known := Without(th.known, th.cur)))
    case CreateRecord(_) =>
      var e := th.job.elem;
      SetThread(SetElem(s, e, s.elems[e].(lo := th.cur)), t, th.(known := th.known + {Rec(th.cur, e)}))
    case BeginLinking(_) => SetThread(s, t, th.(pc := Linking))
    case BeginOp(_, l, mode) => SetThread(s, t, th.(op := Some(l), opMode := mode))
    case EndOp(_) => SetThread(s, t, th.(op := None, opMode := Free))
    case AddEdge(_, edge) => s.(edges := s.edges + {edge})
    case DeleteEdge(_, edge) => s.(edges := s.edges - {edge})
    case Unlink(_, spare) =>
      var e := th.job.elem;
      var spare' := if th.spare.None? && spare.Some? then Some(Rec(th.cur, spare.value)) else th.spare;
      SetThread(SetElem(s, e, s.elems[e].(life := Removing(t, th.cur)))
                  .(edges := set x | x in s.edges && !(x.level == th.cur && (x.from == e || x.to == e))), t,
                th.(known := th.known + Neighbourhood(s, th.cur, e), spare := spare'))
    case FinishWalk(_) => SetThread(s, t, Rested(th))
    case FinishInsert(_) =>
      var e := th.job.elem;
      var s' := SetThread(SetElem(s, e, s.elems[e].(life := Live)), t, Rested(th));
      if th.renew then s'.(entry := Some(Rec(th.job.level, e))) else s'
    case FinishPhase1(_) => SetThread(s, t, th.(pc := Between, held := {}, mode := Free, known := {}))
    case Relock(_) =>
      if th.pc.Between? then
        var l := s.elems[th.job.elem].top;
        SetThread(s, t, th.(pc := Dropping, held := {l}, mode := Shared, cur := l))
      else SetThread(s, t, th.(held := th.held + {th.cur - 1}, cur := th.cur - 1))
    case Drop(_) =>
      var e := th.job.elem;
      SetElem(s, e, s.elems[e].(lo := s.elems[e].lo + 1))
    case FinishRemove(_) =>
      var s' := SetThread(s.(elems := s.elems - {th.job.elem}), t, Rested(th));
      if th.renew then s'.(entry := th.spare) else s'
  }

  // ------------------------------------------------------------------------------------------
  // What every step keeps.

  /** A record a traversal may hold: it and everything below it exists, and it is not unlinked. */
  predicate Meetable(elems: map<Elem, Element>, r: Rec) {
    && r.elem in elems
    && var el := elems[r.elem];
    r.level <= el.top && el.lo == 0 && (el.life.Removing? ==> r.level < el.life.low)
  }

  /** A record the thread itself has just created. */
  predicate Own(elems: map<Elem, Element>, t: Tid, r: Rec) {
    && r.elem in elems && elems[r.elem].life == Inserting(t)
    && elems[r.elem].lo <= r.level <= elems[r.elem].top
  }

  ghost predicate EdgesOk(s: State) {
    forall x :: x in s.edges ==> Meetable(s.elems, Rec(x.level, x.from)) && Meetable(s.elems, Rec(x.level, x.to))
  }

  ghost predicate KnownOk(s: State) {
    forall t, r :: t in s.threads && r in s.threads[t].known ==> Meetable(s.elems, r) || Own(s.elems, t, r)
  }

  /** A candidate is covered by a lock: its level's, the level's above that it was reached from,
      or the graph lock under which the entry point was read. */
  predicate Coupled(entry: Option<Rec>, th: Thread, r: Rec) {
    || th.graph == Exclusive
    || r.level in th.held
    || (th.cur == r.level + 1 && th.cur in th.held && Rec(th.cur, r.elem) in th.known)
    || ((th.pc.Entered? || th.pc.Ready?) && entry == Some(r))
  }

  ghost predicate CouplingOk(s: State) {
    forall t, r :: t in s.threads && r in s.threads[t].known ==> Coupled(s.entry, s.threads[t], r)
  }

  ghost predicate LocksOk(s: State) {
    GraphLockOk(s) && LevelLocksOk(s) && OpLocksOk(s)
  }

  ghost predicate GraphLockOk(s: State) {
    forall t, u :: t in s.threads && u in s.threads && t != u && s.threads[t].graph == Exclusive ==>
      s.threads[u].graph == Free
  }

  ghost predicate LevelLocksOk(s: State) {
    forall t, u, l :: t in s.threads && u in s.threads && t != u && l in s.threads[t].held && l in s.threads[u].held ==>
      s.threads[t].mode == Shared && s.threads[u].mode == Shared
  }

  ghost predicate OpLocksOk(s: State) {
    forall t, u :: t in s.threads && u in s.threads && t != u && s.threads[t].op.Some? &&
                   s.threads[t].op == s.threads[u].op ==>
      s.threads[t].opMode == Shared && s.threads[u].opMode == Shared
  }

  /** The locks a thread holds in each phase. */
  predicate PhaseOk(th: Thread) {
    && (th.graph == Free <==> th.pc.Done? || th.pc.Start? || th.pc.Upgrading?)
    && (th.pc.Entered? ==> th.graph == Shared && !th.renew)
    && (th.held != {} <==> th.pc.Walking? || th.pc.Linking? || th.pc.Dropping?)
    && (th.held != {} ==> th.cur in th.held && forall l :: l in th.held ==> th.cur <= l)
    && (th.op.Some? ==> th.op.value in th.held && (th.pc.Linking? || (th.pc.Walking? && th.job.Remove?)))
    && (th.pc.Walking? && th.job.Remove? ==> th.mode == Exclusive && th.held == {th.cur})
    && (th.spare.Some? ==> th.job.Remove? && (th.pc.Walking? || th.pc.Between? || th.pc.Dropping?))
    && (th.pc.Linking? ==> th.job.Insert? && th.cur == 0)
    && (th.pc.Dropping? ==> th.mode == Shared)
    && (th.pc.Between? || th.pc.Dropping? ==> th.job.Remove?)
    && (th.pc.Upgrading? ==> th.job.Insert? || th.job.Remove?)
    && (th.renew ==> th.graph == Exclusive && (th.job.Insert? || th.job.Remove?))
  }

  /** When a thread knows nothing, and how far a remover's knowledge reaches. */
  predicate KnowsLittle(th: Thread) {
    && (th.graph == Free ==> th.known == {})
    && (th.pc.Walking? && th.job.Remove? ==> forall r :: r in th.known ==> r.level == th.cur)
    && (!th.pc.Walking? && th.job.Remove? ==> th.known == {})
    && (th.job.Mark? ==> th.known == {})
  }

  predicate ThreadOk(th: Thread) {
    PhaseOk(th) && KnowsLittle(th)
  }

  /** How far the thread's own element has come. */
  predicate ProgressOk(elems: map<Elem, Element>, t: Tid, th: Thread) {
    match th.job
    case Insert(e, l) =>
      !th.pc.Done? ==>
        && e in elems && elems[e].top == l && elems[e].life == Inserting(t)
        && (if th.pc.Linking? then elems[e].lo == 0
            else if th.pc.Walking? && th.cur <= l then elems[e].lo == th.cur || elems[e].lo == th.cur + 1
            else elems[e].lo == l + 1)
    case Remove(e) =>
      !th.pc.Done? ==>
        && e in elems && elems[e].life.Removing? && elems[e].life.owner == t
        && var low := elems[e].life.low;
        && (if th.pc.Walking? then th.cur <= elems[e].top && (low == th.cur || low == th.cur + 1)
            else if th.pc.Between? || th.pc.Dropping? then low == 0
            else low == elems[e].top + 1)
        && (if th.pc.Dropping? then th.cur <= elems[e].top && elems[e].lo <= elems[e].top + 1 &&
                                    (th.cur > 0 ==> elems[e].lo == 0)
            else elems[e].lo == 0)
    case _ => true
  }

  /** What the thread has decided agrees with the entry point, and what it knows with its element. */
  predicate DecisionOk(elems: map<Elem, Element>, entry: Option<Rec>, th: Thread) {
    match th.job
    case Insert(_, l) => th.pc.Ready? && th.graph != Exclusive ==> entry.Some? && l <= entry.value.level
    case Remove(e) =>
      && (th.pc.Walking? && e in elems && elems[e].life.Removing? && elems[e].life.low == th.cur + 1 ==> th.known == {})
      && (th.pc.Ready? || th.pc.Walking? || th.pc.Between? || th.pc.Dropping? ==>
            entry.Some? && entry.value.elem == e ==> th.renew)
    case _ => true
  }

  predicate JobOk(elems: map<Elem, Element>, entry: Option<Rec>, t: Tid, th: Thread) {
    ProgressOk(elems, t, th) && DecisionOk(elems, entry, th)
  }

  ghost predicate ThreadsOk(s: State) {
    forall t :: t in s.threads ==> ThreadOk(s.threads[t]) && JobOk(s.elems, s.entry, t, s.threads[t])
  }

  /** Elements being inserted or removed belong to the thread doing it; the others are whole. */
  ghost predicate ElemsOk(s: State) {
    forall e :: e in s.elems ==>
      match s.elems[e].life
      case Live => s.elems[e].lo == 0
      case Inserting(t) => t in s.threads && !s.threads[t].pc.Done? && s.threads[t].job == Insert(e, s.elems[e].top)
      case Removing(t, _) => t in s.threads && !s.threads[t].pc.Done? && s.threads[t].job == Remove(e)
  }

  /** The registered entry point is one of its element's records and can be met, unless the thread
      that is removing it holds the graph lock exclusively. */
  ghost predicate EntryOk(s: State) {
    s.entry.Some? ==>
      && var e := s.entry.value.elem;
      && e in s.elems && s.entry.value.level <= s.elems[e].top && !s.elems[e].life.Inserting?
      && (Meetable(s.elems, s.entry.value) ||
          (s.elems[e].life.Removing? && s.elems[e].life.owner in s.threads &&
           s.threads[s.elems[e].life.owner].graph == Exclusive))
  }

  /** A replacement found by a thread that will register it is whole and not being removed. */
  ghost predicate SparesOk(s: State) {
    forall t :: t in s.threads && s.threads[t].renew && s.threads[t].spare.Some? ==>
      && var r := s.threads[t].spare.value;
      && r.elem in s.elems && !s.elems[r.elem].life.Inserting? && Meetable(s.elems, r) &&
         s.threads[t].job != Remove(r.elem)
      && (s.elems[r.elem].life.Removing? ==> s.elems[r.elem].life.low == s.elems[r.elem].top + 1)
  }

  ghost predicate Inv(s: State) {
    && LocksOk(s) && ThreadsOk(s) && ElemsOk(s) && EdgesOk(s) && KnownOk(s) && CouplingOk(s) && EntryOk(s) &&
       SparesOk(s)
  }
}
