/** The bidirectional-link protocol of one level, as steps of any number of threads.

    A node's record keeps its confirmed outgoing links and its incoming-flagged links in the
    primary list (at most `cap` slots), and further incoming links in its overflow chain. Two
    nodes are never latched at once: an edge is made, replaced or severed as a sequence of
    independently committed mini-transactions, each one a step below. What may interleave is
    decided by the level lock (inserts and drops share it, a remover excludes everyone) and by
    the level operation lock (linking a new node shares it, replacing and unlinking exclude). */
module LinkProtocol {
  import opened Wrappers

  type Nid = nat
  type Tid = nat

  /** Where the operation on a node is; `owner` is the thread running it. A node is `Created`
      from create_node until its thread starts to link it, and `Retired` once it is unlinked.
      `todo` and `drop` are the links still to visit. */
  datatype Phase =
    | Settled
    | Created(owner: Tid)
    | Linking(owner: Tid, todo: set<Nid>, want: set<Nid>, exclusive: bool)
    | Dropping(owner: Tid, drop: set<Nid>, want: set<Nid>)
    | Keeping(owner: Tid, drop: set<Nid>, want: set<Nid>, kept: Nid)
    | Promoting(owner: Tid, promoted: set<Nid>, want: set<Nid>)
    | Unlinking(owner: Tid, todo: set<Nid>, severed: set<Nid>, met: set<Nid>, orphans: set<Nid>)
    | Retired

  /** A record: confirmed outgoing and incoming-flagged links of the primary list, and the
      overflow chain. */
  datatype Node = Node(out: set<Nid>, inc: set<Nid>, over: set<Nid>, phase: Phase)

  /** Everything the record names, in whatever form. */
  function Names(n: Node): (s: set<Nid>) {
    n.out + n.inc + n.over
  }

  datatype LevelLock = Unlocked | Shared | Exclusive

  /** `work` holds the nodes a thread has met and may link, `busy` the node it operates on. */
  datatype Thread = Thread(level: LevelLock, work: set<Nid>, busy: Option<Nid>)

  datatype State = State(nodes: map<Nid, Node>, threads: map<Tid, Thread>)

  datatype Step =
    | LockShared(t: Tid)
    | LockExclusive(t: Tid)
    | Unlock(t: Tid)
    | Enter(t: Tid, n: Nid)
    | Follow(t: Tid, u: Nid, v: Nid)
    | Create(t: Tid, n: Nid, ns: set<Nid>)
    | BeginLink(t: Tid, n: Nid)
    | Land(t: Tid, n: Nid, v: Nid)
    | Confirm(t: Tid, n: Nid)
    | BeginReplace(t: Tid, n: Nid, want: set<Nid>)
    | DropLink(t: Tid, n: Nid, d: Nid)
    | KeepLink(t: Tid, n: Nid)
    | Write(t: Tid, n: Nid)
    | FreePromoted(t: Tid, n: Nid, v: Nid)
    | EndReplace(t: Tid, n: Nid)
    | BeginUnlink(t: Tid, n: Nid)
    | Sever(t: Tid, n: Nid, v: Nid)
    | FreeSevered(t: Tid, n: Nid, freed: set<Nid>)
    | RestartUnlink(t: Tid, n: Nid)
    | EndUnlink(t: Tid, n: Nid, pool: set<Nid>)
    | DropNode(t: Tid, n: Nid)

  /** No operation lock is held on behalf of a node in this phase. */
  predicate Idle(p: Phase) {
    p.Settled? || p.Created? || p.Retired?
  }

  predicate HoldsExclusive(p: Phase) {
    !Idle(p) && !(p.Linking? && !p.exclusive)
  }

  predicate NoOneElseLocks(s: State, t: Tid) {
    forall u :: u in s.threads && u != t ==> s.threads[u].level == Unlocked
  }

  predicate Runs(s: State, t: Tid, n: Nid) {
    t in s.threads && s.threads[t].busy == Some(n) && n in s.nodes
  }

  /** Of the nodes met while unlinking, the thread goes on with all the orphans, and with as many of
      the others as a list takes. */
  predicate HandsOver(cap: nat, met: set<Nid>, orphans: set<Nid>, pool: set<Nid>) {
    && orphans <= pool <= met
    && |pool - orphans| == if |met - orphans| <= cap then |met - orphans| else cap
  }

  /** The guard of each step: the locks it needs and where its thread must be. */
  predicate Enabled(cap: nat, s: State, step: Step) {
    && step.t in s.threads
    && var th := s.threads[step.t];
    match step
    case LockShared(t) => th.level == Unlocked && forall u :: u in s.threads ==> s.threads[u].level != Exclusive
    case LockExclusive(t) => th.level == Unlocked && NoOneElseLocks(s, t)
    case Unlock(t) => th.busy == None
    case Enter(t, n) =>
      th.level != Unlocked && n in s.nodes && !s.nodes[n].phase.Retired? && !s.nodes[n].phase.Created?
    case Follow(t, u, v) => th.level != Unlocked && u in th.work && u in s.nodes && v in s.nodes[u].out
    case Create(t, n, ns) =>
      th.level == Shared && th.busy == None && n !in s.nodes && ns <= th.work && |ns| <= cap
    case BeginLink(t, n) =>
      && Runs(s, t, n) && s.nodes[n].phase.Created?
      && forall u :: u in s.nodes ==> !HoldsExclusive(s.nodes[u].phase)
    case Land(t, n, v) => Runs(s, t, n) && s.nodes[n].phase.Linking? && v in s.nodes[n].phase.todo && v in s.nodes
    case Confirm(t, n) => Runs(s, t, n) && s.nodes[n].phase.Linking? && s.nodes[n].phase.todo == {}
    case BeginReplace(t, n, want) =>
      && th.level != Unlocked && th.busy == None && n in s.nodes && n in th.work && want <= th.work
      && n !in want && |want| <= cap && forall u :: u in s.nodes ==> Idle(s.nodes[u].phase)
    case DropLink(t, n, d) => Runs(s, t, n) && s.nodes[n].phase.Dropping? && d in s.nodes[n].phase.drop && d in s.nodes
    case KeepLink(t, n) => Runs(s, t, n) && s.nodes[n].phase.Keeping?
    case Write(t, n) => Runs(s, t, n) && s.nodes[n].phase.Dropping? && s.nodes[n].phase.drop == {}
    case FreePromoted(t, n, v) => Runs(s, t, n) && s.nodes[n].phase.Promoting? && v in s.nodes[n].phase.promoted
    case EndReplace(t, n) => Runs(s, t, n) && s.nodes[n].phase.Promoting? && s.nodes[n].phase.promoted == {}
    case BeginUnlink(t, n) =>
      && th.level == Exclusive && th.busy == None && th.work == {} && n in s.nodes && s.nodes[n].phase.Settled?
      && forall u :: u in s.nodes ==> Idle(s.nodes[u].phase)
    case Sever(t, n, v) => Runs(s, t, n) && s.nodes[n].phase.Unlinking? && v in s.nodes[n].phase.todo && v in s.nodes
    case FreeSevered(t, n, freed) =>
      && Runs(s, t, n) && s.nodes[n].phase.Unlinking?
      && freed !! s.nodes[n].phase.todo && freed !! s.nodes[n].phase.orphans
    case RestartUnlink(t, n) => Runs(s, t, n) && s.nodes[n].phase.Unlinking?
    case EndUnlink(t, n, pool) =>
      && Runs(s, t, n) && s.nodes[n].phase.Unlinking? && s.nodes[n].phase.todo == {}
      && Names(s.nodes[n]) <= s.nodes[n].phase.orphans
      && HandsOver(cap, s.nodes[n].phase.met, s.nodes[n].phase.orphans, pool)
    case DropNode(t, n) => th.level == Shared && th.busy == None && n in s.nodes && s.nodes[n].phase.Retired?
  }

  function SetNode(s: State, n: Nid, node: Node): (s': State) {
    s.(nodes := s.nodes[n := node])
  }

  function SetThread(s: State, t: Tid, th: Thread): (s': State) {
    s.(threads := s.threads[t := th])
  }

  /** Records n on v: a direct link back if the primary list has room, else in the chain. */
  function Landed(cap: nat, v: Node, n: Nid): (v': Node) {
    if |v.out| + |v.inc| < cap then v.(out := v.out + {n}) else v.(over := v.over + {n})
  }

  /** Clears the record of n on v, wherever v keeps it. */
  function Cleared(v: Node, n: Nid): (v': Node) {
    if n in v.out + v.inc then v.(out := v.out - {n}, inc := v.inc - {n}) else v.(over := v.over - {n})
  }

  // The record a step writes to the node it operates on.

  function LandedOwn(node: Node, v: Nid): (nn: Node)
    requires node.phase.Linking?
  {
    var p := node.phase;
    node.(phase := Linking(p.owner, p.todo - {v}, p.want, p.exclusive))
  }

  /** Every flagged link has been recorded on the other side: confirm them all. */
  function Confirmed(node: Node): (nn: Node) {
    Node(node.out + node.inc, {}, node.over, Settled)
  }

  /** Step A of a replacement: links the new list does not name stay recorded, as incoming. */
  function Demoted(node: Node, t: Tid, want: set<Nid>): (nn: Node) {
    var inc := node.inc + (node.out - want);
    Node(node.out * want, inc, node.over, Dropping(t, inc - want, want))
  }

  /** Step B: the far side has been visited; if it links back on its own, it must be kept. */
  function DroppedOwn(node: Node, d: Nid, keeps: bool): (nn: Node)
    requires node.phase.Dropping?
  {
    var p := node.phase;
    node.(phase := if keeps then Keeping(p.owner, p.drop - {d}, p.want, d) else Dropping(p.owner, p.drop - {d}, p.want))
  }

  function KeptOwn(node: Node): (nn: Node)
    requires node.phase.Keeping?
  {
    var p := node.phase;
    Node(node.out, node.inc, node.over + {p.kept}, Dropping(p.owner, p.drop, p.want))
  }

  /** Steps C and D: kept links stay as they are, chained ones land confirmed, new ones flagged. */
  function WrittenOwn(node: Node): (nn: Node)
    requires node.phase.Dropping?
  {
    var p := node.phase;
    var added := p.want - node.out - node.inc;
    Node(node.out * p.want + added * node.over, node.inc * p.want + (added - node.over), node.over,
         Promoting(p.owner, added * node.over, p.want))
  }

  /** Step E, for one promoted link. */
  function PromotedOwn(node: Node, v: Nid): (nn: Node)
    requires node.phase.Promoting?
  {
    var p := node.phase;
    node.(over := node.over - {v}, phase := Promoting(p.owner, p.promoted - {v}, p.want))
  }

  /** Step F begins: link whatever is still flagged. */
  function RelinkOwn(node: Node): (nn: Node)
    requires node.phase.Promoting?
  {
    node.(phase := Linking(node.phase.owner, node.inc, node.phase.want, true))
  }

  function UnlinkOwn(node: Node, t: Tid): (nn: Node) {
    Node({}, node.inc + node.out, node.over, Unlinking(t, Names(node), {}, {}, {}))
  }

  function SeveredOwn(node: Node, n: Nid, v: Nid, far: Node): (nn: Node)
    requires node.phase.Unlinking?
  {
    var p := node.phase;
    var found := n in Names(far);
    var orphan := found && Cleared(far, n).out == {};
    node.(phase := Unlinking(p.owner, p.todo - {v}, p.severed + {v}, if found then p.met + {v} else p.met,
                             if orphan then p.orphans + {v} else p.orphans))
  }

  /** An interrupted unlinking is simply run again: whatever is still recorded is walked again. */
  function RestartedOwn(node: Node): (nn: Node)
    requires node.phase.Unlinking?
  {
    node.(phase := Unlinking(node.phase.owner, Names(node), node.phase.severed, {}, {}))
  }

  function FreedOwn(node: Node, freed: set<Nid>): (nn: Node) {
    node.(inc := node.inc - freed, over := node.over - freed)
  }

  /** What each step writes: its own node's record, at most one other record, its own thread. */
  function Apply(cap: nat, s: State, step: Step): (s': State)
    requires Enabled(cap, s, step)
  {
    var t := step.t;
    var th := s.threads[t];
    match step
    case LockShared(_) => SetThread(s, t, th.(level := Shared))
    case LockExclusive(_) => SetThread(s, t, th.(level := Exclusive))
    case Unlock(_) => SetThread(s, t, th.(level := Unlocked, work := {}))
    case Enter(_, n) => SetThread(s, t, th.(work := th.work + {n}))
    case Follow(_, _, v) => SetThread(s, t, th.(work := th.work + {v}))
    case Create(_, n, ns) => SetThread(SetNode(s, n, Node({}, ns, {}, Created(t))), t, th.(busy := Some(n)))
    case BeginLink(_, n) => SetNode(s, n, s.nodes[n].(phase := Linking(t, s.nodes[n].inc, s.nodes[n].inc, false)))
    case Land(_, n, v) => SetNode(SetNode(s, v, Landed(cap, s.nodes[v], n)), n, LandedOwn(s.nodes[n], v))
    case Confirm(_, n) =>
      SetThread(SetNode(s, n, Confirmed(s.nodes[n])), t, th.(busy := None, work := th.work + {n}))
    case BeginReplace(_, n, want) => SetThread(SetNode(s, n, Demoted(s.nodes[n], t, want)), t, th.(busy := Some(n)))
    case DropLink(_, n, d) =>
      if n in s.nodes[d].out then SetNode(s, n, DroppedOwn(s.nodes[n], d, true))
      else SetNode(SetNode(s, d, Cleared(s.nodes[d], n)), n, DroppedOwn(s.nodes[n], d, false))
    case KeepLink(_, n) => SetNode(s, n, KeptOwn(s.nodes[n]))
    case Write(_, n) => SetNode(s, n, WrittenOwn(s.nodes[n]))
    case FreePromoted(_, n, v) => SetNode(s, n, PromotedOwn(s.nodes[n], v))
    case EndReplace(_, n) => SetNode(s, n, RelinkOwn(s.nodes[n]))
    case BeginUnlink(_, n) => SetThread(SetNode(s, n, UnlinkOwn(s.nodes[n], t)), t, th.(busy := Some(n)))
    case Sever(_, n, v) =>
      SetNode(SetNode(s, v, Cleared(s.nodes[v], n)), n, SeveredOwn(s.nodes[n], n, v, s.nodes[v]))
    case FreeSevered(_, n, freed) => SetNode(s, n, FreedOwn(s.nodes[n], freed))
    case RestartUnlink(_, n) => SetNode(s, n, RestartedOwn(s.nodes[n]))
    case EndUnlink(_, n, pool) =>
      SetThread(SetNode(s, n, s.nodes[n].(phase := Retired)), t, th.(busy := None, work := pool))
    case DropNode(_, n) => s.(nodes := s.nodes - {n})
  }

  // ------------------------------------------------------------------------------------------
  // What every step keeps.

  /** Links u's record names that the other side does not record (yet, or any more). */
  function Unanswered(n: Node): (p: set<Nid>) {
    match n.phase
    case Settled => {}
    case Created(_) => n.inc
    case Linking(_, todo, _, _) => todo
    case Dropping(_, drop, _) => n.inc - drop - n.over
    case Keeping(_, drop, _, kept) => n.inc - drop - n.over - {kept}
    case Promoting(_, _, _) => n.inc
    case Unlinking(_, _, severed, _, _) => severed
    case Retired => Names(n)
  }

  /** A record by itself: no name twice (but while a link moves between the primary list and the
      chain), the primary list fits, and what its phase says about it. */
  predicate NodeOk(cap: nat, n: Nid, node: Node) {
    && node.out !! node.inc && |node.out| + |node.inc| <= cap && n !in Names(node)
    && match node.phase
       case Settled => node.inc == {} && node.over !! node.out
       case Created(_) => node.out == {} && node.over == {}
       case Linking(_, todo, want, exclusive) =>
         && node.over !! (node.out + node.inc) && todo <= node.inc <= want <= node.out + node.inc
         && (exclusive ==> want == node.out + node.inc)
       case Dropping(_, drop, want) =>
         && n !in want && |want| <= cap && node.out <= want && node.inc !! want
         && drop <= node.inc && node.over !! (node.out + drop)
       case Keeping(_, drop, want, kept) =>
         && n !in want && |want| <= cap && node.out <= want && node.inc !! want
         && drop <= node.inc && node.over !! (node.out + drop)
         && kept in node.inc && kept !in drop && kept !in node.over
       case Promoting(_, promoted, want) =>
         want == node.out + node.inc && promoted == node.out * node.over && node.inc !! node.over
       case Unlinking(_, todo, severed, met, orphans) =>
         && node.out == {} && node.inc !! node.over && todo <= Names(node) <= todo + severed && orphans <= Names(node)
         && orphans <= met && met !! todo && n !in met
       case Retired => node.out == {} && node.inc !! node.over
  }

  /** u's record names v: v is live, has been linked into the graph and is not retired, and it
      records u exactly when u's operation says so. */
  predicate PairOk(u: Nid, nu: Node, v: Nid, nv: Node) {
    && !nv.phase.Retired? && !nv.phase.Created?
    && (u in Names(nv) <==> v !in Unanswered(nu))
  }

  ghost predicate Pairs(nodes: map<Nid, Node>) {
    forall u, v :: u in nodes && !nodes[u].phase.Retired? && v in Names(nodes[u]) ==>
      v in nodes && PairOk(u, nodes[u], v, nodes[v])
  }

  ghost predicate NodesOk(cap: nat, nodes: map<Nid, Node>) {
    forall u :: u in nodes ==> NodeOk(cap, u, nodes[u])
  }

  /** While an operation holds the operation lock exclusively, no other is in progress. */
  ghost predicate OpLock(nodes: map<Nid, Node>) {
    forall u, w :: u in nodes && w in nodes && u != w && HoldsExclusive(nodes[u].phase) ==> Idle(nodes[w].phase)
  }

  ghost predicate Threads(s: State) {
    && (forall t :: t in s.threads && s.threads[t].level == Exclusive ==> NoOneElseLocks(s, t))
    && (forall t :: t in s.threads && s.threads[t].level == Unlocked ==>
          s.threads[t].work == {} && s.threads[t].busy == None)
    && (forall t, n :: t in s.threads && n in s.threads[t].work ==>
          n in s.nodes && !s.nodes[n].phase.Retired? && !s.nodes[n].phase.Created?)
  }

  ghost predicate Owners(s: State) {
    && (forall n :: n in s.nodes && !s.nodes[n].phase.Settled? && !s.nodes[n].phase.Retired? ==>
          Runs(s, s.nodes[n].phase.owner, n))
    && (forall n :: n in s.nodes && s.nodes[n].phase.Unlinking? ==>
          s.threads[s.nodes[n].phase.owner].level == Exclusive)
  }

  /** Nodes met while unlinking keep an outgoing link of their own unless they are orphans. */
  ghost predicate Met(nodes: map<Nid, Node>) {
    forall n, v :: n in nodes && nodes[n].phase.Unlinking? && v in nodes[n].phase.met ==>
      v in nodes && nodes[v].phase.Settled? && (v in nodes[n].phase.orphans <==> nodes[v].out == {})
  }

  /** The new list of a replacement consists of nodes its thread holds on to. */
  ghost predicate Wanted(s: State) {
    forall n :: n in s.nodes && (s.nodes[n].phase.Dropping? || s.nodes[n].phase.Keeping?) ==>
      s.nodes[n].phase.owner in s.threads && s.nodes[n].phase.want <= s.threads[s.nodes[n].phase.owner].work
  }

  ghost predicate Inv(cap: nat, s: State) {
    && NodesOk(cap, s.nodes) && Pairs(s.nodes) && OpLock(s.nodes) && Met(s.nodes)
    && Threads(s) && Owners(s) && Wanted(s)
  }
}
