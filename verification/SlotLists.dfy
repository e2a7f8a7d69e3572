/** A node's primary neighbour list slot by slot: how its links are staged in a scratch buffer,
    compacted in place, and written back to the slots they came from. */
module SlotLists {

  type Nid = nat

  datatype Slot = Empty | Link(nid: Nid, incoming: bool)

  /** The links of a list, wherever they stand. */
  function Links(list: seq<Slot>): (s: set<Slot>) {
    set x | x in list && x.Link?
  }

  /** No name stands in two slots. */
  ghost predicate Tidy(list: seq<Slot>) {
    forall j, k :: 0 <= j < k < |list| && list[j].Link? && list[k].Link? ==> list[j].nid != list[k].nid
  }

  predicate Named(list: seq<Slot>, v: Nid) {
    exists k :: 0 <= k < |list| && list[k].Link? && list[k].nid == v
  }

  ghost predicate Distinct(ns: seq<Nid>) {
    forall j, k :: 0 <= j < k < |ns| ==> ns[j] != ns[k]
  }

  // ------------------------------------------------------------------------------------------
  // Staging.

  /** `mem` is the list as read, `buf` the same memory with its front reused for the links to
      write, links[i] the slot buf[i] goes to, `plan` what the slots looked at so far become. */
  ghost predicate Staged(record: seq<Slot>, mem: seq<Slot>, buf: seq<Slot>, links: seq<nat>, num: nat,
                         plan: seq<Slot>) {
    && num <= |plan| <= |record| && |mem| == |buf| == |links| == |record|
    && (forall k :: |plan| <= k < |buf| ==> buf[k] == mem[k])
    && (forall i :: 0 <= i < num ==> links[i] < |plan| && buf[i] == plan[links[i]])
    && (forall i, j :: 0 <= i < j < num ==> links[i] < links[j])
    && forall k :: 0 <= k < |plan| ==> plan[k] == record[k] || k in links[..num]
  }

  lemma StagedSkip(record: seq<Slot>, mem: seq<Slot>, buf: seq<Slot>, links: seq<nat>, num: nat, plan: seq<Slot>)
    requires Staged(record, mem, buf, links, num, plan) && |plan| < |record|
    ensures Staged(record, mem, buf, links, num, plan + [record[|plan|]])
  {
  }

  lemma StagedRoom(record: seq<Slot>, mem: seq<Slot>, buf: seq<Slot>, links: seq<nat>, num: nat, plan: seq<Slot>)
    requires Staged(record, mem, buf, links, num, plan) && |plan| < |record|
    ensures num < |buf| == |links| == |record|
  {
  }

  lemma StagedWrite(record: seq<Slot>, mem: seq<Slot>, buf: seq<Slot>, links: seq<nat>, num: nat, plan: seq<Slot>,
                    value: Slot)
    requires Staged(record, mem, buf, links, num, plan) && |plan| < |record|
    ensures Staged(record, mem, buf[num := value], links[num := |plan|], num + 1, plan + [value])
  {
    var links' := links[num := |plan|];
    assert links'[..num + 1] == links[..num] + [|plan|];
  }

  /** The update: every staged link goes to its slot, in ascending order, and all other slots stay. */
  method WriteStaged(record: array<Slot>, buf: array<Slot>, links: array<nat>, num: nat,
                     ghost from: seq<Slot>, ghost mem: seq<Slot>, ghost plan: seq<Slot>)
    requires record != buf && Staged(from, mem, buf[..], links[..], num, plan) && |plan| == record.Length == |from|
    modifies record
    ensures forall k :: 0 <= k < |plan| ==> record[k] == if k in links[..num] then plan[k] else old(record[k])
  {
    ghost var before := record[..];
    for i := 0 to num
      invariant forall k :: 0 <= k < |plan| ==> record[k] == if k in links[..i] then plan[k] else before[k]
    {
      assert links[..i + 1] == links[..i] + [links[i]];
      record[links[i]] := buf[i];
    }
  }

  /** The update of a list that has not changed since it was read. */
  method WriteBack(record: array<Slot>, buf: array<Slot>, links: array<nat>, num: nat, ghost mem: seq<Slot>,
                   ghost plan: seq<Slot>)
    requires record != buf && Staged(record[..], mem, buf[..], links[..], num, plan) && |plan| == record.Length
    modifies record
    ensures record[..] == plan
  {
    WriteStaged(record, buf, links, num, record[..], mem, plan);
  }

  lemma StagedStart(record: seq<Slot>, mem: seq<Slot>, links: seq<nat>)
    requires |mem| == |links| == |record|
    ensures Staged(record, mem, mem, links, 0, [])
  {
  }

  lemma StagedRead(record: seq<Slot>, mem: seq<Slot>, buf: seq<Slot>, links: seq<nat>, num: nat, plan: seq<Slot>)
    requires Staged(record, mem, buf, links, num, plan)
    ensures num <= |plan| && |mem| == |buf| == |record| && (|plan| < |record| ==> buf[|plan|] == mem[|plan|])
  {
  }

  /** Stages a link for the slot being looked at. */
  method Stage(buf: array<Slot>, links: array<nat>, num: nat, slot: nat, value: Slot,
               ghost record: seq<Slot>, ghost mem: seq<Slot>, ghost plan: seq<Slot>)
    returns (num': nat, ghost plan': seq<Slot>)
    requires Staged(record, mem, buf[..], links[..], num, plan) && slot == |plan| < |record|
    modifies buf, links
    ensures plan' == plan + [value] && Staged(record, mem, buf[..], links[..], num', plan')
  {
    StagedWrite(record, mem, buf[..], links[..], num, plan, value);
    buf[num] := value;
    links[num] := slot;
    num', plan' := num + 1, plan + [value];
  }

  method Load(record: array<Slot>, buf: array<Slot>)
    requires record != buf && buf.Length == record.Length
    modifies buf
    ensures buf[..] == record[..]
  {
    forall k | 0 <= k < buf.Length {
      buf[k] := record[k];
    }
  }

  // ------------------------------------------------------------------------------------------
  // Updates that change each slot by itself.

  function Confirmed(s: Slot): (r: Slot) {
    if s.Link? && s.incoming then Link(s.nid, false) else s
  }

  function Demoted(s: Slot, keep: seq<Nid>): (r: Slot) {
    if s.Link? && !s.incoming && s.nid !in keep then Link(s.nid, true) else s
  }

  function DemotedAlways(s: Slot): (r: Slot) {
    if s.Link? then Link(s.nid, true) else s
  }

  function Freed(s: Slot, orphans: set<Nid>): (r: Slot) {
    if s.Link? && s.nid !in orphans then Empty else s
  }

  /** Every slot looked at so far is to become what f makes of it. */
  ghost predicate PlannedBy(f: Slot -> Slot, list: seq<Slot>, plan: seq<Slot>) {
    |plan| <= |list| && forall k :: 0 <= k < |plan| ==> plan[k] == f(list[k])
  }

  lemma NonePlanned(f: Slot -> Slot, list: seq<Slot>)
    ensures PlannedBy(f, list, [])
  {
  }

  lemma PlannedNext(f: Slot -> Slot, list: seq<Slot>, plan: seq<Slot>)
    requires PlannedBy(f, list, plan) && |plan| < |list|
    ensures PlannedBy(f, list, plan + [f(list[|plan|])])
  {
  }

  lemma PlannedAt(f: Slot -> Slot, list: seq<Slot>, plan: seq<Slot>)
    requires PlannedBy(f, list, plan)
    ensures forall k :: 0 <= k < |plan| ==> k < |list| && plan[k] == f(list[k])
  {
  }

  predicate IsFlagged(s: Slot) {
    s.Link? && s.incoming
  }

  /** Only flagged links of the list are staged. */
  ghost predicate FlaggedStaged(list: seq<Slot>, links: seq<nat>, num: nat) {
    num <= |links| && forall i :: 0 <= i < num ==> links[i] < |list| && IsFlagged(list[links[i]])
  }

  lemma NoneFlagged(list: seq<Slot>, links: seq<nat>)
    ensures FlaggedStaged(list, links, 0)
  {
  }

  lemma OneMoreFlagged(list: seq<Slot>, links: seq<nat>, num: nat, slot: nat)
    requires FlaggedStaged(list, links, num) && num < |links| && slot < |list| && IsFlagged(list[slot])
    ensures FlaggedStaged(list, links[num := slot], num + 1)
  {
  }

  /** Linking starts by reading the list: the flagged links, unflagged, and the slots they stand in. */
  method ReadIncoming(record: array<Slot>, buf: array<Slot>, links: array<nat>)
    returns (num: nat, ghost plan: seq<Slot>)
    requires record != buf && buf.Length == links.Length == record.Length
    modifies buf, links
    ensures Staged(record[..], record[..], buf[..], links[..], num, plan) && |plan| == record.Length
    ensures forall k :: 0 <= k < record.Length ==> plan[k] == Confirmed(record[k])
    ensures FlaggedStaged(record[..], links[..], num)
  {
    hide Staged, PlannedBy, FlaggedStaged;
    Load(record, buf);
    ghost var before := record[..];
    plan := [];
    num := 0;
    StagedStart(before, before, links[..]);
    ghost var f := Confirmed;
    NonePlanned(f, before);
    assert FlaggedStaged(before, links[..], 0) by { NoneFlagged(before, links[..]); }
    for slot := 0 to record.Length
      invariant record[..] == before && Staged(before, before, buf[..], links[..], num, plan) && |plan| == slot
      invariant PlannedBy(f, before, plan)
      invariant FlaggedStaged(before, links[..], num)
    {
      StagedRead(before, before, buf[..], links[..], num, plan);
      PlannedNext(f, before, plan);
      var current := buf[slot];
      if !current.Link? || !current.incoming {
        StagedSkip(before, before, buf[..], links[..], num, plan);
        plan := plan + [before[slot]];
      } else {
        StagedRoom(before, before, buf[..], links[..], num, plan);
        StagedWrite(before, before, buf[..], links[..], num, plan, Link(current.nid, false));
        OneMoreFlagged(before, links[..], num, slot);
        buf[num], links[num] := Link(current.nid, false), slot;
        num, plan := num + 1, plan + [Link(current.nid, false)];
      }
    }
    PlannedAt(f, before, plan);
  }

  /** The flagged links are those of the list as it was read. Links that others have landed in free
      slots since then are not flagged. */
  ghost predicate SameFlagged(read: seq<Slot>, now: seq<Slot>) {
    |now| == |read| && forall k :: 0 <= k < |read| && (IsFlagged(read[k]) || IsFlagged(now[k])) ==> now[k] == read[k]
  }

  lemma LandingKeepsFlagged(read: seq<Slot>, now: seq<Slot>, k: nat, v: Nid)
    requires SameFlagged(read, now) && k < |now| && now[k].Empty?
    ensures SameFlagged(read, now[k := Link(v, false)])
  {
  }

  /** The last step of linking: every flagged link becomes an outgoing one, in its own slot, and
      whatever has landed in the list since it was read stays. */
  method ConfirmIncoming(record: array<Slot>, buf: array<Slot>, links: array<nat>, num: nat, ghost read: seq<Slot>,
                         ghost plan: seq<Slot>)
    requires record != buf && buf.Length == links.Length == record.Length && SameFlagged(read, record[..])
    requires Staged(read, read, buf[..], links[..], num, plan) && |plan| == record.Length
    requires forall k :: 0 <= k < |read| ==> plan[k] == Confirmed(read[k])
    requires FlaggedStaged(read, links[..], num)
    modifies record
    ensures forall k :: 0 <= k < record.Length ==> record[k] == Confirmed(old(record[k]))
  {
    ghost var before := record[..];
    WriteStaged(record, buf, links, num, read, read, plan);
    forall k | 0 <= k < record.Length ensures record[k] == Confirmed(before[k]) {
      if k in links[..num] {
        var i :| 0 <= i < num && links[i] == k;
        assert IsFlagged(read[k]);
      } else {
        assert plan[k] == read[k];
      }
    }
  }

  /** Step A of a replacement: outgoing links the new list does not name become incoming ones. */
  method DemoteDropped(record: array<Slot>, buf: array<Slot>, links: array<nat>, keep: seq<Nid>)
    requires record != buf && buf.Length == links.Length == record.Length
    modifies record, buf, links
    ensures forall k :: 0 <= k < record.Length ==> record[k] == Demoted(old(record[k]), keep)
  {
    hide Staged, PlannedBy;
    Load(record, buf);
    ghost var before := record[..];
    ghost var plan: seq<Slot> := [];
    var num := 0;
    StagedStart(before, before, links[..]);
    ghost var f := (s: Slot) => Demoted(s, keep);
    NonePlanned(f, before);
    for slot := 0 to record.Length
      invariant record[..] == before && Staged(before, before, buf[..], links[..], num, plan) && |plan| == slot
      invariant PlannedBy(f, before, plan)
    {
      StagedRead(before, before, buf[..], links[..], num, plan);
      PlannedNext(f, before, plan);
      var current := buf[slot];
      if !current.Link? || current.incoming || current.nid in keep {
        StagedSkip(before, before, buf[..], links[..], num, plan);
        plan := plan + [before[slot]];
      } else {
        num, plan := Stage(buf, links, num, slot, Link(current.nid, true), before, before, plan);
      }
    }
    WriteBack(record, buf, links, num, before, plan);
    PlannedAt(f, before, plan);
  }

  /** The first step of unlinking: the node keeps recording whom to visit, but has no outgoing link any more. */
  method DemoteAll(record: array<Slot>, buf: array<Slot>, links: array<nat>)
    requires record != buf && buf.Length == links.Length == record.Length
    modifies record, buf, links
    ensures forall k :: 0 <= k < record.Length ==> record[k] == DemotedAlways(old(record[k]))
  {
    hide Staged, PlannedBy;
    Load(record, buf);
    ghost var before := record[..];
    ghost var plan: seq<Slot> := [];
    var num := 0;
    StagedStart(before, before, links[..]);
    ghost var f := DemotedAlways;
    NonePlanned(f, before);
    for slot := 0 to record.Length
      invariant record[..] == before && Staged(before, before, buf[..], links[..], num, plan) && |plan| == slot
      invariant PlannedBy(f, before, plan)
    {
      StagedRead(before, before, buf[..], links[..], num, plan);
      PlannedNext(f, before, plan);
      var current := buf[slot];
      if !current.Link? {
        StagedSkip(before, before, buf[..], links[..], num, plan);
        plan := plan + [before[slot]];
      } else {
        num, plan := Stage(buf, links, num, slot, Link(current.nid, true), before, before, plan);
      }
    }
    WriteBack(record, buf, links, num, before, plan);
    PlannedAt(f, before, plan);
  }

  /** The last step of unlinking: every slot is freed but those of orphaned neighbours. */
  method FreeSevered(record: array<Slot>, buf: array<Slot>, links: array<nat>, orphans: set<Nid>)
    requires record != buf && buf.Length == links.Length == record.Length
    modifies record, buf, links
    ensures forall k :: 0 <= k < record.Length ==> record[k] == Freed(old(record[k]), orphans)
  {
    hide Staged, PlannedBy;
    Load(record, buf);
    ghost var before := record[..];
    ghost var plan: seq<Slot> := [];
    var num := 0;
    StagedStart(before, before, links[..]);
    ghost var f := (s: Slot) => Freed(s, orphans);
    NonePlanned(f, before);
    for slot := 0 to record.Length
      invariant record[..] == before && Staged(before, before, buf[..], links[..], num, plan) && |plan| == slot
      invariant PlannedBy(f, before, plan)
    {
      StagedRead(before, before, buf[..], links[..], num, plan);
      PlannedNext(f, before, plan);
      var current := buf[slot];
      if !current.Link? || current.nid in orphans {
        StagedSkip(before, before, buf[..], links[..], num, plan);
        plan := plan + [before[slot]];
      } else {
        num, plan := Stage(buf, links, num, slot, Empty, before, before, plan);
      }
    }
    WriteBack(record, buf, links, num, before, plan);
    PlannedAt(f, before, plan);
  }

  // ------------------------------------------------------------------------------------------
  // Writing the new list of a replacement.

  predicate Keeps(s: Slot, want: seq<Nid>) {
    s.Link? && s.nid in want
  }

  function KeptNames(mem: seq<Slot>, want: seq<Nid>): (r: set<Nid>) {
    if mem == [] then {}
    else
      var last := mem[|mem| - 1];
      KeptNames(mem[..|mem| - 1], want) + (if Keeps(last, want) then {last.nid} else {})
  }

  lemma {:induction false} KeptNamesAre(mem: seq<Slot>, want: seq<Nid>, v: Nid)
    ensures v in KeptNames(mem, want) <==> Named(mem, v) && v in want
  {
    if mem != [] {
      var front := mem[..|mem| - 1];
      KeptNamesAre(front, want, v);
      if Named(front, v) {
        var k :| 0 <= k < |front| && front[k].Link? && front[k].nid == v;
        assert mem[k] == front[k];
      }
      if k :| 0 <= k < |mem| && mem[k].Link? && mem[k].nid == v {
        assert k < |front| ==> front[k] == mem[k];
      }
    }
  }

  function KeptCount(mem: seq<Slot>, want: seq<Nid>): (n: nat)
    ensures n <= |mem|
  {
    if mem == [] then 0
    else KeptCount(mem[..|mem| - 1], want) + (if Keeps(mem[|mem| - 1], want) then 1 else 0)
  }

  lemma {:induction false} KeptOnce(mem: seq<Slot>, want: seq<Nid>)
    requires Tidy(mem)
    ensures |KeptNames(mem, want)| == KeptCount(mem, want)
  {
    if mem != [] {
      var front, last := mem[..|mem| - 1], mem[|mem| - 1];
      KeptOnce(front, want);
      if Keeps(last, want) {
        KeptNamesAre(front, want, last.nid);
      }
    }
  }

  function SetOf(ns: seq<Nid>): (r: set<Nid>) {
    set v | v in ns
  }

  lemma {:induction false} SetOfDistinct(ns: seq<Nid>)
    requires Distinct(ns)
    ensures |SetOf(ns)| == |ns|
  {
    if ns != [] {
      var front, last := ns[..|ns| - 1], ns[|ns| - 1];
      SetOfDistinct(front);
      assert SetOf(ns) == SetOf(front) + {last};
    }
  }

  function NidsOf(staged: seq<Slot>): (ns: seq<Nid>)
    requires forall i :: 0 <= i < |staged| ==> staged[i].Link?
    ensures |ns| == |staged| && forall i :: 0 <= i < |ns| ==> ns[i] == staged[i].nid
  {
    seq(|staged|, i requires 0 <= i < |staged| => staged[i].nid)
  }

  /** The links to add: the wanted names the list does not have, each once. */
  ghost predicate ToAdd(mem: seq<Slot>, want: seq<Nid>, staged: seq<Slot>) {
    && (forall i :: 0 <= i < |staged| ==> staged[i].Link? && staged[i].nid in want && !Named(mem, staged[i].nid))
    && (forall i, j :: 0 <= i < j < |staged| ==> staged[i].nid != staged[j].nid)
    && forall v :: v in want && !Named(mem, v) ==> exists i :: 0 <= i < |staged| && staged[i].nid == v
  }

  /** There is always room: kept and added names together are the wanted ones. */
  lemma AlwaysRoom(mem: seq<Slot>, want: seq<Nid>, staged: seq<Slot>)
    requires Tidy(mem) && Distinct(want) && |want| <= |mem| && ToAdd(mem, want, staged)
    ensures KeptCount(mem, want) + |staged| <= |mem|
  {
    var kept, added := KeptNames(mem, want), SetOf(NidsOf(staged));
    KeptOnce(mem, want);
    SetOfDistinct(NidsOf(staged));
    SetOfDistinct(want);
    forall v | v in kept + added ensures v in SetOf(want) {
      KeptNamesAre(mem, want, v);
    }
    forall v | v in kept ensures v !in added {
      KeptNamesAre(mem, want, v);
    }
    SmallerSet(kept + added, SetOf(want));
    assert |kept + added| == |kept| + |added|;
  }

  lemma {:induction false} SmallerSet(a: set<Nid>, b: set<Nid>)
    requires a <= b
    ensures |a| <= |b|
  {
    assert b == a + (b - a);
  }

  /** What the slots looked at so far become: kept links as they were, staged ones in the others. */
  ghost predicate Filling(mem: seq<Slot>, want: seq<Nid>, staged: seq<Slot>, next: nat, plan: seq<Slot>) {
    && |plan| <= |mem| && next <= |staged| && Tidy(plan)
    && (forall k :: 0 <= k < |plan| && Keeps(mem[k], want) ==> plan[k] == mem[k])
    && (forall k :: 0 <= k < |plan| && !Keeps(mem[k], want) ==> plan[k] == Empty || plan[k] in staged[..next])
    && forall i :: 0 <= i < next ==> staged[i] in plan
  }

  lemma FillKept(mem: seq<Slot>, want: seq<Nid>, staged: seq<Slot>, next: nat, plan: seq<Slot>)
    requires Filling(mem, want, staged, next, plan) && ToAdd(mem, want, staged) && Tidy(mem)
    requires |plan| < |mem| && Keeps(mem[|plan|], want)
    ensures Filling(mem, want, staged, next, plan + [mem[|plan|]])
  {
    var plan' := plan + [mem[|plan|]];
    forall j | 0 <= j < |plan| && plan[j].Link? ensures plan[j].nid != mem[|plan|].nid {
      if !Keeps(mem[j], want) {
        var i :| 0 <= i < next && staged[i] == plan[j];
        assert !Named(mem, staged[i].nid);
      }
    }
    forall i | 0 <= i < next ensures staged[i] in plan' {
      assert staged[i] in plan;
    }
  }

  lemma FillEmpty(mem: seq<Slot>, want: seq<Nid>, staged: seq<Slot>, next: nat, plan: seq<Slot>)
    requires Filling(mem, want, staged, next, plan) && |plan| < |mem| && !Keeps(mem[|plan|], want)
    ensures Filling(mem, want, staged, next, plan + [Empty])
  {
    forall i | 0 <= i < next ensures staged[i] in plan + [Empty] {
      assert staged[i] in plan;
    }
  }

  lemma FillStaged(mem: seq<Slot>, want: seq<Nid>, staged: seq<Slot>, next: nat, plan: seq<Slot>)
    requires Filling(mem, want, staged, next, plan) && ToAdd(mem, want, staged)
    requires |plan| < |mem| && !Keeps(mem[|plan|], want) && next < |staged|
    ensures Filling(mem, want, staged, next + 1, plan + [staged[next]])
  {
    var plan' := plan + [staged[next]];
    forall j | 0 <= j < |plan| && plan[j].Link? ensures plan[j].nid != staged[next].nid {
      if Keeps(mem[j], want) {
        assert Named(mem, plan[j].nid);
      } else {
        var i :| 0 <= i < next && staged[i] == plan[j];
      }
    }
    forall k | 0 <= k < |plan'| && !Keeps(mem[k], want) ensures plan'[k] == Empty || plan'[k] in staged[..next + 1] {
      if k < |plan| && plan[k] != Empty {
        var i :| 0 <= i < next && staged[i] == plan[k];
        assert staged[..next + 1][i] == plan[k];
      } else if k == |plan| {
        assert staged[..next + 1][next] == plan'[k];
      }
    }
    forall i | 0 <= i < next + 1 ensures staged[i] in plan' {
      if i < next {
        assert staged[i] in plan;
      } else {
        assert plan'[|plan|] == staged[i];
      }
    }
  }

  /** The stored list differs from the one read only in flags of links that are being dropped. */
  ghost predicate SameButFlags(record: seq<Slot>, mem: seq<Slot>, want: seq<Nid>) {
    && |record| == |mem|
    && forall k :: 0 <= k < |mem| ==>
         (mem[k] == Empty || Keeps(mem[k], want) ==> record[k] == mem[k])
  }

  /** The new list as far as `plan` goes: staged in the scratch memory, and room left for the rest. */
  ghost predicate Writing(before: seq<Slot>, mem: seq<Slot>, buf: seq<Slot>, links: seq<nat>, num: nat,
                          want: seq<Nid>, staged: seq<Slot>, next: nat, plan: seq<Slot>) {
    && Staged(before, mem, buf, links, num, plan) && Filling(mem, want, staged, next, plan)
    && |plan| <= |mem| == |before| && Room(mem, want, staged, next, |plan|)
  }

  lemma WritingBegins(before: seq<Slot>, mem: seq<Slot>, links: seq<nat>, want: seq<Nid>, staged: seq<Slot>)
    requires SameButFlags(before, mem, want) && |links| == |mem| && Tidy(mem) && ToAdd(mem, want, staged)
    requires Distinct(want) && |want| <= |mem|
    ensures Writing(before, mem, mem, links, 0, want, staged, 0, [])
  {
    hide Staged, Filling, ToAdd, Room, Tidy, Distinct;
    assert |before| == |mem|;
    StagedStart(before, mem, links);
    FillNothing(mem, want, staged);
    AlwaysRoom(mem, want, staged);
    RoomAtFirst(mem, want, staged);
  }

  /** The next slot: a kept link stays, as does a free slot when nothing is left to place; any other
      slot takes the next staged link, or is cleared. */
  lemma WritingNext(before: seq<Slot>, mem: seq<Slot>, buf: seq<Slot>, links: seq<nat>, num: nat,
                    want: seq<Nid>, staged: seq<Slot>, next: nat, plan: seq<Slot>)
    requires SameButFlags(before, mem, want) && Tidy(mem) && ToAdd(mem, want, staged)
    requires |plan| < |before| && Writing(before, mem, buf, links, num, want, staged, next, plan)
    ensures num < |buf| == |links| && |plan| < |buf| && buf[|plan|] == mem[|plan|] && next <= |staged|
    ensures var current, slot := mem[|plan|], |plan|;
            if Keeps(current, want) || (next == |staged| && !current.Link?)
            then Writing(before, mem, buf, links, num, want, staged, next, plan + [before[slot]])
            else if next < |staged|
            then Writing(before, mem, buf[num := staged[next]], links[num := slot], num + 1, want, staged, next + 1,
                         plan + [staged[next]])
            else Writing(before, mem, buf[num := Empty], links[num := slot], num + 1, want, staged, next,
                         plan + [Empty])
  {
    hide Staged, Filling, ToAdd, Room, Tidy, Keeps, SameButFlags;
    var slot := |plan|;
    StagedRead(before, mem, buf, links, num, plan);
    StagedRoom(before, mem, buf, links, num, plan);
    FillingFits(mem, want, staged, next, plan);
    RoomNext(mem, want, staged, next, slot);
    SameAt(before, mem, want, slot);
    if Keeps(mem[slot], want) {
      FillKept(mem, want, staged, next, plan);
      StagedSkip(before, mem, buf, links, num, plan);
    } else if next < |staged| {
      FillStaged(mem, want, staged, next, plan);
      StagedWrite(before, mem, buf, links, num, plan, staged[next]);
    } else {
      FillEmpty(mem, want, staged, next, plan);
      StagedSkip(before, mem, buf, links, num, plan);
      StagedWrite(before, mem, buf, links, num, plan, Empty);
    }
  }

  lemma FillingFits(mem: seq<Slot>, want: seq<Nid>, staged: seq<Slot>, next: nat, plan: seq<Slot>)
    requires Filling(mem, want, staged, next, plan)
    ensures next <= |staged|
  {
  }

  lemma WritingEnds(before: seq<Slot>, mem: seq<Slot>, buf: seq<Slot>, links: seq<nat>, num: nat,
                    want: seq<Nid>, staged: seq<Slot>, next: nat, plan: seq<Slot>)
    requires |plan| == |mem| && Writing(before, mem, buf, links, num, want, staged, next, plan)
    ensures Staged(before, mem, buf, links, num, plan) && Filling(mem, want, staged, |staged|, plan)
  {
    hide Staged, Filling;
    FillingFits(mem, want, staged, next, plan);
    RoomAtLast(mem, want, staged, next);
  }

  /** Step D: kept links stay where they are, staged ones take the slots that are free or whose
      link is dropped, and dropped slots left over are cleared. */
  method WriteNewList(record: array<Slot>, buf: array<Slot>, links: array<nat>, want: seq<Nid>, staged: seq<Slot>)
    requires record != buf && buf.Length == links.Length == record.Length
    requires SameButFlags(record[..], buf[..], want) && Tidy(buf[..]) && ToAdd(buf[..], want, staged)
    requires Distinct(want) && |want| <= record.Length
    modifies record, buf, links
    ensures Filling(old(buf[..]), want, staged, |staged|, record[..]) && |record[..]| == |old(buf[..])|
  {
    hide Staged, Writing, Filling, ToAdd, SameButFlags, Tidy, Keeps, Distinct;
    ghost var before, mem := record[..], buf[..];
    ghost var plan: seq<Slot> := [];
    var num, next := 0, 0;
    WritingBegins(before, mem, links[..], want, staged);
    for slot := 0 to record.Length
      invariant record[..] == before && Writing(before, mem, buf[..], links[..], num, want, staged, next, plan)
      invariant |plan| == slot
    {
      WritingNext(before, mem, buf[..], links[..], num, want, staged, next, plan);
      var current := buf[slot];
      if Keeps(current, want) {
        plan := plan + [before[slot]];
      } else if next < |staged| {
        plan := plan + [staged[next]];
        buf[num], links[num] := staged[next], slot;
        num, next := num + 1, next + 1;
      } else if !current.Link? {
        plan := plan + [before[slot]];
      } else {
        plan := plan + [Empty];
        buf[num], links[num] := Empty, slot;
        num := num + 1;
      }
    }
    WritingEnds(before, mem, buf[..], links[..], num, want, staged, next, plan);
    WriteBack(record, buf, links, num, mem, plan);
  }

  /** The slots still to come take the staged links still to come. */
  predicate Room(mem: seq<Slot>, want: seq<Nid>, staged: seq<Slot>, next: nat, slot: nat)
    requires slot <= |mem|
  {
    |staged| - next <= (|mem| - slot) - (KeptCount(mem, want) - KeptCount(mem[..slot], want))
  }

  lemma RoomAtFirst(mem: seq<Slot>, want: seq<Nid>, staged: seq<Slot>)
    requires KeptCount(mem, want) + |staged| <= |mem|
    ensures Room(mem, want, staged, 0, 0)
  {
  }

  lemma RoomNext(mem: seq<Slot>, want: seq<Nid>, staged: seq<Slot>, next: nat, slot: nat)
    requires slot < |mem| && next <= |staged| && Room(mem, want, staged, next, slot)
    ensures Keeps(mem[slot], want) || next == |staged| ==> Room(mem, want, staged, next, slot + 1)
    ensures !Keeps(mem[slot], want) && next < |staged| ==> Room(mem, want, staged, next + 1, slot + 1)
  {
    KeptCountNext(mem, want, slot);
    FewKept(mem, want, slot + 1);
  }

  lemma FewKept(mem: seq<Slot>, want: seq<Nid>, slot: nat)
    requires slot <= |mem|
    ensures KeptCount(mem, want) - KeptCount(mem[..slot], want) <= |mem| - slot
    decreases |mem| - slot
  {
    if slot < |mem| {
      KeptCountNext(mem, want, slot);
      FewKept(mem, want, slot + 1);
    } else {
      assert mem[..slot] == mem;
    }
  }

  lemma RoomAtLast(mem: seq<Slot>, want: seq<Nid>, staged: seq<Slot>, next: nat)
    requires Room(mem, want, staged, next, |mem|) && next <= |staged|
    ensures next == |staged|
  {
    assert mem[..|mem|] == mem;
  }

  lemma SameAt(record: seq<Slot>, mem: seq<Slot>, want: seq<Nid>, k: nat)
    requires SameButFlags(record, mem, want) && k < |mem|
    ensures |record| == |mem| && (mem[k] == Empty || Keeps(mem[k], want) ==> record[k] == mem[k])
  {
  }

  lemma FillNothing(mem: seq<Slot>, want: seq<Nid>, staged: seq<Slot>)
    ensures Filling(mem, want, staged, 0, [])
  {
  }

  lemma KeptCountNext(mem: seq<Slot>, want: seq<Nid>, k: nat)
    requires k < |mem|
    ensures KeptCount(mem[..k + 1], want) == KeptCount(mem[..k], want) + (if Keeps(mem[k], want) then 1 else 0)
    ensures KeptCount(mem[..k + 1], want) <= KeptCount(mem, want)
    decreases |mem| - k
  {
    assert mem[..k + 1][..k] == mem[..k];
    if k + 1 < |mem| {
      KeptCountNext(mem, want, k + 1);
    } else {
      assert mem[..k + 1] == mem;
    }
  }

  /** Scans the list for a name. */
  method Present(buf: array<Slot>, target: Nid) returns (present: bool)
    ensures present <==> Named(buf[..], target)
  {
    present := false;
    var slot := 0;
    while slot < buf.Length && !present
      invariant slot <= buf.Length
      invariant present ==> Named(buf[..], target)
      invariant !present ==> forall k :: 0 <= k < slot ==> !(buf[k].Link? && buf[k].nid == target)
    {
      present := buf[slot].Link? && buf[slot].nid == target;
      assert present ==> buf[..][slot].Link?;
      slot := slot + 1;
    }
  }

  /** A staged link is flagged unless the chain records it. */
  ghost predicate FlaggedUnless(staged: seq<Slot>, chained: set<Nid>) {
    forall i :: 0 <= i < |staged| ==> staged[i].Link? && staged[i].incoming == (staged[i].nid !in chained)
  }

  /** Step C: the wanted links the list does not have yet, flagged incoming unless the overflow
      chain already records them. */
  method StageTargets(buf: array<Slot>, want: seq<Nid>, chained: set<Nid>) returns (staged: seq<Slot>)
    requires Distinct(want)
    ensures ToAdd(buf[..], want, staged) && FlaggedUnless(staged, chained)
  {
    hide ToAdd, Named, Distinct, FlaggedUnless;
    ghost var mem := buf[..];
    staged := [];
    NothingToAdd(mem, chained);
    assert want[..0] == [];
    for t := 0 to |want|
      invariant ToAdd(mem, want[..t], staged) && FlaggedUnless(staged, chained)
    {
      var target := want[t];
      var present := Present(buf, target);
      var incoming := target !in chained;
      AddTarget(mem, want, t, staged, incoming);
      OneMoreFlag(staged, chained, target, incoming);
      if !present {
        staged := staged + [Link(target, incoming)];
      }
    }
    assert want[..|want|] == want;
  }

  lemma NothingToAdd(mem: seq<Slot>, chained: set<Nid>)
    ensures ToAdd(mem, [], []) && FlaggedUnless([], chained)
  {
  }

  lemma OneMoreFlag(staged: seq<Slot>, chained: set<Nid>, v: Nid, incoming: bool)
    requires FlaggedUnless(staged, chained) && (incoming <==> v !in chained)
    ensures FlaggedUnless(staged + [Link(v, incoming)], chained)
  {
  }

  lemma AddTarget(mem: seq<Slot>, want: seq<Nid>, t: nat, staged: seq<Slot>, incoming: bool)
    requires t < |want| && Distinct(want) && ToAdd(mem, want[..t], staged)
    ensures ToAdd(mem, want[..t + 1], if Named(mem, want[t]) then staged else staged + [Link(want[t], incoming)])
  {
    var staged' := if Named(mem, want[t]) then staged else staged + [Link(want[t], incoming)];
    assert want[..t + 1] == want[..t] + [want[t]];
    forall v | v in want[..t + 1] && !Named(mem, v) ensures exists i :: 0 <= i < |staged'| && staged'[i].nid == v {
      if v in want[..t] {
        var i :| 0 <= i < |staged| && staged[i].nid == v;
        assert staged'[i].nid == v;
      } else {
        assert staged'[|staged|].nid == v;
      }
    }
  }

  /** A replacement as far as the node's own list goes: it ends with exactly the wanted links, each
      once and confirmed, and kept ones have not moved. */
  method ReplaceOwnList(record: array<Slot>, buf: array<Slot>, scratch: array<Slot>, links: array<nat>, want: seq<Nid>,
                        chained: set<Nid>)
    requires record != buf && record != scratch && buf != scratch
    requires buf.Length == scratch.Length == links.Length == record.Length
    requires Tidy(record[..]) && Distinct(want) && |want| <= record.Length
    modifies record, buf, scratch, links
    ensures Tidy(record[..]) && forall v :: Named(record[..], v) <==> v in want
    ensures forall k :: 0 <= k < record.Length && record[k].Link? ==> !record[k].incoming
    ensures forall k :: 0 <= k < record.Length && Keeps(old(record[k]), want) ==>
              record[k] == Link(old(record[k]).nid, false)
  {
    hide Tidy, Filling, ToAdd, Distinct;
    ghost var mem := record[..];
    Load(record, buf);
    DemoteDropped(record, scratch, links, want);
    assert SameButFlags(record[..], mem, want);
    var staged := StageTargets(buf, want, chained);
    WriteNewList(record, buf, links, want, staged);
    ghost var filled := record[..];
    FilledNames(mem, want, staged, filled);
    var num;
    ghost var plan;
    num, plan := ReadIncoming(record, scratch, links);
    ConfirmIncoming(record, scratch, links, num, filled, plan);
    ConfirmedNames(filled, record[..]);
  }

  lemma FilledNames(mem: seq<Slot>, want: seq<Nid>, staged: seq<Slot>, filled: seq<Slot>)
    requires Filling(mem, want, staged, |staged|, filled) && |filled| == |mem| && ToAdd(mem, want, staged)
    ensures Tidy(filled) && (forall v :: Named(filled, v) <==> v in want)
    ensures forall k :: 0 <= k < |mem| && Keeps(mem[k], want) ==> filled[k] == mem[k]
  {
    forall v ensures Named(filled, v) <==> v in want {
      if v in want {
        if Named(mem, v) {
          var k :| 0 <= k < |mem| && mem[k].Link? && mem[k].nid == v;
          assert filled[k] == mem[k];
        } else {
          var i :| 0 <= i < |staged| && staged[i].nid == v;
          assert staged[i] in filled;
        }
      }
      if Named(filled, v) {
        var k :| 0 <= k < |filled| && filled[k].Link? && filled[k].nid == v;
        assert Keeps(mem[k], want) || filled[k] in staged[..|staged|];
      }
    }
  }

  lemma ConfirmedNames(before: seq<Slot>, after: seq<Slot>)
    requires |after| == |before| && forall k :: 0 <= k < |before| ==> after[k] == Confirmed(before[k])
    ensures Tidy(before) ==> Tidy(after)
    ensures forall v :: Named(after, v) <==> Named(before, v)
  {
    forall v ensures Named(after, v) <==> Named(before, v) {
      if Named(after, v) {
        var k :| 0 <= k < |after| && after[k].Link? && after[k].nid == v;
        assert before[k].Link? && before[k].nid == v;
      }
      if Named(before, v) {
        var k :| 0 <= k < |before| && before[k].Link? && before[k].nid == v;
        assert after[k].Link? && after[k].nid == v;
      }
    }
  }
}
