/** The slot updates of a primary list do to it, seen as sets of outgoing and incoming links, what
    the steps of the link protocol say. */
module SlotRefinement {
  import opened SlotLists
  import P = LinkProtocol

  function OutOf(list: seq<Slot>): (s: set<Nid>) {
    set x | x in list && x.Link? && !x.incoming :: x.nid
  }

  function IncOf(list: seq<Slot>): (s: set<Nid>) {
    set x | x in list && x.Link? && x.incoming :: x.nid
  }

  /** The record of a node with this primary list. */
  function Abstract(list: seq<Slot>, over: set<Nid>, phase: P.Phase): (n: P.Node) {
    P.Node(OutOf(list), IncOf(list), over, phase)
  }

  lemma OutAt(list: seq<Slot>, v: Nid)
    ensures v in OutOf(list) <==> exists k :: 0 <= k < |list| && list[k] == Link(v, false)
  {
    if v in OutOf(list) {
      assert Link(v, false) in list;
    }
  }

  lemma IncAt(list: seq<Slot>, v: Nid)
    ensures v in IncOf(list) <==> exists k :: 0 <= k < |list| && list[k] == Link(v, true)
  {
    if v in IncOf(list) {
      assert Link(v, true) in list;
    }
  }

  lemma NamedAt(list: seq<Slot>, v: Nid)
    ensures Named(list, v) <==> v in OutOf(list) + IncOf(list)
  {
    OutAt(list, v);
    IncAt(list, v);
    if Named(list, v) {
      var k :| 0 <= k < |list| && list[k].Link? && list[k].nid == v;
      assert list[k] == Link(v, list[k].incoming);
    }
  }

  /** Confirming: what LinkProtocol.Confirmed does. */
  lemma ConfirmRefines(before: seq<Slot>, after: seq<Slot>, over: set<Nid>, phase: P.Phase)
    requires |after| == |before| && forall k :: 0 <= k < |before| ==> after[k] == Confirmed(before[k])
    ensures Abstract(after, over, P.Settled) == P.Confirmed(Abstract(before, over, phase))
  {
    forall v ensures (v in OutOf(after) <==> v in OutOf(before) + IncOf(before)) && v !in IncOf(after) {
      OutAt(before, v);
      IncAt(before, v);
      OutAt(after, v);
      IncAt(after, v);
      if k :| 0 <= k < |before| && before[k] == Link(v, true) {
        assert after[k] == Link(v, false);
      }
      if k :| 0 <= k < |before| && before[k] == Link(v, false) {
        assert after[k] == Link(v, false);
      }
      if k :| 0 <= k < |after| && after[k] == Link(v, false) {
        assert before[k] == Link(v, false) || before[k] == Link(v, true);
      }
    }
    assert OutOf(after) == OutOf(before) + IncOf(before);
    assert IncOf(after) == {};
  }

  /** Step A: what LinkProtocol.Demoted does. */
  lemma DemoteRefines(before: seq<Slot>, after: seq<Slot>, over: set<Nid>, phase: P.Phase, t: P.Tid, want: seq<Nid>)
    requires Tidy(before) && |after| == |before| &&
             forall k :: 0 <= k < |before| ==> after[k] == Demoted(before[k], want)
    ensures var node := P.Demoted(Abstract(before, over, phase), t, SetOf(want));
            Abstract(after, over, node.phase) == node
  {
    forall v
      ensures v in OutOf(after) <==> v in OutOf(before) && v in want
      ensures v in IncOf(after) <==> v in IncOf(before) || (v in OutOf(before) && v !in want)
    {
      OutAt(before, v);
      IncAt(before, v);
      OutAt(after, v);
      IncAt(after, v);
      if k :| 0 <= k < |before| && before[k] == Link(v, true) {
        assert after[k] == Link(v, true);
      }
      if k :| 0 <= k < |before| && before[k] == Link(v, false) {
        assert after[k] == Link(v, v !in want);
      }
      if k :| 0 <= k < |after| && after[k] == Link(v, false) {
        assert before[k] == Link(v, false);
      }
      if k :| 0 <= k < |after| && after[k] == Link(v, true) {
        assert before[k] == Link(v, false) || before[k] == Link(v, true);
      }
    }
    assert OutOf(after) == OutOf(before) * SetOf(want);
    assert IncOf(after) == IncOf(before) + (OutOf(before) - SetOf(want));
  }

  /** The first step of unlinking: what LinkProtocol.UnlinkOwn does. */
  lemma DemoteAllRefines(before: seq<Slot>, after: seq<Slot>, over: set<Nid>, phase: P.Phase, t: P.Tid)
    requires |after| == |before| && forall k :: 0 <= k < |before| ==> after[k] == DemotedAlways(before[k])
    ensures var node := P.UnlinkOwn(Abstract(before, over, phase), t);
            Abstract(after, over, node.phase) == node
  {
    forall v ensures v !in OutOf(after) && (v in IncOf(after) <==> v in IncOf(before) || v in OutOf(before)) {
      OutAt(before, v);
      IncAt(before, v);
      OutAt(after, v);
      IncAt(after, v);
      if k :| 0 <= k < |before| && before[k] == Link(v, true) {
        assert after[k] == Link(v, true);
      }
      if k :| 0 <= k < |before| && before[k] == Link(v, false) {
        assert after[k] == Link(v, true);
      }
      if k :| 0 <= k < |after| && after[k] == Link(v, true) {
        assert before[k] == Link(v, false) || before[k] == Link(v, true);
      }
    }
    assert OutOf(after) == {};
    assert IncOf(after) == IncOf(before) + OutOf(before);
  }

  /** The last step of unlinking, on the primary list: what LinkProtocol.FreedOwn does. */
  lemma FreeRefines(before: seq<Slot>, after: seq<Slot>, over: set<Nid>, phase: P.Phase, orphans: set<Nid>)
    requires |after| == |before| && forall k :: 0 <= k < |before| ==> after[k] == Freed(before[k], orphans)
    requires OutOf(before) == {} && over !! (IncOf(before) - orphans)
    ensures Abstract(after, over, phase) == P.FreedOwn(Abstract(before, over, phase), IncOf(before) - orphans)
  {
    forall v ensures v !in OutOf(after) && (v in IncOf(after) <==> v in IncOf(before) && v in orphans) {
      OutAt(before, v);
      IncAt(before, v);
      OutAt(after, v);
      IncAt(after, v);
      if k :| 0 <= k < |before| && before[k] == Link(v, true) {
        assert v in orphans ==> after[k] == Link(v, true);
      }
      if k :| 0 <= k < |after| && after[k] == Link(v, true) {
        assert before[k] == Link(v, true);
      }
    }
    assert OutOf(after) == {};
    assert IncOf(after) == IncOf(before) - (IncOf(before) - orphans);
  }

  /** Steps C and D: what LinkProtocol.WrittenOwn does. */
  lemma WriteRefines(mem: seq<Slot>, after: seq<Slot>, over: set<Nid>, owner: P.Tid, want: seq<Nid>, staged: seq<Slot>)
    requires ToAdd(mem, want, staged) && Filling(mem, want, staged, |staged|, after) && |after| == |mem|
    requires forall i :: 0 <= i < |staged| ==> staged[i].Link? && staged[i].incoming == (staged[i].nid !in over)
    ensures var node := P.WrittenOwn(Abstract(mem, over, P.Dropping(owner, {}, SetOf(want))));
            Abstract(after, over, node.phase) == node
  {
    var added := SetOf(want) - OutOf(mem) - IncOf(mem);
    forall v ensures (v in OutOf(after) <==> (v in OutOf(mem) && v in want) || (v in added && v in over))
      ensures v in IncOf(after) <==> (v in IncOf(mem) && v in want) || (v in added && v !in over)
    {
      WrittenLink(mem, after, over, want, staged, v, false);
      WrittenLink(mem, after, over, want, staged, v, true);
      OutAt(mem, v);
      IncAt(mem, v);
      OutAt(after, v);
      IncAt(after, v);
      NamedAt(mem, v);
    }
    assert OutOf(after) == OutOf(mem) * SetOf(want) + added * over;
    assert IncOf(after) == IncOf(mem) * SetOf(want) + (added - over);
  }

  lemma WrittenLink(mem: seq<Slot>, after: seq<Slot>, over: set<Nid>, want: seq<Nid>, staged: seq<Slot>, v: Nid,
                    incoming: bool)
    requires ToAdd(mem, want, staged) && Filling(mem, want, staged, |staged|, after) && |after| == |mem|
    requires forall i :: 0 <= i < |staged| ==> staged[i].Link? && staged[i].incoming == (staged[i].nid !in over)
    ensures Link(v, incoming) in after <==>
            (Link(v, incoming) in mem && v in want) || (v in want && !Named(mem, v) && incoming == (v !in over))
  {
    if Link(v, incoming) in after {
      var k :| 0 <= k < |after| && after[k] == Link(v, incoming);
      if !Keeps(mem[k], want) {
        var i :| 0 <= i < |staged| && staged[i] == after[k];
      }
    }
    if Link(v, incoming) in mem && v in want {
      var k :| 0 <= k < |mem| && mem[k] == Link(v, incoming);
      assert after[k] == mem[k];
    }
    if v in want && !Named(mem, v) && incoming == (v !in over) {
      var i :| 0 <= i < |staged| && staged[i].nid == v;
      assert staged[i] == Link(v, incoming) && staged[i] in after;
    }
  }

  // ------------------------------------------------------------------------------------------
  // Landing a link on the other side.

  lemma SetsOfAppend(front: seq<Slot>, last: Slot)
    ensures OutOf(front + [last]) == OutOf(front) + (if last.Link? && !last.incoming then {last.nid} else {})
    ensures IncOf(front + [last]) == IncOf(front) + (if last.Link? && last.incoming then {last.nid} else {})
  {
    var list := front + [last];
    assert forall x :: x in list <==> x in front || x == last;
  }

  lemma LastIsNew(front: seq<Slot>, last: Slot)
    requires Tidy(front + [last]) && last.Link?
    ensures Tidy(front) && last.nid !in OutOf(front) && last.nid !in IncOf(front)
  {
    OutAt(front, last.nid);
    IncAt(front, last.nid);
    var list := front + [last];
    forall k | 0 <= k < |front| && front[k].Link? ensures front[k].nid != last.nid {
      assert list[k] == front[k] && list[|front|] == last;
    }
    assert forall k :: 0 <= k < |front| ==> list[k] == front[k];
  }

  /** A tidy list has fewer names than slots exactly when it has a free slot. */
  lemma {:induction false} RoomIffFree(list: seq<Slot>)
    requires Tidy(list)
    ensures |OutOf(list)| + |IncOf(list)| <= |list|
    ensures |OutOf(list)| + |IncOf(list)| < |list| <==> Empty in list
  {
    if list != [] {
      var front, last := list[..|list| - 1], list[|list| - 1];
      assert list == front + [last];
      SetsOfAppend(front, last);
      if last.Link? {
        LastIsNew(front, last);
      }
      RoomIffFree(front);
      hide OutOf, IncOf, Tidy;
    }
  }

  /** A direct link back goes into the first free slot; without one the caller chains it. */
  method Land(record: array<Slot>, node: Nid, ghost over: set<Nid>, ghost phase: P.Phase, ghost read: seq<Slot>)
    returns (landed: bool)
    requires Tidy(record[..]) && !Named(record[..], node)
    modifies record
    ensures landed <==> Empty in old(record[..])
    ensures !landed ==> record[..] == old(record[..])
    ensures Tidy(record[..])
    ensures var before := Abstract(old(record[..]), over, phase);
            P.Landed(record.Length, before, node) == Abstract(record[..], if landed then over else over + {node}, phase)
    ensures SameFlagged(read, old(record[..])) ==> SameFlagged(read, record[..])
  {
    ghost var before := record[..];
    RoomIffFree(before);
    var slot := 0;
    while slot < record.Length && record[slot].Link?
      invariant slot <= record.Length && forall k :: 0 <= k < slot ==> before[k].Link?
    {
      slot := slot + 1;
    }
    if slot == record.Length {
      return false;
    }
    assert before[slot] == Empty;
    record[slot] := Link(node, false);
    if SameFlagged(read, before) {
      LandingKeepsFlagged(read, before, slot, node);
    }
    LandRefines(before, record[..], slot, node);
    landed := true;
  }

  lemma LandRefines(before: seq<Slot>, after: seq<Slot>, slot: nat, node: Nid)
    requires slot < |before| && before[slot] == Empty && after == before[slot := Link(node, false)]
    requires Tidy(before) && !Named(before, node)
    ensures Tidy(after) && OutOf(after) == OutOf(before) + {node} && IncOf(after) == IncOf(before)
  {
    forall v
      ensures (v in OutOf(after) <==> v in OutOf(before) || v == node) && (v in IncOf(after) <==> v in IncOf(before))
    {
      OutAt(before, v);
      IncAt(before, v);
      OutAt(after, v);
      IncAt(after, v);
      if k :| 0 <= k < |before| && before[k] == Link(v, true) {
        assert after[k] == before[k];
      }
      if k :| 0 <= k < |before| && before[k] == Link(v, false) {
        assert after[k] == before[k];
      }
      if v == node {
        assert after[slot] == Link(v, false);
      }
    }
  }
}
