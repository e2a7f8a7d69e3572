/** Adding, finding, clearing and dropping overflow links. Each method below that is marked as one
    mini-transaction leaves every chain well-formed, so a crash between any two of them does too. */
module OverflowOps {
  import opened Wrappers
  import opened OverflowChains

  class Level {
    const capacity: nat
    var over: Store
    var heads: map<Nid, Nid>
    ghost var chains: map<Nid, seq<Nid>>

    ghost predicate Valid()
      reads this
    {
      capacity >= 1 && ChainsOk(over, capacity, heads, chains)
    }

    /** What n's chain records. */
    ghost predicate Incoming(n: Nid, v: Nid)
      reads this
      requires n in chains
    {
      Records(over, chains[n], v)
    }

    /** One mini-transaction: a slot of a record is written. */
    method WriteSlot(r: Nid, slot: nat, v: Nid)
      requires Valid() && r in over && |over[r].incoming| == capacity && slot < capacity
      modifies this`over
      ensures Valid() && over == Written(old(over), r, slot, v)
    {
      var record := over[r];
      SlotWritten(over, capacity, heads, chains, r, record.incoming[slot := v]);
      over := over[r := record.(incoming := record.incoming[slot := v])];
    }

    /** One mini-transaction: a new record with one link, not linked into any chain yet. */
    method InsertRecord(r: Nid, v: Nid)
      requires Valid() && r !in over
      modifies this`over
      ensures Valid() && over == old(over)[r := Over([v] + seq(capacity - 1, _ => INVALID), INVALID)]
    {
      var record := Over([v] + seq(capacity - 1, _ => INVALID), INVALID);
      RecordAdded(over, capacity, heads, chains, r, record);
      over := over[r := record];
    }

    /** One mini-transaction: a committed record becomes the last of n's chain. */
    method LinkRecord(n: Nid, parent: Nid, r: Nid)
      requires Valid() && n in heads && r in over && r != INVALID && |over[r].incoming| == capacity &&
               over[r].next == INVALID
      requires forall m :: m in heads ==> r !in chains[m]
      requires parent == if chains[n] == [] then INVALID else chains[n][|chains[n]| - 1]
      modifies this`over, this`heads, this`chains
      ensures Valid() && chains == old(chains)[n := old(chains)[n] + [r]] && SameSlots(old(over), over)
      ensures heads.Keys == old(heads).Keys
    {
      ghost var chain := chains[n];
      LinkedIn(over, capacity, heads, chains, n, r);
      ChainAt(over, capacity, heads, chains, n);
      if parent == INVALID {
        heads := heads[n := r];
      } else {
        over := over[parent := over[parent].(next := r)];
      }
      chains := chains[n := chain + [r]];
    }

    /** Records an incoming link from source on n: in the first free slot of the chain, or in a new
        record, which is committed before the chain points at it. */
    method AddIncoming(n: Nid, source: Nid, added: Nid) returns (ghost place: Place)
      requires Valid() && n in heads && source != INVALID && added != INVALID && added !in over
      modifies this
      ensures Valid() && heads.Keys == old(heads).Keys && n in chains
      ensures old(chains)[n] <= chains[n] && forall m :: m in heads && m != n ==> chains[m] == old(chains)[m]
      ensures place.record in chains[n] && OnePlace(old(over), over, place, source)
      ensures forall r :: r in chains[n] && r !in old(chains)[n] ==> r == place.record && r !in old(over)
      ensures forall v :: Incoming(n, v) <==> Records(old(over), old(chains)[n], v) || v == source
    {
      hide Chained, ChainsOk;
      ChainAt(over, capacity, heads, chains, n);
      var parent, cur := INVALID, heads[n];
      ghost var k := 0;
      ghost var chain := chains[n];
      ChainHead(over, capacity, heads[n], chain);
      while cur != INVALID
        invariant k <= |chain| && cur == (if k < |chain| then chain[k] else INVALID)
        invariant parent == if k == 0 then INVALID else chain[k - 1]
        invariant over == old(over) && heads == old(heads) && chains == old(chains)
        decreases |chain| - k
      {
        ChainNext(over, capacity, heads[n], chain, k);
        var slot := FreeSlot(over[cur].incoming);
        if slot < capacity {
          place := Place(cur, slot);
          WriteSlot(cur, slot, source);
          SlotTaken(old(over), cur, slot, source);
          AddedAll(old(over), over, chain, chain, place, source);
          return;
        }
        parent := cur;
        cur := over[cur].next;
        k := k + 1;
      }
      place := Place(added, 0);
      NotChained(over, capacity, heads, chains, added);
      InsertRecord(added, source);
      ghost var inserted := over;
      LinkRecord(n, parent, added);
      RecordTaken(old(over), inserted, over, added, capacity, source);
      AddedAll(old(over), over, chain, chains[n], place, source);
    }

    /** A place of the chain that records target, if there is one. */
    method FindLink(n: Nid, target: Nid) returns (found: Option<Place>)
      requires Valid() && n in heads && target != INVALID
      ensures n in chains && (found.None? <==> !Incoming(n, target))
      ensures found.Some? ==> found.value.record in chains[n] && Occupies(over, found.value, target)
    {
      hide Chained, ChainsOk;
      ChainAt(over, capacity, heads, chains, n);
      var cur := heads[n];
      ghost var k := 0;
      ghost var chain := chains[n];
      ChainHead(over, capacity, heads[n], chain);
      while cur != INVALID
        invariant k <= |chain| && cur == (if k < |chain| then chain[k] else INVALID)
        invariant forall p: Place :: p.record in chain[..k] ==> !Occupies(over, p, target)
        decreases |chain| - k
      {
        ChainNext(over, capacity, heads[n], chain, k);
        var slot := SlotOf(over[cur].incoming, target);
        if slot < capacity {
          return Some(Place(cur, slot));
        }
        assert chain[..k + 1] == chain[..k] + [cur];
        cur := over[cur].next;
        k := k + 1;
      }
      assert chain[..k] == chain;
      found := None;
    }

    /** Clears one place: what was recorded there, and nothing else, is gone. */
    method ClearLink(p: Place)
      requires Valid() && p.record in over && |over[p.record].incoming| == capacity && p.slot < capacity
      modifies this`over
      ensures Valid() && Occupies(over, p, INVALID) && over.Keys == old(over).Keys
      ensures forall q: Place, v :: q != p ==> (Occupies(over, q, v) <==> Occupies(old(over), q, v))
    {
      WriteSlot(p.record, p.slot, INVALID);
    }

    /** One mini-transaction: the last record of n's chain is taken out and freed. */
    method DropLast(n: Nid, prev: Nid, last: Nid)
      requires Valid() && n in heads && chains[n] != [] && last == chains[n][|chains[n]| - 1]
      requires prev == if |chains[n]| == 1 then INVALID else chains[n][|chains[n]| - 2]
      modifies this
      ensures Valid() && heads.Keys == old(heads).Keys
      ensures chains == old(chains)[n := old(chains)[n][..|old(chains)[n]| - 1]]
      ensures over.Keys == old(over).Keys - {last} &&
              forall r :: r in over ==> over[r].incoming == old(over)[r].incoming
    {
      hide ChainsOk, Chained;
      ChainAt(over, capacity, heads, chains, n);
      ghost var chain := chains[n];
      ChainNext(over, capacity, heads[n], chain, if |chain| > 1 then |chain| - 2 else 0);
      LastFreed(over, capacity, heads, chains, n);
      if prev == INVALID {
        heads := heads[n := INVALID];
      } else {
        over := over[prev := over[prev].(next := INVALID)];
      }
      over := over - {last};
      chains := chains[n := chain[..|chain| - 1]];
    }

    /** Frees n's whole chain, from the tail to the head, and nothing else. */
    method DropChain(n: Nid)
      requires Valid() && n in heads
      modifies this
      ensures Valid() && heads.Keys == old(heads).Keys && chains == old(chains)[n := []] && heads[n] == INVALID
      ensures n in old(chains) && over.Keys == old(over).Keys - Members(old(chains)[n])
      ensures forall r :: r in over ==> over[r].incoming == old(over)[r].incoming
    {
      hide Chained, ChainsOk, Members;
      ChainAt(over, capacity, heads, chains, n);
      ghost var chain := chains[n];
      var links := CollectChain(n);
      NoMembers(chain);
      assert chains == old(chains)[n := links];
      while links != []
        invariant Valid() && heads.Keys == old(heads).Keys && links <= chain && chains == old(chains)[n := links]
        invariant over.Keys == old(over).Keys - Members(chain[|links|..])
        invariant forall r :: r in over ==> over[r].incoming == old(over)[r].incoming
        decreases |links|
      {
        ghost var k := |links| - 1;
        OneMember(chain, k);
        DropLast(n, if |links| > 1 then links[|links| - 2] else INVALID, links[|links| - 1]);
        links := links[..|links| - 1];
      }
      ChainAt(over, capacity, heads, chains, n);
      ChainHead(over, capacity, heads[n], chains[n]);
      assert chain[0..] == chain;
    }

    /** Walks the chain and stacks its records. */
    method CollectChain(n: Nid) returns (links: seq<Nid>)
      requires Valid() && n in heads
      ensures n in chains && links == chains[n]
    {
      hide Chained, ChainsOk;
      ChainAt(over, capacity, heads, chains, n);
      ghost var chain := chains[n];
      ChainHead(over, capacity, heads[n], chain);
      links := [];
      var cur := heads[n];
      while cur != INVALID
        invariant |links| <= |chain| && links == chain[..|links|]
        invariant cur == if |links| < |chain| then chain[|links|] else INVALID
        decreases |chain| - |links|
      {
        ChainNext(over, capacity, heads[n], chain, |links|);
        links := links + [cur];
        cur := over[cur].next;
      }
    }
  }

  function Members(list: seq<Nid>): (s: set<Nid>) {
    set r | r in list
  }

  lemma NoMembers(list: seq<Nid>)
    ensures Members(list[|list|..]) == {}
  {
  }

  lemma OneMember(list: seq<Nid>, k: nat)
    requires k < |list|
    ensures Members(list[k..]) == Members(list[k + 1..]) + {list[k]}
  {
    assert list[k..] == [list[k]] + list[k + 1..];
  }

  method FreeSlot(incoming: seq<Nid>) returns (slot: nat)
    ensures slot <= |incoming| && (slot < |incoming| ==> incoming[slot] == INVALID) && INVALID !in incoming[..slot]
  {
    slot := SlotOf(incoming, INVALID);
  }

  method SlotOf(incoming: seq<Nid>, v: Nid) returns (slot: nat)
    ensures slot <= |incoming| && (slot < |incoming| ==> incoming[slot] == v) && v !in incoming[..slot]
  {
    slot := 0;
    while slot < |incoming| && incoming[slot] != v
      invariant slot <= |incoming| && v !in incoming[..slot]
    {
      slot := slot + 1;
    }
  }

  /** Exactly one more place holds a link, the one from source. */
  ghost predicate OnePlace(before: Store, after: Store, place: Place, source: Nid) {
    && Occupies(after, place, source) && (place.record in before ==> Occupies(before, place, INVALID))
    && before.Keys <= after.Keys
    && forall q: Place, v :: q != place && v != INVALID ==> (Occupies(after, q, v) <==> Occupies(before, q, v))
  }

  lemma SlotTaken(over: Store, r: Nid, slot: nat, v: Nid)
    requires r in over && slot < |over[r].incoming| && over[r].incoming[slot] == INVALID
    ensures OnePlace(over, Written(over, r, slot, v), Place(r, slot), v)
  {
  }

  lemma RecordTaken(before: Store, inserted: Store, after: Store, r: Nid, capacity: nat, v: Nid)
    requires capacity >= 1 && r !in before &&
             inserted == before[r := Over([v] + seq(capacity - 1, _ => INVALID), INVALID)]
    requires SameSlots(inserted, after)
    ensures OnePlace(before, after, Place(r, 0), v)
  {
  }

  lemma NotChained(over: Store, capacity: nat, heads: map<Nid, Nid>, chains: map<Nid, seq<Nid>>, r: Nid)
    requires ChainsOk(over, capacity, heads, chains) && r !in over
    ensures forall m :: m in heads ==> r !in chains[m]
  {
    forall m | m in heads ensures r !in chains[m] {
      ChainAt(over, capacity, heads, chains, m);
    }
  }

  function Written(over: Store, r: Nid, slot: nat, v: Nid): (over': Store)
    requires r in over && slot < |over[r].incoming|
  {
    over[r := over[r].(incoming := over[r].incoming[slot := v])]
  }

  ghost predicate SameSlots(over: Store, over': Store) {
    over'.Keys == over.Keys && forall r :: r in over ==> over'[r].incoming == over[r].incoming
  }

  // ------------------------------------------------------------------------------------------
  // What the operations do to the set of recorded links.

  /** Adding a link grows what the chain records by exactly its source. */
  lemma AddedRecords(before: Store, after: Store, chain: seq<Nid>, chain': seq<Nid>, place: Place, source: Nid, v: Nid)
    requires OnePlace(before, after, place, source) && source != INVALID && place.record in chain'
    requires chain <= chain' && forall r :: r in chain' && r !in chain ==> r == place.record && r !in before
    ensures Records(after, chain', v) <==> Records(before, chain, v) || v == source
  {
    if v != INVALID && Records(before, chain, v) {
      var p: Place :| p.record in chain && Occupies(before, p, v);
      assert p != place && Occupies(after, p, v);
    }
    if v != INVALID && Records(after, chain', v) {
      var p: Place :| p.record in chain' && Occupies(after, p, v);
      if p != place {
        assert Occupies(before, p, v);
      }
    }
    if v == source {
      assert Occupies(after, place, v);
    }
  }

  lemma AddedAll(before: Store, after: Store, chain: seq<Nid>, chain': seq<Nid>, place: Place, source: Nid)
    requires OnePlace(before, after, place, source) && source != INVALID && place.record in chain'
    requires chain <= chain' && forall r :: r in chain' && r !in chain ==> r == place.record && r !in before
    ensures forall v :: Records(after, chain', v) <==> Records(before, chain, v) || v == source
  {
    forall v ensures Records(after, chain', v) <==> Records(before, chain, v) || v == source {
      AddedRecords(before, after, chain, chain', place, source, v);
    }
  }

  /** A link recorded once stays recorded once when another is added. */
  lemma AddedOnce(before: Store, after: Store, chain: seq<Nid>, chain': seq<Nid>, place: Place, source: Nid)
    requires OnePlace(before, after, place, source) && source != INVALID && place.record in chain'
    requires chain <= chain' && forall r :: r in chain' && r !in chain ==> r == place.record && r !in before
    requires Once(before, chain) && !Records(before, chain, source)
    ensures Once(after, chain')
  {
    forall p: Place, q: Place, v | v != INVALID && p.record in chain' && q.record in chain' && Occupies(after, p, v) &&
                                   Occupies(after, q, v)
      ensures p == q
    {
      if p != place {
        assert Occupies(before, p, v);
      }
      if q != place {
        assert Occupies(before, q, v);
      }
    }
  }

  /** Clearing the place of a link recorded once takes exactly that link away. */
  lemma ClearedRecords(before: Store, after: Store, chain: seq<Nid>, place: Place, target: Nid, v: Nid)
    requires Occupies(before, place, target) && place.record in chain && target != INVALID && Once(before, chain)
    requires Occupies(after, place, INVALID) &&
             forall q: Place, w :: q != place ==> (Occupies(after, q, w) <==> Occupies(before, q, w))
    ensures Records(after, chain, v) <==> Records(before, chain, v) && v != target
  {
    if v != INVALID && Records(after, chain, v) {
      var p: Place :| p.record in chain && Occupies(after, p, v);
      assert p != place && Occupies(before, p, v);
    }
    if v != target && Records(before, chain, v) {
      var p: Place :| p.record in chain && Occupies(before, p, v);
      assert p != place && Occupies(after, p, v);
    }
  }
}
