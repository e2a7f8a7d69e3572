/** The overflow chain of a node: records of `capacity` incoming links each, chained from the
    node's own record. Every mini-transaction keeps all chains well-formed. */
module OverflowChains {

  type Nid = nat

  const INVALID: Nid := 0

  datatype Over = Over(incoming: seq<Nid>, next: Nid)

  type Store = map<Nid, Over>

  datatype Place = Place(record: Nid, slot: nat)

  function First(list: seq<Nid>): (r: Nid) {
    if list == [] then INVALID else list[0]
  }

  ghost predicate NoDup(list: seq<Nid>) {
    forall j, k :: 0 <= j < k < |list| ==> list[j] != list[k]
  }

  /** The chain from head is exactly these records, none of them missing, and it ends. */
  ghost predicate Chained(over: Store, capacity: nat, head: Nid, list: seq<Nid>) {
    && head == First(list) && NoDup(list)
    && forall k :: 0 <= k < |list| ==>
         && list[k] != INVALID && list[k] in over && |over[list[k]].incoming| == capacity
         && over[list[k]].next == if k + 1 < |list| then list[k + 1] else INVALID
  }

  predicate Occupies(over: Store, p: Place, v: Nid) {
    p.record in over && p.slot < |over[p.record].incoming| && over[p.record].incoming[p.slot] == v
  }

  /** The chain records an incoming link from v. */
  ghost predicate Records(over: Store, list: seq<Nid>, v: Nid) {
    v != INVALID && exists p: Place :: p.record in list && Occupies(over, p, v)
  }

  /** No link is recorded in two places of the chain. */
  ghost predicate Once(over: Store, list: seq<Nid>) {
    forall p: Place, q: Place, v ::
      v != INVALID && p.record in list && q.record in list && Occupies(over, p, v) && Occupies(over, q, v) ==> p == q
  }

  // ------------------------------------------------------------------------------------------
  // All chains of a level.

  ghost predicate ChainsOk(over: Store, capacity: nat, heads: map<Nid, Nid>, chains: map<Nid, seq<Nid>>) {
    && chains.Keys == heads.Keys
    && (forall n :: n in heads ==> Chained(over, capacity, heads[n], chains[n]))
    && forall n, m, r :: n in heads && m in heads && n != m && r in chains[n] ==> r !in chains[m]
  }

  lemma ChainAt(over: Store, capacity: nat, heads: map<Nid, Nid>, chains: map<Nid, seq<Nid>>, n: Nid)
    requires ChainsOk(over, capacity, heads, chains) && n in heads
    ensures n in chains && Chained(over, capacity, heads[n], chains[n])
  {
  }

  /** Another slot of one record of n's chain is written, or a record no chain has is added. */
  lemma SlotWritten(over: Store, capacity: nat, heads: map<Nid, Nid>, chains: map<Nid, seq<Nid>>, r: Nid,
                    incoming: seq<Nid>)
    requires ChainsOk(over, capacity, heads, chains) && r in over && |incoming| == capacity &&
             |over[r].incoming| == capacity
    ensures ChainsOk(over[r := over[r].(incoming := incoming)], capacity, heads, chains)
  {
    var over' := over[r := over[r].(incoming := incoming)];
    forall n | n in heads ensures Chained(over', capacity, heads[n], chains[n]) {
      assert Chained(over, capacity, heads[n], chains[n]);
    }
  }

  lemma RecordAdded(over: Store, capacity: nat, heads: map<Nid, Nid>, chains: map<Nid, seq<Nid>>, r: Nid, record: Over)
    requires ChainsOk(over, capacity, heads, chains) && r !in over
    ensures ChainsOk(over[r := record], capacity, heads, chains)
  {
    forall n | n in heads ensures Chained(over[r := record], capacity, heads[n], chains[n]) {
      assert Chained(over, capacity, heads[n], chains[n]);
    }
  }

  lemma ChainNext(over: Store, capacity: nat, head: Nid, list: seq<Nid>, k: nat)
    requires Chained(over, capacity, head, list) && k < |list|
    ensures list[k] != INVALID && list[k] in over && |over[list[k]].incoming| == capacity
    ensures over[list[k]].next == if k + 1 < |list| then list[k + 1] else INVALID
  {
  }

  lemma ChainHead(over: Store, capacity: nat, head: Nid, list: seq<Nid>)
    requires Chained(over, capacity, head, list)
    ensures head == First(list) && INVALID !in list
  {
  }

  lemma Untouched(over: Store, over': Store, capacity: nat, head: Nid, list: seq<Nid>)
    requires Chained(over, capacity, head, list) &&
             forall r :: r in list && r in over ==> r in over' && over'[r] == over[r]
    ensures Chained(over', capacity, head, list)
  {
  }

  /** A committed record no chain has yet becomes the last of n's. */
  lemma LinkedIn(over: Store, capacity: nat, heads: map<Nid, Nid>, chains: map<Nid, seq<Nid>>, n: Nid, r: Nid)
    requires ChainsOk(over, capacity, heads, chains) && n in heads && r in over && r != INVALID
    requires |over[r].incoming| == capacity && over[r].next == INVALID && forall m :: m in heads ==> r !in chains[m]
    ensures var chain := chains[n];
            && (chain != [] ==> chain[|chain| - 1] in over)
            && ChainsOk(if chain == [] then over else over[chain[|chain| - 1] := over[chain[|chain| - 1]].(next := r)],
                        capacity,
                        if chain == [] then heads[n := r] else heads, chains[n := chain + [r]])
  {
    var chain := chains[n];
    assert Chained(over, capacity, heads[n], chain);
    var over' := if chain == [] then over else over[chain[|chain| - 1] := over[chain[|chain| - 1]].(next := r)];
    var heads' := if chain == [] then heads[n := r] else heads;
    forall m | m in heads' ensures Chained(over', capacity, heads'[m], chains[n := chain + [r]][m]) {
      if m == n {
        Extended(over, capacity, heads[n], chain, r);
      } else {
        assert chain != [] ==> chain[|chain| - 1] in chain;
        Untouched(over, over', capacity, heads[m], chains[m]);
      }
    }
    hide Chained;
  }

  lemma Extended(over: Store, capacity: nat, head: Nid, chain: seq<Nid>, r: Nid)
    requires Chained(over, capacity, head, chain) && r in over && r != INVALID && r !in chain
    requires |over[r].incoming| == capacity && over[r].next == INVALID
    ensures chain != [] ==> chain[|chain| - 1] in over
    ensures Chained(if chain == [] then over else over[chain[|chain| - 1] := over[chain[|chain| - 1]].(next := r)],
                    capacity,
                    if chain == [] then r else head, chain + [r])
  {
  }

  /** The last record of n's chain is taken out and freed. */
  lemma LastFreed(over: Store, capacity: nat, heads: map<Nid, Nid>, chains: map<Nid, seq<Nid>>, n: Nid)
    requires ChainsOk(over, capacity, heads, chains) && n in heads && chains[n] != []
    ensures var chain := chains[n];
            var last := chain[|chain| - 1];
            && (|chain| > 1 ==> chain[|chain| - 2] in over && chain[|chain| - 2] != last)
            && ChainsOk((if |chain| == 1 then over
                         else over[chain[|chain| - 2] := over[chain[|chain| - 2]].(next := INVALID)]) - {last},
                        capacity, if |chain| == 1 then heads[n := INVALID] else heads,
                        chains[n := chain[..|chain| - 1]])
  {
    var chain := chains[n];
    var last := chain[|chain| - 1];
    assert Chained(over, capacity, heads[n], chain);
    var over' := (if |chain| == 1 then over
                  else over[chain[|chain| - 2] := over[chain[|chain| - 2]].(next := INVALID)]) - {last};
    var heads' := if |chain| == 1 then heads[n := INVALID] else heads;
    forall m | m in heads' ensures Chained(over', capacity, heads'[m], chains[n := chain[..|chain| - 1]][m]) {
      if m == n {
        Shortened(over, capacity, heads[n], chain);
      } else {
        assert last in chain && (|chain| > 1 ==> chain[|chain| - 2] in chain);
        Untouched(over, over', capacity, heads[m], chains[m]);
      }
    }
    hide Chained;
  }

  lemma Shortened(over: Store, capacity: nat, head: Nid, chain: seq<Nid>)
    requires Chained(over, capacity, head, chain) && chain != []
    ensures var last := chain[|chain| - 1];
            && (|chain| > 1 ==> chain[|chain| - 2] in over)
            && Chained((if |chain| == 1 then over
                        else over[chain[|chain| - 2] := over[chain[|chain| - 2]].(next := INVALID)]) - {last},
                       capacity, if |chain| == 1 then INVALID else head, chain[..|chain| - 1])
  {
  }
}
