/** The stored overflow record: a nid for each incoming slot, then the link to the next record.
    Insert, update and fetch on the bytes, each proved against the record taken as its fields. */
module OverflowRecord {
  import opened Wrappers
  import opened BigEndian
  import opened Nid
  import opened ColumnUpdate
  import opened LevelRecord

  const MAX_OVERFLOW_LEN: nat := 8

  datatype Overflow = Overflow(incoming: seq<Id>, next: Id)

  datatype Fields = Fields(incoming: bool, next: bool)

  /** How many slots a record has: no more than the degree it makes up for. */
  function Capacity(m: nat): (n: nat) {
    if m < MAX_OVERFLOW_LEN then m else MAX_OVERFLOW_LEN
  }

  predicate Sized(bytes: seq<Byte>, m: nat) {
    |bytes| == ID * (Capacity(m) + 1)
  }

  function View(bytes: seq<Byte>, m: nat): (o: Overflow)
    requires Sized(bytes, m)
    ensures |o.incoming| == Capacity(m)
  {
    Overflow(seq(Capacity(m), slot requires 0 <= slot < Capacity(m) => IdAt(bytes, slot)), IdAt(bytes, Capacity(m)))
  }

  // ------------------------------------------------------------------------------------------
  // Insert.

  /** Slots without a link hold the invalid id. */
  function Stored(o: Overflow, m: nat): (r: Overflow)
    requires |o.incoming| <= Capacity(m)
  {
    o.(incoming := o.incoming + seq(Capacity(m) - |o.incoming|, _ => 0))
  }

  method Format(o: Overflow, m: nat) returns (bytes: seq<Byte>)
    requires |o.incoming| <= Capacity(m)
    ensures Sized(bytes, m) && View(bytes, m) == Stored(o, m)
  {
    ghost var stored := Stored(o, m);
    bytes := [];
    for i := 0 to Capacity(m)
      invariant |bytes| == ID * i && forall s: nat :: s < i ==> IdAt(bytes, s) == stored.incoming[s]
    {
      bytes := WriteId(bytes, if i < |o.incoming| then o.incoming[i] else 0, i);
    }
    bytes := WriteId(bytes, o.next, Capacity(m));
    assert View(bytes, m).incoming == stored.incoming;
  }

  // ------------------------------------------------------------------------------------------
  // Update.

  ghost predicate GoodPlaces(o: Overflow, slots: seq<nat>, m: nat) {
    && |o.incoming| <= |slots| && (forall i :: 0 <= i < |o.incoming| ==> slots[i] < Capacity(m))
    && forall i, j :: 0 <= i < j < |o.incoming| ==> slots[i] < slots[j]
  }

  function SlotPatches(slots: seq<nat>, incoming: seq<Id>): (p: seq<Patch>)
    requires |incoming| <= |slots|
  {
    seq(|incoming|, k requires 0 <= k < |incoming| => Patch(slots[k], incoming[k]))
  }

  function Changes(m: nat, o: Overflow, fields: Fields, slots: seq<nat>): (p: seq<Patch>)
    requires |o.incoming| <= |slots|
  {
    (if fields.incoming then SlotPatches(slots, o.incoming) else []) +
    (if fields.next then [Patch(Capacity(m), o.next)] else [])
  }

  /** The chunk indexes go up, stay in the record, and are no more than the scratch array holds. */
  lemma ChangesAscend(m: nat, o: Overflow, fields: Fields, slots: seq<nat>)
    requires m >= 1 && GoodPlaces(o, slots, m)
    ensures var ids := Ids(Changes(m, o, fields, slots));
            Increasing(ids) && Within(ids, ID, ID * (Capacity(m) + 1)) && |ids| <= Capacity(m) + 1 <= MaxUpdateChunks(m)
  {
    hide Increasing, Within, AscendsIn, SlotPatches, Capacity;
    var links := if fields.incoming then SlotPatches(slots, o.incoming) else [];
    var last := if fields.next then [Patch(Capacity(m), o.next)] else [];
    SlotsAscend(m, o, fields, slots);
    OneAscends(last, Capacity(m));
    Joined(links, last, 0, Capacity(m), Capacity(m) + 1);
    IdsAscend(links + last, Capacity(m) + 1);
    FewChanges(m, o, fields, slots);
  }

  lemma SlotsAscend(m: nat, o: Overflow, fields: Fields, slots: seq<nat>)
    requires GoodPlaces(o, slots, m)
    ensures AscendsIn(if fields.incoming then SlotPatches(slots, o.incoming) else [], 0, Capacity(m))
  {
    hide Capacity;
  }

  lemma OneAscends(last: seq<Patch>, idx: nat)
    requires |last| <= 1 && forall p :: p in last ==> p.idx == idx
    ensures AscendsIn(last, idx, idx + 1)
  {
  }

  lemma FewChanges(m: nat, o: Overflow, fields: Fields, slots: seq<nat>)
    requires m >= 1 && GoodPlaces(o, slots, m)
    ensures |Changes(m, o, fields, slots)| <= Capacity(m) + 1 <= MaxUpdateChunks(m)
  {
    FewSlots(slots, |o.incoming|, Capacity(m));
  }

  /** Encodes the selected fields into the scratch buffer, with the list of their chunks. */
  method Encode(m: nat, o: Overflow, fields: Fields, slots: seq<nat>, buffer: array<Byte>) returns (ids: seq<nat>)
    requires m >= 1 && GoodPlaces(o, slots, m) && buffer.Length >= ID * (Capacity(m) + 1)
    modifies buffer
    ensures ids == Ids(Changes(m, o, fields, slots)) && Buffered(buffer[..], Changes(m, o, fields, slots))
  {
    hide IdAt, Buffered;
    ids := [];
    ghost var patches: seq<Patch> := [];
    NothingBuffered(buffer[..]);
    if fields.incoming {
      for i := 0 to |o.incoming|
        invariant patches == SlotPatches(slots, o.incoming[..i]) && ids == Ids(patches) && Buffered(buffer[..], patches)
      {
        ids, patches := EmitChunk(buffer, ids, slots[i], o.incoming[i], patches);
      }
      assert o.incoming[..|o.incoming|] == o.incoming;
    }
    if fields.next {
      ids, patches := EmitChunk(buffer, ids, Capacity(m), o.next, patches);
    }
    assert patches == Changes(m, o, fields, slots);
  }

  lemma NothingBuffered(bytes: seq<Byte>)
    ensures Buffered(bytes, [])
  {
  }

  /** The record with exactly the selected fields replaced. */
  function Replaced(stored: Overflow, o: Overflow, fields: Fields, slots: seq<nat>): (r: Overflow)
    requires |o.incoming| <= |slots| && forall i :: 0 <= i < |o.incoming| ==> slots[i] < |stored.incoming|
  {
    Overflow(if fields.incoming then Overlay(stored.incoming, slots, o.incoming) else stored.incoming,
             if fields.next then o.next else stored.next)
  }

  lemma SlotPatched(before: seq<Byte>, after: seq<Byte>, m: nat, o: Overflow, fields: Fields, slots: seq<nat>, s: nat)
    requires GoodPlaces(o, slots, m) && Sized(before, m) && s < Capacity(m)
    requires Patched(before, after, Changes(m, o, fields, slots))
    ensures Sized(after, m) && IdAt(after, s) == Replaced(View(before, m), o, fields, slots).incoming[s]
  {
    hide IdAt;
    var patches, stored := Changes(m, o, fields, slots), View(before, m).incoming;
    if fields.incoming {
      OverlayAt(stored, slots, o.incoming, s);
      if i :| 0 <= i < |o.incoming| && slots[i] == s && Overlay(stored, slots, o.incoming)[s] == o.incoming[i] {
        assert patches[i] == Patch(s, o.incoming[i]);
      } else {
        assert forall k :: 0 <= k < |patches| ==> patches[k].idx != s;
      }
    } else {
      assert forall k :: 0 <= k < |patches| ==> patches[k].idx != s;
    }
  }

  lemma NextPatched(before: seq<Byte>, after: seq<Byte>, m: nat, o: Overflow, fields: Fields, slots: seq<nat>)
    requires GoodPlaces(o, slots, m) && Sized(before, m) && Patched(before, after, Changes(m, o, fields, slots))
    ensures Sized(after, m) && IdAt(after, Capacity(m)) == Replaced(View(before, m), o, fields, slots).next
  {
    hide IdAt, Overlay;
    var patches := Changes(m, o, fields, slots);
    if fields.next {
      assert patches[|patches| - 1] == Patch(Capacity(m), o.next);
    } else {
      assert forall k :: 0 <= k < |patches| ==> patches[k].idx != Capacity(m);
    }
  }

  lemma ViewPatched(before: seq<Byte>, after: seq<Byte>, m: nat, o: Overflow, fields: Fields, slots: seq<nat>)
    requires GoodPlaces(o, slots, m) && Sized(before, m) && Patched(before, after, Changes(m, o, fields, slots))
    ensures Sized(after, m) && View(after, m) == Replaced(View(before, m), o, fields, slots)
  {
    hide IdAt, Changes, Overlay, Patched;
    NextPatched(before, after, m, o, fields, slots);
    var replaced := Replaced(View(before, m), o, fields, slots);
    forall s: nat | s < Capacity(m) ensures IdAt(after, s) == replaced.incoming[s] {
      SlotPatched(before, after, m, o, fields, slots, s);
    }
    assert View(after, m).incoming == replaced.incoming;
  }

  /** Rewrites the selected fields of a stored record, and no others. */
  method UpdateOverflow(record: array<Byte>, at: nat, m: nat, taken: bool, o: Overflow, fields: Fields, slots: seq<nat>,
                        buffer: array<Byte>) returns (r: Outcome)
    requires m >= 1 && GoodPlaces(o, slots, m)
    requires buffer != record && buffer.Length >= ID * (Capacity(m) + 1) && at + ID * (Capacity(m) + 1) <= record.Length
    modifies record, buffer
    ensures r == if taken || Changes(m, o, fields, slots) == [] then Done else FreeSlot
    ensures Around(record, at, ID * (Capacity(m) + 1))
    ensures var size := ID * (Capacity(m) + 1);
            && View(record[at..at + size], m) ==
                 if r == Done then Replaced(old(View(record[at..at + size], m)), o, fields, slots)
                 else old(View(record[at..at + size], m))
  {
    hide View, Replaced, Changes, Increasing, Within, Copied, IdAt;
    var size := ID * (Capacity(m) + 1);
    ghost var before, patches := record[at..at + size], Changes(m, o, fields, slots);
    ChangesAscend(m, o, fields, slots);
    var ids := Encode(m, o, fields, slots, buffer);
    var data := buffer[..size];
    StillBuffered(buffer[..], data, patches, Capacity(m) + 1);
    r := Update(record, at, size, taken, Data(data), ids, ID);
    if r == Done {
      if ids == [] {
        NothingPatched(before, patches);
        assert record[at..at + size] == before;
      } else {
        CopiedIsPatched(before, record[at..at + size], data, patches);
      }
      ViewPatched(before, record[at..at + size], m, o, fields, slots);
    } else {
      assert record[at..at + size] == before;
    }
  }

  // ------------------------------------------------------------------------------------------
  // Fetch.

  function Valid(ids: seq<Id>): (r: seq<Id>)
    ensures |r| <= |ids|
  {
    if ids == [] then []
    else Valid(ids[..|ids| - 1]) + (if ids[|ids| - 1] != 0 then [ids[|ids| - 1]] else [])
  }

  /** The ids at the requested slots, all of them if none are named. */
  function Asked(incoming: seq<Id>, slots: Option<seq<nat>>): (r: seq<Id>)
    requires slots.Some? ==> forall s :: s in slots.value ==> s < |incoming|
    ensures |r| == if slots.Some? then |slots.value| else |incoming|
  {
    if slots.None? then incoming
    else seq(|slots.value|,
             i requires 0 <= i < |slots.value| => assert slots.value[i] in slots.value; incoming[slots.value[i]])
  }

  lemma ValidNext(ids: seq<Id>, i: nat)
    requires i < |ids|
    ensures Valid(ids[..i + 1]) == Valid(ids[..i]) + (if ids[i] != 0 then [ids[i]] else [])
  {
    assert ids[..i + 1][..i] == ids[..i];
  }

  /** The first i requested ids have been read: written in place, or the valid ones compacted. */
  ghost predicate Read(asked: seq<Id>, forUpdate: bool, scratch: seq<Id>, i: nat, ids: seq<Id>, written: nat,
                       valid: nat) {
    && i <= |asked| <= |scratch| == |ids| && valid == |Valid(asked[..i])| <= i
    && written == (if forUpdate then i else valid)
    && ids == (if forUpdate then asked[..i] else Valid(asked[..i])) + scratch[written..]
  }

  lemma ReadNext(asked: seq<Id>, forUpdate: bool, scratch: seq<Id>, i: nat, ids: seq<Id>, written: nat, valid: nat)
    requires Read(asked, forUpdate, scratch, i, ids, written, valid) && i < |asked|
    ensures written < |ids|
    ensures var ok := asked[i] != 0;
            Read(asked, forUpdate, scratch, i + 1, if ok || forUpdate then ids[written := asked[i]] else ids,
                 if ok || forUpdate then written + 1 else written, if ok then valid + 1 else valid)
  {
    hide Valid;
    ValidNext(asked, i);
    assert asked[..i + 1] == asked[..i] + [asked[i]];
    var front := if forUpdate then asked[..i] else Valid(asked[..i]);
    assert ids[written := asked[i]] == front + [asked[i]] + scratch[written + 1..];
  }

  lemma ReadsNothing(asked: seq<Id>, forUpdate: bool, scratch: seq<Id>)
    requires |asked| <= |scratch|
    ensures Read(asked, forUpdate, scratch, 0, scratch, 0, 0)
  {
  }

  lemma ReadsAll(asked: seq<Id>, forUpdate: bool, scratch: seq<Id>, ids: seq<Id>, written: nat, valid: nat)
    requires Read(asked, forUpdate, scratch, |asked|, ids, written, valid)
    ensures written <= |ids| && valid == |Valid(asked)|
    ensures if forUpdate then ids == asked + scratch[|asked|..] else ids[..written] == Valid(asked)
  {
    assert asked[..|asked|] == asked;
  }

  /** Reads the selected fields into o. For an update the ids stay aligned with their slots; for a
      mere lookup the invalid ones are dropped and the others move up. */
  method FetchOverflow(bytes: seq<Byte>, m: nat, forUpdate: bool, fields: Fields, slots: Option<seq<nat>>, o: Overflow)
    returns (out: Overflow, valid: nat)
    requires Sized(bytes, m) && (slots.Some? ==> forall s :: s in slots.value ==> s < Capacity(m))
    requires |o.incoming| >= if slots.Some? then |slots.value| else Capacity(m)
    ensures var asked := Asked(View(bytes, m).incoming, slots);
            && out.next == (if fields.next then View(bytes, m).next else o.next)
            && out.incoming == (if !fields.incoming then o.incoming
                                else if forUpdate then asked + o.incoming[|asked|..]
                                else Valid(asked))
            && valid == if fields.incoming then |Valid(asked)| else 0
  {
    hide IdAt, Valid;
    out, valid := o, 0;
    if fields.incoming {
      var ids;
      ids, valid := FetchIncoming(bytes, m, forUpdate, slots, o.incoming);
      out := out.(incoming := ids);
    }
    if fields.next {
      var next := ReadId(bytes, Capacity(m));
      out := out.(next := next);
    }
  }

  method FetchIncoming(bytes: seq<Byte>, m: nat, forUpdate: bool, slots: Option<seq<nat>>, scratch: seq<Id>)
    returns (ids: seq<Id>, valid: nat)
    requires Sized(bytes, m) && (slots.Some? ==> forall s :: s in slots.value ==> s < Capacity(m))
    requires |scratch| >= if slots.Some? then |slots.value| else Capacity(m)
    ensures var asked := Asked(View(bytes, m).incoming, slots);
            && ids == (if forUpdate then asked + scratch[|asked|..] else Valid(asked)) && valid == |Valid(asked)|
  {
    hide IdAt, Valid, Read;
    ghost var asked := Asked(View(bytes, m).incoming, slots);
    ids, valid := scratch, 0;
    var written := 0;
    ReadsNothing(asked, forUpdate, scratch);
    for i := 0 to if slots.Some? then |slots.value| else Capacity(m)
      invariant Read(asked, forUpdate, scratch, i, ids, written, valid)
    {
      assert slots.Some? ==> slots.value[i] in slots.value;
      var id := ReadId(bytes, if slots.Some? then slots.value[i] else i);
      ReadNext(asked, forUpdate, scratch, i, ids, written, valid);
      if id != 0 {
        valid := valid + 1;
      }
      if id != 0 || forUpdate {
        ids := ids[written := id];
        written := written + 1;
      }
    }
    ReadsAll(asked, forUpdate, scratch, ids, written, valid);
    if !forUpdate {
      ids := ids[..written];
    }
  }
}
