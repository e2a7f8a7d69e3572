/** The operations of a data page on its bytes: the search for a free slot, insert, purge and
    delete marks. Each is proved to change the page, taken as a map, at one slot only. */
module DataPageOps {
  import opened DataPage

  datatype PurgeAnswer = Purged | NotPurged | OutOfBounds

  class Page {
    const recSize: nat
    const capacity: nat
    const bitmapSize: nat
    const body: array<Byte>
    var numFree: nat

    ghost predicate Valid()
      reads this, body
    {
      && capacity >= 1 && Shaped(body[..], bitmapSize, recSize, capacity)
      && PaddingClear(body[..], capacity) && numFree == FreeCount(body[..], capacity)
    }

    /** The page as a map from slots to records. */
    ghost function Records(): (m: map<nat, Record>)
      requires Valid()
      reads this, body
    {
      View(body[..], bitmapSize, recSize, capacity)
    }

    /** A zeroed page: every slot is free. */
    constructor (recSize: nat, capacity: nat, bitmapSize: nat)
      requires recSize >= TRX + 1 && capacity >= 1 && BitmapBytes(capacity) <= bitmapSize
      ensures Valid() && Records() == map[] && numFree == capacity && fresh(body)
      ensures this.recSize == recSize && this.capacity == capacity && this.bitmapSize == bitmapSize
    {
      this.recSize, this.capacity, this.bitmapSize, numFree := recSize, capacity, bitmapSize, capacity;
      var size := Offset(bitmapSize, recSize, capacity);
      body := new Byte[size](_ => 0);
      new;
      assert forall s: nat :: s / 4 < |body[..]| ==> !StatusAt(body[..], s).taken;
      AllFree(body[..], capacity);
    }

    /** The least free pair of a bitmap byte. */
    method FreePairInByte(b: Byte) returns (found: bool, pair: nat)
      ensures found <==> exists p: nat :: p < 4 && !PairStatus(b, p).taken
      ensures found ==> pair < 4 && !PairStatus(b, pair).taken && forall p: nat :: p < pair ==> PairStatus(b, p).taken
    {
      FullByte(b);
      if b & 0xAA == 0xAA {
        return false, 0;
      }
      pair := 0;
      while pair < 3 && PairStatus(b, pair).taken
        invariant pair <= 3 && forall p: nat :: p < pair ==> PairStatus(b, p).taken
      {
        pair := pair + 1;
      }
      found := true;
    }

    /** The least free slot of a range of bitmap bytes. */
    method ScanBytes(first: nat, last: nat) returns (found: bool, slot: nat)
      requires first <= last <= body.Length
      ensures found ==>
                4 * first <= slot < 4 * last && !StatusAt(body[..], slot).taken && AllTaken(body[..], 4 * first, slot)
      ensures !found ==> AllTaken(body[..], 4 * first, 4 * last)
    {
      slot := 4 * first;
      for i := first to last
        invariant AllTaken(body[..], 4 * first, 4 * i)
      {
        var pair;
        found, pair := FreePairInByte(body[i]);
        if found {
          slot := 4 * i + pair;
          LeastInByte(body[..], 4 * first, i, pair);
          return;
        }
        NoneHere(body[..], 4 * first, i);
      }
      found := false;
    }

    /** The search for a free slot: the hint itself, then byte by byte from the hint's, then from
        the beginning. Unused pairs of the last byte look free, so when the capacity is no
        multiple of 4 the search stops there and names a slot the page does not have. */
    method FindFreeSlot(hint: nat) returns (found: bool, slot: nat)
      requires Valid() && hint < capacity
      ensures SearchResult(body[..], capacity, hint, found, slot)
    {
      ghost var bytes := body[..];
      slot := hint;
      InPage(bytes, bitmapSize, recSize, capacity, hint);
      hide Offset, Shaped, FreeCount, PaddingClear, SearchResult, PairStatus;
      if !PairStatus(body[hint / 4], hint % 4).taken {
        HintIsFree(bytes, capacity, hint);
        return true, slot;
      }
      hide AllTaken, StatusAt;
      found, slot := ScanBytes(hint / 4, BitmapBytes(capacity));
      if found {
        FoundAfter(bytes, capacity, slot, hint);
        return;
      }
      NoPadding(bytes, capacity, 4 * (hint / 4));
      found, slot := ScanBytes(0, hint / 4);
      if found {
        FoundBefore(bytes, capacity, slot, hint);
        return;
      }
      NothingFree(bytes, capacity, hint, slot);
    }

    method WriteBytes(at: nat, data: seq<Byte>)
      requires at + |data| <= body.Length
      modifies body
      ensures body[..] == Spliced(old(body[..]), at, data)
    {
      forall i | 0 <= i < |data| {
        body[at + i] := data[i];
      }
    }

    /** Stores a record in the slot the search finds, and moves the hint behind it. */
    method Insert(trx: seq<Byte>, data: seq<Byte>, hint: nat) returns (slot: nat, next: nat)
      requires Valid() && hint < capacity && |trx| == TRX && |data| == recSize - TRX &&
               FindsFree(body[..], capacity, hint)
      modifies this`numFree, body
      ensures Valid() && slot < capacity && slot !in old(Records())
      ensures Records() == old(Records())[slot := Record(trx, false, data)] && numFree == old(numFree) - 1
      ensures next == if slot + 1 == capacity then 0 else slot + 1
    {
      ghost var bytes := body[..];
      var found;
      found, slot := FindFreeSlot(hint);
      InPage(bytes, bitmapSize, recSize, capacity, slot);
      InsertOutcome(bytes, bitmapSize, recSize, capacity, slot, trx, data);
      next := if slot + 1 >= capacity then 0 else slot + 1;
      hide Shaped, FreeCount, PaddingClear, SearchResult, View, StatusAt, FindsFree;
      var o := Offset(bitmapSize, recSize, slot);
      WriteBytes(o, trx);
      WriteBytes(o + TRX, data);
      body[slot / 4] := Taken(body[slot / 4], slot % 4);
      numFree := numFree - 1;
      assert body[..] == Inserted(bytes, bitmapSize, recSize, capacity, slot, trx, data);
    }

    method ReadTrx(slot: nat) returns (trx: seq<Byte>)
      requires Valid() && slot < capacity
      ensures slot in Records() ==> trx == Records()[slot].trx
    {
      InPage(body[..], bitmapSize, recSize, capacity, slot);
      ViewAt(body[..], bitmapSize, recSize, capacity, slot);
      hide PaddingClear, FreeCount, View, Shaped;
      var o := Offset(bitmapSize, recSize, slot);
      trx := body[o..o + TRX];
    }

    /** Frees a taken slot whose record the transaction still owns; any other slot is left alone. */
    method Purge(slot: nat, trx: seq<Byte>) returns (r: PurgeAnswer)
      requires Valid() && |trx| == TRX
      modifies this`numFree, body
      ensures Valid() && (r == OutOfBounds <==> slot >= capacity)
      ensures r == Purged <==> slot in old(Records()) && old(Records())[slot].trx == trx
      ensures if r == Purged then Records() == old(Records()) - {slot} && numFree == old(numFree) + 1
              else Records() == old(Records()) && numFree == old(numFree)
    {
      if slot >= capacity {
        return OutOfBounds;
      }
      ghost var bytes := body[..];
      InPage(bytes, bitmapSize, recSize, capacity, slot);
      ViewAt(bytes, bitmapSize, recSize, capacity, slot);
      hide Shaped, FreeCount, PaddingClear, View, RecordAt, Offset, BitmapBytes;
      if !PairStatus(body[slot / 4], slot % 4).taken {
        return NotPurged;
      }
      var stored := ReadTrx(slot);
      if stored != trx {
        return NotPurged;
      }
      PurgeOutcome(bytes, bitmapSize, recSize, capacity, slot);
      hide StatusAt;
      body[slot / 4] := Freed(body[slot / 4], slot % 4);
      numFree := numFree + 1;
      assert body[..] == bytes[slot / 4 := Freed(bytes[slot / 4], slot % 4)];
      return Purged;
    }

    /** Sets or clears the delete mark of a taken slot, and the transaction that did so. */
    method MarkDelete(slot: nat, trx: seq<Byte>, mark: bool)
      requires Valid() && |trx| == TRX && slot in Records()
      modifies body
      ensures Valid() && slot in old(Records())
      ensures Records() == old(Records())[slot := old(Records())[slot].(trx := trx, deleted := mark)]
    {
      ghost var bytes := body[..];
      InPage(bytes, bitmapSize, recSize, capacity, slot);
      ViewAt(bytes, bitmapSize, recSize, capacity, slot);
      hide Shaped, FreeCount, PaddingClear, View, RecordAt, Offset, BitmapBytes;
      MarkOutcome(bytes, bitmapSize, recSize, capacity, slot, mark, trx);
      hide StatusAt;
      var b := body[slot / 4];
      body[slot / 4] := if mark then Marked(b, slot % 4) else Unmarked(b, slot % 4);
      WriteBytes(Offset(bitmapSize, recSize, slot), trx);
      assert body[..] == Remarked(bytes, bitmapSize, recSize, capacity, slot, mark, trx);
    }
  }

  predicate AllTaken(bytes: seq<Byte>, from: nat, to: nat)
    requires to <= 4 * |bytes|
  {
    forall s: nat :: from <= s < to ==> StatusAt(bytes, s).taken
  }

  /** What the search answers: a free slot of the page exactly if FindsFree; the first unused pair
      behind the last slot if there is one and nothing before it is free; or that nothing is free. */
  ghost predicate SearchResult(bytes: seq<Byte>, capacity: nat, hint: nat, found: bool, slot: nat)
    requires BitmapBytes(capacity) <= |bytes| && hint < capacity
  {
    && (found && slot < capacity <==> FindsFree(bytes, capacity, hint))
    && (found && slot < capacity ==>
          !StatusAt(bytes, slot).taken && (slot == hint || FirstFrom(bytes, capacity, hint, slot)))
    && (found && slot >= capacity ==> slot == capacity && capacity % 4 != 0)
    && (!found <==> capacity % 4 == 0 && FreeCount(bytes, capacity) == 0)
  }

  /** No free slot comes before this one in the order of the search. */
  predicate FirstFrom(bytes: seq<Byte>, capacity: nat, hint: nat, slot: nat)
    requires slot < capacity <= 4 * |bytes|
  {
    if slot >= 4 * (hint / 4) then AllTaken(bytes, 4 * (hint / 4), slot)
    else AllTaken(bytes, 0, slot) && AllTaken(bytes, 4 * (hint / 4), capacity)
  }

  lemma {:induction false} AllFree(bytes: seq<Byte>, n: nat)
    requires BitmapBytes(n) <= |bytes| && forall s: nat :: s < n ==> !StatusAt(bytes, s).taken
    ensures FreeCount(bytes, n) == n
  {
    if n > 0 {
      AllFree(bytes, n - 1);
    }
  }

  lemma FreeIsCounted(bytes: seq<Byte>, capacity: nat, slot: nat)
    requires BitmapBytes(capacity) <= |bytes| && slot < capacity && !StatusAt(bytes, slot).taken
    ensures FreeCount(bytes, capacity) > 0
  {
    SomeFreeIffCounted(bytes, capacity);
  }

  lemma NoneHere(bytes: seq<Byte>, from: nat, i: nat)
    requires i < |bytes| && (forall p: nat :: p < 4 ==> PairStatus(bytes[i], p).taken) && AllTaken(bytes, from, 4 * i)
    ensures AllTaken(bytes, from, 4 * (i + 1))
  {
    forall s: nat | from <= s < 4 * (i + 1) ensures StatusAt(bytes, s).taken {
      if s >= 4 * i {
        assert s / 4 == i && PairStatus(bytes[i], s % 4).taken;
      }
    }
  }

  lemma HintIsFree(bytes: seq<Byte>, capacity: nat, hint: nat)
    requires BitmapBytes(capacity) <= |bytes| && hint < capacity && !PairStatus(bytes[hint / 4], hint % 4).taken
    ensures SearchResult(bytes, capacity, hint, true, hint)
  {
    assert !StatusAt(bytes, hint).taken;
    FreeIsCounted(bytes, capacity, hint);
  }

  lemma LeastInByte(bytes: seq<Byte>, from: nat, i: nat, pair: nat)
    requires i < |bytes| && pair < 4 && AllTaken(bytes, from, 4 * i)
    requires !PairStatus(bytes[i], pair).taken && forall p: nat :: p < pair ==> PairStatus(bytes[i], p).taken
    ensures !StatusAt(bytes, 4 * i + pair).taken && AllTaken(bytes, from, 4 * i + pair)
  {
    assert (4 * i + pair) / 4 == i && (4 * i + pair) % 4 == pair;
    forall s: nat | from <= s < 4 * i + pair ensures StatusAt(bytes, s).taken {
      if s >= 4 * i {
        assert s / 4 == i && PairStatus(bytes[i], s % 4).taken;
      }
    }
  }

  lemma PaddingFound(bytes: seq<Byte>, capacity: nat, slot: nat, from: nat)
    requires BitmapBytes(capacity) <= |bytes| && PaddingClear(bytes, capacity) &&
             from <= capacity <= slot < 4 * BitmapBytes(capacity)
    requires AllTaken(bytes, from, slot)
    ensures slot == capacity && capacity % 4 != 0
  {
    WholeBytes(capacity);
    if capacity % 4 != 0 {
      PaddingIsFree(bytes, capacity);
    }
    hide StatusAt, PaddingClear, BitmapBytes;
  }

  lemma WholeBytes(capacity: nat)
    ensures capacity % 4 == 0 <==> 4 * BitmapBytes(capacity) == capacity
  {
  }

  lemma FoundAfter(bytes: seq<Byte>, capacity: nat, slot: nat, hint: nat)
    requires BitmapBytes(capacity) <= |bytes| && PaddingClear(bytes, capacity) && hint < capacity
    requires 4 * (hint / 4) <= slot < 4 * BitmapBytes(capacity)
    requires !StatusAt(bytes, slot).taken && AllTaken(bytes, 4 * (hint / 4), slot)
    ensures SearchResult(bytes, capacity, hint, true, slot)
  {
    if slot < capacity {
      FreeIsCounted(bytes, capacity, slot);
    } else {
      PaddingFound(bytes, capacity, slot, 4 * (hint / 4));
    }
  }

  lemma FoundBefore(bytes: seq<Byte>, capacity: nat, slot: nat, hint: nat)
    requires BitmapBytes(capacity) <= |bytes| && hint < capacity && capacity % 4 == 0
    requires slot < 4 * (hint / 4) && AllTaken(bytes, 4 * (hint / 4), capacity)
    requires !StatusAt(bytes, slot).taken && AllTaken(bytes, 0, slot)
    ensures SearchResult(bytes, capacity, hint, true, slot)
  {
    FreeIsCounted(bytes, capacity, slot);
  }

  /** If a whole scan to the last byte has found nothing, that byte has no unused pairs. */
  lemma NoPadding(bytes: seq<Byte>, capacity: nat, from: nat)
    requires BitmapBytes(capacity) <= |bytes| && PaddingClear(bytes, capacity)
    requires from <= capacity && AllTaken(bytes, from, 4 * BitmapBytes(capacity))
    ensures capacity % 4 == 0 && AllTaken(bytes, from, capacity)
  {
    if capacity % 4 != 0 {
      PaddingIsFree(bytes, capacity);
    }
  }

  lemma NothingFree(bytes: seq<Byte>, capacity: nat, hint: nat, slot: nat)
    requires BitmapBytes(capacity) <= |bytes| && hint < capacity && capacity % 4 == 0
    requires AllTaken(bytes, 0, 4 * (hint / 4)) && AllTaken(bytes, 4 * (hint / 4), capacity)
    ensures SearchResult(bytes, capacity, hint, false, slot)
  {
    SomeFreeIffCounted(bytes, capacity);
  }

  lemma PaddingIsFree(bytes: seq<Byte>, capacity: nat)
    requires BitmapBytes(capacity) <= |bytes| && PaddingClear(bytes, capacity) && capacity % 4 != 0
    ensures !StatusAt(bytes, capacity).taken
  {
  }

  // ------------------------------------------------------------------------------------------
  // When the search can be relied on.

  lemma FindsWhatIsThere(bytes: seq<Byte>, capacity: nat, hint: nat)
    requires BitmapBytes(capacity) <= |bytes| && hint < capacity && FreeCount(bytes, capacity) > 0
    requires capacity % 4 == 0 || capacity < 4
    ensures FindsFree(bytes, capacity, hint)
  {
    SomeFreeIffCounted(bytes, capacity);
  }

  /** A page with slot 0 free only, and a hint in the second bitmap byte. */
  function OnlyFirstFree(capacity: nat): (bytes: seq<Byte>)
    requires capacity > 4 && capacity % 4 != 0
  {
    [0xA8] + seq(BitmapBytes(capacity) - 2, _ => 0xAA) +
    [if capacity % 4 == 1 then 0x02 else if capacity % 4 == 2 then 0x0A else 0x2A]
  }

  lemma MissesFirstSlot(capacity: nat)
    requires capacity > 4 && capacity % 4 != 0
    ensures var bytes := OnlyFirstFree(capacity);
            && |bytes| == BitmapBytes(capacity) && PaddingClear(bytes, capacity) && FreeCount(bytes, capacity) > 0
            && !FindsFree(bytes, capacity, 4)
  {
    var bytes := OnlyFirstFree(capacity);
    forall s: nat | s < 4 * |bytes| ensures StatusAt(bytes, s).taken == (0 < s < capacity) {
      if s / 4 == |bytes| - 1 {
        assert s == 4 * (capacity / 4) + s % 4;
      }
    }
    FreeIsCounted(bytes, capacity, 0);
  }

  /** From every hint the search finds a free slot of every page that has one, exactly for the
      capacities that are multiples of 4 or fit into one bitmap byte. */
  lemma FindsEveryFreeSlotIff(capacity: nat)
    ensures capacity % 4 == 0 || capacity < 4 <==> Reliable(capacity)
  {
    if capacity % 4 == 0 || capacity < 4 {
      forall bytes, hint: nat | BitmapBytes(capacity) <= |bytes| && PaddingClear(bytes, capacity) && hint < capacity &&
                                FreeCount(bytes, capacity) > 0
        ensures FindsFree(bytes, capacity, hint)
      {
        FindsWhatIsThere(bytes, capacity, hint);
      }
    } else {
      MissesFirstSlot(capacity);
    }
  }

  ghost predicate Reliable(capacity: nat) {
    forall bytes: seq<Byte>, hint: nat ::
      BitmapBytes(capacity) <= |bytes| && PaddingClear(bytes, capacity) && hint < capacity &&
          FreeCount(bytes, capacity) > 0 ==>
      FindsFree(bytes, capacity, hint)
  }
}
