/** One column store: its root page's slot array and counters, its data pages, and the insert,
    mark_delete and purge paths. Each method is what runs under one uninterrupted set of latches;
    where the source gives latches up and takes others, another method begins, so any
    interleaving of threads is a sequence of these calls. */
module ColumnStore {
  import opened FreeLists
  import opened StoreInvariant

  const FREE_SLOT_STEP: nat := 16

  datatype ColRef = ColRef(page: Ref, slot: nat)

  datatype InsertError = NoData | WrongLength

  /** Twice as many slots, but no more than 16 more and no more than `most`. */
  function Grown(slots: nat, most: nat): (n: nat) {
    if slots <= FREE_SLOT_STEP && 2 * slots <= most then 2 * slots
    else if slots > FREE_SLOT_STEP && slots + FREE_SLOT_STEP <= most then slots + FREE_SLOT_STEP
    else most
  }

  datatype TryResult = Inserted(ref: ColRef) | NeedsRoot(grow: bool) | Refused(error: InsertError)

  datatype PurgeResult = Purged | Kept | NeedsRootPage | NoSuchPage | NoSuchSlot

  /** What a caller may ask of the store. `added` is the page a new data page would get. */
  datatype Operation =
    | Insert(data: Bytes, trx: nat, concurrency: nat, added: Ref)
    | Purge(ref: ColRef, trx: nat)
    | Mark(ref: ColRef, trx: nat, mark: bool)
    | Fetch(ref: ColRef)

  /** What the caller is told. `NoPage`: the segment had no page to give, `NotAllowed`: a mark or fetch
      that the source asserts never to be asked for. */
  datatype Answer = Row(ref: ColRef) | Failed(error: InsertError) | NoPage | Purging(result: PurgeResult) | Marked |
                    Found(record: Record) | SlotFree | NoRecord | NotAllowed

  datatype Bytes = Null | Bytes(data: seq<nat>)

  /** The thread's last chosen slot of some root page, and where to look for a free record. */
  class LastSlot {
    var page: Ref
    var slot: nat
    var hint: nat

    constructor ()
      ensures page == NULL && slot == 0 && hint == 0
    {
      page, slot, hint := NULL, 0, 0;
    }
  }

  /** The page that takes the next record: the head of the slot's list, or else a new one. */
  function Candidate(slots: seq<Ref>, slot: nat, added: Ref): (p: Ref) {
    if slot < |slots| && slots[slot] != NULL then slots[slot] else added
  }

  class Store {
    const root: Ref
    const capacity: nat
    const columnSize: nat
    const maxSlots: nat

    var slots: seq<Ref>
    var totalFree: nat
    var totalData: nat
    var head: Ref
    var tail: Ref
    var pages: Pages

    ghost var lists: seq<seq<Ref>>
    ghost var all: seq<Ref>

    ghost predicate ValidBut(loose: set<Ref>)
      reads this
    {
      && root != NULL && root !in pages && capacity >= 1 && 1 <= |slots| <= maxSlots < INVALID_SLOT
      && ListsOk(pages, root, slots, lists) && OnLists(pages, lists) && SizesOk(pages, capacity)
      && PlacesOk(pages, capacity, loose) && AllList(pages, head, tail, all)
      && totalFree == Total(lists) && totalData == |all|
    }

    ghost predicate Valid()
      reads this
    {
      ValidBut({})
    }

    constructor (root: Ref, capacity: nat, columnSize: nat, maxSlots: nat)
      requires root != NULL && capacity >= 1 && 1 <= maxSlots < INVALID_SLOT
      ensures Valid() && pages == map[] && slots == [NULL] && lists == [[]]
      ensures this.root == root && this.capacity == capacity && this.columnSize == columnSize &&
              this.maxSlots == maxSlots
    {
      this.root, this.capacity, this.columnSize, this.maxSlots := root, capacity, columnSize, maxSlots;
      slots, totalFree, totalData, head, tail, pages := [NULL], 0, 0, NULL, NULL, map[];
      lists, all := [[]], [];
      new;
      assert lists[..0] == [];
    }

    /** Doubles the slot array, by 16 at most, up to its maximum; a full array stays as it is. */
    method GrowFreeSlots()
      requires Valid()
      modifies this`slots, this`lists
      ensures Valid()
      ensures |slots| == Grown(old(|slots|), maxSlots)
      ensures old(slots) <= slots && old(lists) <= lists
      ensures forall i :: old(|slots|) <= i < |slots| ==> slots[i] == NULL && lists[i] == []
    {
      hide ListsOk, OnLists, AllList, Total, SizesOk, PlacesOk;
      var growth := if |slots| < FREE_SLOT_STEP then |slots| else FREE_SLOT_STEP;
      var size := |slots| + growth;
      if size > maxSlots {
        size := maxSlots;
      }
      SameNumber(pages, root, slots, lists);
      ghost var n := size - |slots|;
      EmptyListsAdded(pages, root, slots, lists, n);
      TotalAfterGrowth(lists, n);
      ghost var before := slots;
      while |slots| < size
        invariant lists == old(lists)
        invariant |before| <= |slots| <= size && slots == before + seq(|slots| - |before|, _ => NULL)
        decreases size - |slots|
      {
        slots := slots + [NULL];
      }
      lists := lists + seq(n, _ => []);
    }

    /** The page at the head of the thread's slot, NULL if that list is empty. A slot remembered for
        another root page, or beyond the array, is replaced by a random one. */
    method PageSelect(last: LastSlot) returns (page: Ref)
      requires Valid()
      modifies last
      ensures last.page == root && last.slot < |slots| && page == slots[last.slot] == First(lists[last.slot])
      ensures if old(last.page) == root && old(last.slot) < |slots|
              then last.slot == old(last.slot) && last.hint == old(last.hint)
              else last.hint == 0
    {
      if last.page != root || last.slot >= |slots| {
        var random :| 0 <= random < |slots|;
        last.page, last.slot, last.hint := root, random, 0;
      }
      page := slots[last.slot];
      assert FreeList(pages, root, slots[last.slot], lists[last.slot], last.slot);
    }

    method AddFreePage(p: Ref, slot: nat)
      requires ValidBut({p}) && p in pages && slot < |slots| && pages[p].numFree >= 1
      requires !Listed(pages[p]) && pages[p].slotNo == INVALID_SLOT
      modifies this`slots, this`pages, this`totalFree, this`lists
      ensures |slots| == old(|slots|) == |old(lists)|
      ensures Valid() && lists == old(lists)[slot := [p] + old(lists)[slot]] && pages.Keys == old(pages).Keys
      ensures SameRecordsBut(old(pages), pages, p) && RetiredStay(old(pages), pages)
      ensures p in pages && Listed(pages[p]) && pages[p].slotNo == slot
      ensures pages[p].used == old(pages)[p].used && pages[p].numFree == old(pages)[p].numFree
    {
      hide ListsOk, OnLists, AllList, Total, SizesOk, PlacesOk, SameRecordsBut, RetiredStay;
      SameNumber(pages, root, slots, lists);
      PushOutcome(pages, root, slots, lists, head, tail, all, p, slot, capacity);
      TotalAfterUpdate(lists, slot, [p] + lists[slot]);
      var first := slots[slot];
      if first != NULL {
        pages := pages[first := pages[first].(prevFree := p)];
      }
      slots := slots[slot := p];
      pages := pages[p := pages[p].(prevFree := root, nextFree := first, slotNo := slot)];
      totalFree := totalFree + 1;
      lists := lists[slot := [p] + lists[slot]];
    }

    method RemoveFreePage(p: Ref)
      requires Valid() && p in pages && Listed(pages[p])
      modifies this`slots, this`pages, this`totalFree, this`lists
      ensures Valid() && SameRecordsBut(old(pages), pages, p) && RetiredStay(old(pages), pages)
      ensures pages[p].slotNo == old(pages)[p].slotNo
      ensures |slots| == old(|slots|) && pages.Keys == old(pages).Keys && Retired(pages[p]) &&
              pages[p].used == old(pages)[p].used && pages[p].numFree == old(pages)[p].numFree
      ensures var slot := old(pages)[p].slotNo;
              && slot < |old(lists)|
              && exists k :: 0 <= k < |old(lists)[slot]| && old(lists)[slot][k] == p &&
                             lists == old(lists)[slot := Removed(old(lists)[slot], k)]
    {
      hide ListsOk, OnLists, AllList, Total, SizesOk, PlacesOk, SameRecordsBut, RetiredStay, Listed, Retired, Removed;
      SameNumber(pages, root, slots, lists);
      var slot, prev, next := pages[p].slotNo, pages[p].prevFree, pages[p].nextFree;
      ghost var k := PlaceOnList(pages, lists, p);
      UnlinkOutcome(pages, root, slots, lists, head, tail, all, p, k, capacity);
      TotalAfterUpdate(lists, slot, Removed(lists[slot], k));
      if prev == root {
        slots := slots[slot := next];
      } else {
        pages := pages[prev := pages[prev].(nextFree := next)];
      }
      if next != NULL {
        pages := pages[next := pages[next].(prevFree := prev)];
      }
      pages := pages[p := pages[p].(prevFree := NULL, nextFree := NULL)];
      totalFree := totalFree - 1;
      lists := lists[slot := Removed(lists[slot], k)];
    }

    /** Formats a page the segment has handed out and makes it the first of all pages. */
    method AddDataPage(added: Ref)
      requires Valid() && added !in pages && added != NULL && added != root
      modifies this`pages, this`head, this`tail, this`totalData, this`all
      ensures ValidBut({added}) && all == [added] + old(all) && pages.Keys == old(pages).Keys + {added}
      ensures !Listed(pages[added]) && pages[added].slotNo == INVALID_SLOT && pages[added].nextFree == NULL
      ensures pages[added].used == map[] && pages[added].numFree == capacity
      ensures SameRecordsBut(old(pages), pages, added) && RetiredStay(old(pages), pages)
    {
      hide ListsOk, OnLists, AllList, Total, SizesOk, PlacesOk, SameRecordsBut, RetiredStay;
      var page := Page(INVALID_SLOT, NULL, NULL, NULL, head, capacity, map[]);
      NewPageOutcome(pages, root, slots, lists, head, tail, all, added, page, capacity);
      if head == NULL {
        tail := added;
        pages := pages[added := page];
      } else {
        pages := pages[head := pages[head].(prev := added)][added := page];
      }
      hide WithNewPage;
      head := added;
      totalData := totalData + 1;
      all := [added] + all;
    }

    /** Writes a record into a free slot of a page whose latch is held; which free slot it is, the
        search of the page's bitmap decides. */
    method InsertRecord(p: Ref, record: Record, last: LastSlot) returns (ref: ColRef)
      requires ValidBut({p}) && p in pages && pages[p].numFree >= (if Listed(pages[p]) then 2 else 1)
      requires !Listed(pages[p]) ==> pages[p].nextFree == NULL && (pages[p].slotNo == INVALID_SLOT ==> capacity == 1)
      modifies this`pages, last`hint
      ensures Valid() && ref.page == p && ref.slot < capacity && ref.slot !in old(pages)[p].used
      ensures pages == old(pages)[p := old(pages)[p].(used := old(pages)[p].used[ref.slot := record],
                                                       numFree := old(pages)[p].numFree - 1)]
      ensures last.hint == if ref.slot + 1 == capacity then 0 else ref.slot + 1
    {
      hide ListsOk, OnLists, AllList, Total, SizesOk, PlacesOk, SameRecordsBut, RetiredStay, Sized;
      var page := pages[p];
      SizedPage(pages, capacity, p);
      FreeSlotExists(page, capacity);
      var slot :| 0 <= slot < capacity && slot !in page.used;
      TakenSlot(page, capacity, slot, record);
      var page' := page.(used := page.used[slot := record], numFree := page.numFree - 1);
      RecordsOutcome(pages, root, slots, lists, head, tail, all, p, page', capacity, {p});
      pages := pages[p := page'];
      Tightened(pages, capacity, p);
      last.hint := if slot + 1 >= capacity then 0 else slot + 1;
      ref := ColRef(p, slot);
    }

    /** The insert under a shared root latch: it writes one data page only, and gives up when the
        slot has no page, the page would be full, or the slot array should grow. */
    method TryInsert(data: Bytes, trx: nat, concurrency: nat, last: LastSlot) returns (r: TryResult)
      requires Valid()
      modifies this`pages, last
      ensures Valid() && RetiredStay(old(pages), pages)
      ensures r.Refused? <==> data.Null? || |data.data| != columnSize
      ensures r.Refused? ==> r.error == if data.Null? then NoData else WrongLength
      ensures pages.Keys == old(pages).Keys && (!r.Inserted? ==> pages == old(pages))
      ensures r.NeedsRoot? ==> r.grow == (concurrency > |slots| && |slots| < maxSlots)
      ensures !r.Refused? ==>
                && last.page == root && last.slot < |slots|
                && (r.NeedsRoot? <==> (concurrency > |slots| && |slots| < maxSlots) || slots[last.slot] == NULL ||
                                      (slots[last.slot] in old(pages) && old(pages)[slots[last.slot]].numFree == 1))
      ensures r.Inserted? ==>
                && r.ref.page in old(pages) && r.ref.page in pages && r.ref.page == slots[last.slot] &&
                   last.hint == (if r.ref.slot + 1 == capacity then 0 else r.ref.slot + 1)
                && pages[r.ref.page].numFree == old(pages)[r.ref.page].numFree - 1
      ensures r.Inserted? ==> Stored(old(pages), r.ref, Record(trx, false, data.data)) && Listed(pages[r.ref.page])
    {
      hide ListsOk, OnLists, AllList, Total, SizesOk, PlacesOk, SameRecordsBut, RetiredStay, Sized;
      NothingRetires(pages);
      if data.Null? {
        return Refused(NoData);
      }
      if |data.data| != columnSize {
        return Refused(WrongLength);
      }
      var p := PageSelect(last);
      FirstIsListed(pages, root, slots, lists, last.slot);
      var grow := concurrency > |slots| && |slots| < maxSlots;
      if grow || p == NULL || pages[p].numFree == 1 {
        return NeedsRoot(grow);
      }
      Loosened(pages, capacity, p);
      var ref := InsertRecord(p, Record(trx, false, data.data), last);
      RetiredAcross(old(pages), old(pages), pages, p);
      OthersUnchanged(old(pages), pages, ref.page);
      return Inserted(ref);
    }

    /** The record is new at ref, and no other record of any page has changed. */
    ghost predicate Stored(before: Pages, ref: ColRef, record: Record)
      reads this
    {
      && ref.page in pages && ref.slot < capacity
      && var used := if ref.page in before then before[ref.page].used else map[];
      && ref.slot !in used && pages[ref.page].used == used[ref.slot := record]
      && SameRecordsBut(before, pages, ref.page)
    }

    /** The page that takes a record: the head of the slot's list, which leaves the list if it will be
        full, or a new page, which joins the list unless one record fills it. */
    method PreparePage(first: Ref, slot: nat, added: Ref) returns (p: Ref)
      requires Valid() && slot < |slots| && first == slots[slot] && added !in pages && added != NULL && added != root
      modifies this
      ensures ValidBut({p}) && p in pages && p == Candidate(old(slots), slot, added)
      ensures p in old(pages) ==> Listed(old(pages)[p])
      ensures pages.Keys == old(pages).Keys + {p} && SameRecordsBut(old(pages), pages, p) &&
              RetiredStay(old(pages), pages)
      ensures |slots| == old(|slots|) && |lists| == |old(lists)| &&
              forall i :: 0 <= i < |old(lists)| && i != slot ==> lists[i] == old(lists)[i]
      ensures pages[p].used == (if p in old(pages) then old(pages)[p].used else map[])
      ensures 1 <= pages[p].numFree == if p in old(pages) then old(pages)[p].numFree else capacity
      ensures pages[p].slotNo == if p in old(pages) then old(pages)[p].slotNo
                                 else if capacity == 1 then INVALID_SLOT else slot
      ensures Listed(pages[p]) <==> pages[p].numFree > 1
      ensures !Listed(pages[p]) ==> pages[p].nextFree == NULL && (pages[p].slotNo == INVALID_SLOT ==> capacity == 1)
    {
      hide ListsOk, OnLists, AllList, Total, SizesOk, PlacesOk, SameRecordsBut, RetiredStay, Sized;
      FirstIsListed(pages, root, slots, lists, slot);
      p := first;
      if p == NULL {
        p := added;
        AddDataPage(added);
        ghost var formatted := pages;
        if pages[p].numFree != 1 {
          AddFreePage(p, slot);
          RetiredForGood(old(pages), formatted, pages);
          RecordsAcross(old(pages), formatted, pages, p);
          Loosened(pages, capacity, p);
        }
      } else {
        NothingRetires(pages);
        SameRecordsHere(pages, p);
        if pages[p].numFree == 1 {
          RemoveFreePage(p);
        }
        PlacedPage(pages, capacity, {}, p);
        Loosened(pages, capacity, p);
      }
    }

    /** The insert under an exclusive root latch. It decides everything anew: the slot array grows,
        and the head of the thread's list, or a new page, takes the record. A page leaves its list
        exactly when it becomes full. */
    method InsertUnderRoot(data: seq<nat>, trx: nat, grow: bool, added: Ref, last: LastSlot) returns (ref: ColRef)
      requires Valid() && |data| == columnSize && added !in pages && added != NULL && added != root
      modifies this, last
      ensures Valid() && RetiredStay(old(pages), pages) && Stored(old(pages), ref, Record(trx, false, data))
      ensures last.slot < |slots| && ref.page == Candidate(old(slots), last.slot, added)
      ensures pages.Keys == old(pages).Keys + {ref.page}
      ensures pages[ref.page].numFree == (if ref.page in old(pages) then old(pages)[ref.page].numFree else capacity) - 1
      ensures pages[ref.page].slotNo == if ref.page in old(pages) then old(pages)[ref.page].slotNo
                                        else if capacity == 1 then INVALID_SLOT else last.slot
      ensures old(|slots|) <= |slots| == if grow then Grown(old(|slots|), maxSlots) else old(|slots|)
      ensures last.page == root && last.hint == if ref.slot + 1 == capacity then 0 else ref.slot + 1
      ensures |lists| >= |old(lists)| &&
              forall i :: 0 <= i < |old(lists)| && i != last.slot ==> lists[i] == old(lists)[i]
      ensures Listed(pages[ref.page]) <==> pages[ref.page].numFree > 0
    {
      hide ListsOk, OnLists, AllList, Total, SizesOk, PlacesOk, SameRecordsBut, RetiredStay, Sized;
      var record := Record(trx, false, data);
      if grow {
        GrowFreeSlots();
      }
      assert pages == old(pages);
      var p := PageSelect(last);
      p := PreparePage(p, last.slot, added);
      ghost var linked := pages;
      ref := InsertRecord(p, record, last);
      RetiredAcross(old(pages), linked, pages, p);
      OthersUnchanged(linked, pages, ref.page);
      RecordsAcross(old(pages), linked, pages, p);
    }

    /** The first empty slot, or a random one if every list has a page. */
    method GetFreeSlot() returns (slot: nat)
      requires |slots| >= 1
      ensures slot < |slots|
      ensures NULL in slots ==> slots[slot] == NULL && NULL !in slots[..slot]
    {
      slot := 0;
      while slot < |slots|
        invariant slot <= |slots| && NULL !in slots[..slot]
      {
        if slots[slot] == NULL {
          return;
        }
        slot := slot + 1;
      }
      slot :| 0 <= slot < |slots|;
    }

    /** Frees the record if it is there and still belongs to the transaction. */
    method PurgeRecord(p: Ref, slot: nat, trx: nat) returns (r: PurgeResult)
      requires Valid() && p in pages
      modifies this`pages
      ensures ValidBut({p}) && (pages[p].slotNo != INVALID_SLOT || r != Purged ==> Valid())
      ensures r in {Purged, Kept, NoSuchSlot} && (r == NoSuchSlot <==> slot >= capacity)
      ensures r == Purged <==> slot < capacity && slot in old(pages)[p].used && old(pages)[p].used[slot].trx == trx
      ensures pages == if r != Purged then old(pages) else
                       old(pages)[p := old(pages)[p].(used := old(pages)[p].used - {slot},
                                                      numFree := old(pages)[p].numFree + 1)]
      ensures RetiredStay(old(pages), pages)
      ensures SameRecordsBut(old(pages), pages, p)
    {
      hide ListsOk, OnLists, AllList, Total, SizesOk, PlacesOk, SameRecordsBut, RetiredStay, Sized;
      Loosened(pages, capacity, p);
      NothingRetires(pages);
      SameRecordsHere(pages, p);
      if slot >= capacity {
        return NoSuchSlot;
      }
      var page := pages[p];
      if slot !in page.used || page.used[slot].trx != trx {
        return Kept;
      }
      SizedPage(pages, capacity, p);
      FreedSlot(page, capacity, slot);
      PlacedPage(pages, capacity, {}, p);
      var page' := page.(used := page.used - {slot}, numFree := page.numFree + 1);
      RecordsOutcome(pages, root, slots, lists, head, tail, all, p, page', capacity, {p});
      pages := pages[p := page'];
      if page.slotNo != INVALID_SLOT {
        Tightened(pages, capacity, p);
      }
      return Purged;
    }

    /** The purge under the data page's latch alone. It asks for the root page only for a page that
        holds a single record and has never been listed; and when it does not ask, the purged page
        does not have to be listed. */
    method TryPurge(ref: ColRef, trx: nat) returns (r: PurgeResult)
      requires Valid()
      modifies this`pages
      ensures Valid() && RetiredStay(old(pages), pages) && SameRecordsBut(old(pages), pages, ref.page)
      ensures r == NoSuchPage <==> ref.page !in old(pages)
      ensures r == NeedsRootPage <==> ref.page in old(pages) && NeedsAdd(old(pages)[ref.page], capacity, true)
      ensures r == NeedsRootPage ==> capacity == 1 && !Listed(old(pages)[ref.page]) && old(pages)[ref.page].numFree == 0
      ensures r == Purged ==>
                && ref.page in pages && !NeedsAdd(pages[ref.page], capacity, false)
                && ref.slot in old(pages)[ref.page].used && old(pages)[ref.page].used[ref.slot].trx == trx
                && pages[ref.page].used == old(pages)[ref.page].used - {ref.slot}
                && pages[ref.page].numFree == old(pages)[ref.page].numFree + 1
      ensures r != Purged ==> pages == old(pages)
      ensures r == Purged <== r != NeedsRootPage && Holds(old(pages), ref) &&
                              old(pages)[ref.page].used[ref.slot].trx == trx
      ensures r == NoSuchSlot <==> ref.page in old(pages) && r != NeedsRootPage && ref.slot >= capacity
      ensures pages.Keys == old(pages).Keys
    {
      hide ListsOk, OnLists, AllList, Total, SizesOk, PlacesOk, SameRecordsBut, RetiredStay, Sized;
      NothingRetires(pages);
      SameRecordsHere(pages, ref.page);
      if ref.page !in pages {
        return NoSuchPage;
      }
      SlotsInRange(pages, capacity, ref.page);
      if pages[ref.page].slotNo == INVALID_SLOT {
        NeverListed(pages, root, slots, lists, capacity, ref.page);
        AlmostFullIsNeeded(pages[ref.page], capacity);
      }
      if NeedsAdd(pages[ref.page], capacity, true) {
        return NeedsRootPage;
      }
      SizedPage(pages, capacity, ref.page);
      if ref.slot in pages[ref.page].used {
        PreCheckIsEnough(pages[ref.page], ref.slot, capacity);
      }
      r := PurgeRecord(ref.page, ref.slot, trx);
    }

    /** The purge under the root page's exclusive latch, deciding everything anew. */
    method PurgeUnderRoot(ref: ColRef, trx: nat) returns (r: PurgeResult)
      requires Valid()
      modifies this`pages, this`slots, this`lists, this`totalFree
      ensures Valid() && RetiredStay(old(pages), pages) && SameRecordsBut(old(pages), pages, ref.page)
      ensures r == NoSuchPage <==> ref.page !in old(pages)
      ensures r != Purged ==> pages == old(pages) && lists == old(lists)
      ensures r == Purged ==>
                && ref.page in pages && !NeedsAdd(pages[ref.page], capacity, false)
                && ref.slot in old(pages)[ref.page].used && old(pages)[ref.page].used[ref.slot].trx == trx
                && pages[ref.page].used == old(pages)[ref.page].used - {ref.slot}
                && pages[ref.page].numFree == old(pages)[ref.page].numFree + 1
      ensures r == Purged ==>
                if old(pages)[ref.page].slotNo != INVALID_SLOT then lists == old(lists)
                else
                  var slot := pages[ref.page].slotNo;
                  && Listed(pages[ref.page]) && slot < |old(lists)| &&
                     lists == old(lists)[slot := [ref.page] + old(lists)[slot]]
                  && (NULL in old(slots) ==> old(slots)[slot] == NULL)
      ensures r == Purged <== Holds(old(pages), ref) && old(pages)[ref.page].used[ref.slot].trx == trx
      ensures r in {Purged, Kept, NoSuchPage, NoSuchSlot} &&
              (r == NoSuchSlot <==> ref.page in old(pages) && ref.slot >= capacity)
      ensures pages.Keys == old(pages).Keys && |slots| == old(|slots|)
    {
      hide ListsOk, OnLists, AllList, Total, SizesOk, PlacesOk, SameRecordsBut, RetiredStay, Sized;
      NothingRetires(pages);
      SameRecordsHere(pages, ref.page);
      if ref.page !in pages {
        return NoSuchPage;
      }
      var p := ref.page;
      SlotsInRange(pages, capacity, p);
      if pages[p].slotNo == INVALID_SLOT {
        NeverListed(pages, root, slots, lists, capacity, p);
      }
      r := PurgeRecord(p, ref.slot, trx);
      ghost var purged := pages;
      assert purged.Keys == old(pages).Keys;
      if r == Purged && NeedsAdd(pages[p], capacity, false) {
        var slot := GetFreeSlot();
        AddFreePage(p, slot);
        RetiredForGood(old(pages), purged, pages);
        RecordsAcross(old(pages), purged, pages, p);
      }
    }

    /** Sets or clears the delete mark, and the transaction that did so. */
    method MarkDelete(ref: ColRef, trx: nat, mark: bool) returns (ok: bool)
      requires Valid()
      requires ref.page in pages ==> ref.slot in pages[ref.page].used &&
                                     Markable(pages[ref.page].used[ref.slot], trx, mark)
      modifies this`pages
      ensures Valid() && RetiredStay(old(pages), pages) && SameRecordsBut(old(pages), pages, ref.page)
      ensures (ok <==> ref.page in old(pages)) && pages.Keys == old(pages).Keys
      ensures if !ok then pages == old(pages) else
              && ref.page in pages
              && var used := old(pages)[ref.page].used;
              pages[ref.page].used == used[ref.slot := used[ref.slot].(trx := trx, deleted := mark)]
    {
      hide ListsOk, OnLists, AllList, Total, SizesOk, PlacesOk, SameRecordsBut, RetiredStay, Sized;
      NothingRetires(pages);
      SameRecordsHere(pages, ref.page);
      if ref.page !in pages {
        return false;
      }
      var page := pages[ref.page];
      SizedPage(pages, capacity, ref.page);
      PlacedPage(pages, capacity, {}, ref.page);
      var record := page.used[ref.slot].(deleted := mark);
      if record.trx != trx {
        record := record.(trx := trx);
      }
      MarkedSlot(page, capacity, ref.slot, record);
      if Listed(page) {
        ListedHasFree(pages, root, slots, lists, ref.page);
      }
      var page' := page.(used := page.used[ref.slot := record]);
      RecordsOutcome(pages, root, slots, lists, head, tail, all, ref.page, page', capacity, {});
      pages := pages[ref.page := page'];
      return true;
    }

    /** An insert stores its record, and does so whenever the data has the column's length and the
        segment can give a page; otherwise nothing changes. */
    ghost predicate InsertAnswered(before: Pages, data: Bytes, trx: nat, added: Ref, a: Answer)
      reads this
    {
      if data.Null? then a == Failed(NoData) && pages == before
      else if |data.data| != columnSize then a == Failed(WrongLength) && pages == before
      else if a.Row? then
        Stored(before, a.ref, Record(trx, false, data.data)) && pages.Keys == before.Keys + {a.ref.page}
      else a == NoPage && pages == before && (added in before || added == NULL || added == root)
    }

    /** A purge takes away exactly the record it names, if that is there and belongs to the transaction. */
    ghost predicate PurgeAnswered(before: Pages, ref: ColRef, trx: nat, a: Answer)
      reads this
    {
      if Holds(before, ref) && before[ref.page].used[ref.slot].trx == trx
      then a == Purging(Purged) && Changed(before, pages, ref, before[ref.page].used - {ref.slot})
      else
        && pages == before
        && a == Purging(if ref.page !in before then NoSuchPage
                        else if ref.slot >= capacity then NoSuchSlot else Kept)
    }

    /** A mark changes the delete mark and the transaction of exactly the record it names. */
    ghost predicate MarkAnswered(before: Pages, ref: ColRef, trx: nat, mark: bool, a: Answer)
      reads this
    {
      if Holds(before, ref) && Markable(before[ref.page].used[ref.slot], trx, mark)
      then
        var used := before[ref.page].used;
        a == Marked && Changed(before, pages, ref, used[ref.slot := Record(trx, mark, used[ref.slot].data)])
      else a == (if ref.page in before then NotAllowed else NoRecord) && pages == before
    }

    /** A fetch reads the record it names and changes nothing. */
    ghost predicate FetchAnswered(before: Pages, ref: ColRef, a: Answer)
      reads this
    {
      && pages == before
      && if Holds(before, ref) then a == Found(before[ref.page].used[ref.slot])
         else a == if ref.page !in before then NoRecord else if ref.slot >= capacity then NotAllowed else SlotFree
    }

    /** One operation as a caller sees it: without the root page if possible. */
    method Serve(op: Operation, last: LastSlot) returns (a: Answer)
      requires Valid()
      modifies this, last
      ensures Valid() && RetiredStay(old(pages), pages)
      ensures match op
              case Insert(data, trx, _, added) => InsertAnswered(old(pages), data, trx, added, a)
              case Purge(ref, trx) => PurgeAnswered(old(pages), ref, trx, a)
              case Mark(ref, trx, mark) => MarkAnswered(old(pages), ref, trx, mark, a)
              case Fetch(ref) => FetchAnswered(old(pages), ref, a)
    {
      hide ListsOk, OnLists, AllList, Total, SizesOk, PlacesOk, SameRecordsBut, RetiredStay, Sized;
      match op {
        case Insert(data, trx, concurrency, added) =>
          a := ServeInsert(data, trx, concurrency, added, last);
        case Purge(ref, trx) =>
          a := ServePurge(ref, trx);
        case Mark(ref, trx, mark) =>
          a := ServeMark(ref, trx, mark);
        case Fetch(ref) =>
          NothingRetires(pages);
          a := ServeFetch(ref);
      }
    }

    method ServeInsert(data: Bytes, trx: nat, concurrency: nat, added: Ref, last: LastSlot) returns (a: Answer)
      requires Valid()
      modifies this, last
      ensures Valid() && RetiredStay(old(pages), pages) && InsertAnswered(old(pages), data, trx, added, a)
    {
      hide ListsOk, OnLists, AllList, Total, SizesOk, PlacesOk, SameRecordsBut, RetiredStay, Sized;
      NothingRetires(pages);
      var r := TryInsert(data, trx, concurrency, last);
      match r {
        case Inserted(ref) => a := Row(ref);
        case Refused(error) => a := Failed(error);
        case NeedsRoot(grow) =>
          if added in pages || added == NULL || added == root {
            return NoPage;
          }
          var ref := InsertUnderRoot(data.data, trx, grow, added, last);
          a := Row(ref);
      }
    }

    method ServePurge(ref: ColRef, trx: nat) returns (a: Answer)
      requires Valid()
      modifies this
      ensures Valid() && RetiredStay(old(pages), pages) && PurgeAnswered(old(pages), ref, trx, a)
    {
      hide ListsOk, OnLists, AllList, Total, SizesOk, PlacesOk, SameRecordsBut, RetiredStay, Sized;
      var r := TryPurge(ref, trx);
      if r == NeedsRootPage {
        r := PurgeUnderRoot(ref, trx);
      }
      a := Purging(r);
    }

    method ServeMark(ref: ColRef, trx: nat, mark: bool) returns (a: Answer)
      requires Valid()
      modifies this
      ensures Valid() && RetiredStay(old(pages), pages) && MarkAnswered(old(pages), ref, trx, mark, a)
    {
      hide ListsOk, OnLists, AllList, Total, SizesOk, PlacesOk, SameRecordsBut, RetiredStay, Sized;
      NothingRetires(pages);
      if ref.page in pages &&
         !(ref.slot in pages[ref.page].used && Markable(pages[ref.page].used[ref.slot], trx, mark)) {
        return NotAllowed;
      }
      var ok := MarkDelete(ref, trx, mark);
      a := if ok then Marked else NoRecord;
    }

    method ServeFetch(ref: ColRef) returns (a: Answer)
      requires Valid()
      ensures FetchAnswered(pages, ref, a)
    {
      hide ListsOk, OnLists, AllList, Total, SizesOk, PlacesOk;
      if ref.page !in pages {
        return NoRecord;
      }
      SlotsInRange(pages, capacity, ref.page);
      if ref.slot >= capacity {
        return NotAllowed;
      }
      var used := pages[ref.page].used;
      a := if ref.slot in used then Found(used[ref.slot]) else SlotFree;
    }

    lemma ServedRefines(contents: Contents, before: Pages, op: Operation, a: Answer)
      requires Represents(contents, before)
      requires match op
               case Insert(data, trx, _, added) => InsertAnswered(before, data, trx, added, a)
               case Purge(ref, trx) => PurgeAnswered(before, ref, trx, a)
               case Mark(ref, trx, mark) => MarkAnswered(before, ref, trx, mark, a)
               case Fetch(ref) => FetchAnswered(before, ref, a)
      ensures Right(columnSize, contents, op, a) && Represents(After(contents, op, a), pages)
    {
    }

    /** Any sequence of operations does to the store what its answers say to a map from references to
        records. A page that has been full is on no list afterwards, and takes no record any more. */
    method ServeAll(ops: seq<Operation>, last: LastSlot, ghost contents: Contents) returns (answers: seq<Answer>)
      requires Valid() && Represents(contents, pages)
      modifies this, last
      ensures Valid()
      ensures |answers| == |ops| && AllRight(columnSize, contents, ops, answers)
      ensures Represents(Replay(contents, ops, answers), pages)
      ensures forall p :: p in old(pages) && Retired(old(pages)[p]) ==>
                && p in pages && pages[p].used.Keys <= old(pages)[p].used.Keys
                && forall i :: 0 <= i < |lists| ==> p !in lists[i]
    {
      hide ListsOk, OnLists, AllList, Total, SizesOk, PlacesOk, RetiredStay, Represents, Right, AllRight, Replay, After,
           InsertAnswered, PurgeAnswered, MarkAnswered, FetchAnswered;
      ghost var first := pages;
      NothingRetires(pages);
      answers := [];
      NothingServed(columnSize, contents);
      for k := 0 to |ops|
        invariant Valid() && RetiredStay(first, pages) && |answers| == k
        invariant AllRight(columnSize, contents, ops[..k], answers)
        invariant Represents(Replay(contents, ops[..k], answers), pages)
      {
        ghost var before := pages;
        var a := Serve(ops[k], last);
        RetiredForGood(first, before, pages);
        ServedRefines(Replay(contents, ops[..k], answers), before, ops[k], a);
        OneMoreServed(columnSize, contents, ops, answers, k, a);
        answers := answers + [a];
      }
      assert ops[..|ops|] == ops;
      forall p | p in first && Retired(first[p])
        ensures p in pages && pages[p].used.Keys <= first[p].used.Keys &&
                forall i :: 0 <= i < |lists| ==> p !in lists[i]
      {
        StaysRetired(first, pages, p);
        NotOnAnyList(pages, root, slots, lists, p);
      }
    }
  }

  predicate Holds(pages: Pages, ref: ColRef) {
    ref.page in pages && ref.slot in pages[ref.page].used
  }

  /** The records of ref's page are these now, and all others are as before. */
  ghost predicate Changed(before: Pages, after: Pages, ref: ColRef, used: map<nat, Record>) {
    ref.page in after && after[ref.page].used == used && after.Keys == before.Keys &&
    SameRecordsBut(before, after, ref.page)
  }

  /** The store as its callers know it. */
  type Contents = map<ColRef, Record>

  ghost predicate Represents(contents: Contents, pages: Pages) {
    forall ref: ColRef ::
      && (ref in contents <==> Holds(pages, ref))
      && (ref in contents ==> contents[ref] == pages[ref.page].used[ref.slot])
  }

  /** What an answered operation has done. */
  function After(contents: Contents, op: Operation, a: Answer): (contents': Contents) {
    match op
    case Insert(data, trx, _, _) =>
      if a.Row? && data.Bytes? then contents[a.ref := Record(trx, false, data.data)] else contents
    case Purge(ref, _) => if a == Purging(Purged) then contents - {ref} else contents
    case Mark(ref, trx, mark) =>
      if a == Marked && ref in contents then contents[ref := Record(trx, mark, contents[ref].data)] else contents
    case Fetch(_) => contents
  }

  /** A new reference is not in use; a purge, a mark and a fetch find what is there. */
  ghost predicate Right(columnSize: nat, contents: Contents, op: Operation, a: Answer) {
    match op
    case Insert(data, _, _, _) =>
      if data.Null? then a == Failed(NoData)
      else if |data.data| != columnSize then a == Failed(WrongLength)
      else a == NoPage || (a.Row? && a.ref !in contents)
    case Purge(ref, trx) => a.Purging? && (a.result == Purged <==> ref in contents && contents[ref].trx == trx)
    case Mark(ref, trx, mark) => a == Marked <==> ref in contents && Markable(contents[ref], trx, mark)
    case Fetch(ref) => if ref in contents then a == Found(contents[ref]) else a in {SlotFree, NoRecord, NotAllowed}
  }

  ghost function Replay(contents: Contents, ops: seq<Operation>, answers: seq<Answer>): Contents
    requires |ops| == |answers|
  {
    if ops == [] then contents
    else
      var k := |ops| - 1;
      After(Replay(contents, ops[..k], answers[..k]), ops[k], answers[k])
  }

  ghost predicate AllRight(columnSize: nat, contents: Contents, ops: seq<Operation>, answers: seq<Answer>)
    requires |ops| == |answers|
  {
    forall k :: 0 <= k < |ops| ==> Right(columnSize, Replay(contents, ops[..k], answers[..k]), ops[k], answers[k])
  }

  lemma NothingServed(columnSize: nat, contents: Contents)
    ensures AllRight(columnSize, contents, [], []) && Replay(contents, [], []) == contents
  {
  }

  lemma OneMoreServed(columnSize: nat, contents: Contents, ops: seq<Operation>, answers: seq<Answer>, k: nat, a: Answer)
    requires k < |ops| && |answers| == k && AllRight(columnSize, contents, ops[..k], answers)
    requires Right(columnSize, Replay(contents, ops[..k], answers), ops[k], a)
    ensures AllRight(columnSize, contents, ops[..k + 1], answers + [a])
    ensures Replay(contents, ops[..k + 1], answers + [a]) ==
            After(Replay(contents, ops[..k], answers), ops[k], a)
  {
    hide Right, After;
    var more, told := ops[..k + 1], answers + [a];
    assert more[..k] == ops[..k] && told[..k] == answers;
    forall i | 0 <= i < |more| ensures Right(columnSize, Replay(contents, more[..i], told[..i]), more[i], told[i]) {
      if i < k {
        assert more[..i] == ops[..k][..i] && told[..i] == answers[..i] && more[i] == ops[..k][i];
      }
    }
  }

  /** Marking asks for an unmarked record, unmarking for one's own or a marked one. */
  predicate Markable(record: Record, trx: nat, mark: bool) {
    if mark then !record.deleted else record.trx == trx || record.deleted
  }

  /** A single-record page filled, purged and filled again. */
  method FullTwice(root: Ref, first: Ref, second: Ref, last: LastSlot) returns (store: Store, ref: ColRef)
    requires root != NULL && first != NULL && second != NULL && root != first && first != second && second != root
    modifies last
    ensures store.Valid() && store.capacity == 1 && store.columnSize == 1 && store.root == root && fresh(store)
    ensures |store.slots| == 1 && store.pages.Keys == {first} && Retired(store.pages[first])
    ensures ref == ColRef(first, 0) && store.pages[first].used == map[0 := Record(2, false, [7])] &&
            store.pages[first].numFree == 0
  {
    hide ListsOk, OnLists, SizesOk, PlacesOk, AllList, RetiredStay, SameRecordsBut, NeedsAdd, Total, First;
    store := new Store(root, 1, 1, 1);
    ref := store.InsertUnderRoot([7], 1, false, first, last);
    assert store.pages[first].slotNo == INVALID_SLOT;
    var purged := store.PurgeUnderRoot(ref, 1);
    OnlyPage(store.pages, root, store.slots, store.lists, first);
    ref := store.InsertUnderRoot([7], 2, false, second, last);
    assert ref == ColRef(first, 0) && Retired(store.pages[first]);
  }

  /** A page that has been full never comes back, even when every record on it has been purged:
      here its only slot is free, its slot number still names a list, and the next insert takes a
      new page. */
  method FullOnceIsLost(root: Ref, first: Ref, second: Ref) returns (store: Store)
    requires root != NULL && first != NULL && second != NULL && root != first && first != second && second != root
    ensures store.Valid() && store.capacity == 1
    ensures first in store.pages && store.pages[first].used == map[] && store.pages[first].numFree == 1
    ensures store.pages[first].slotNo != INVALID_SLOT && forall i :: 0 <= i < |store.lists| ==> first !in store.lists[i]
    ensures second in store.pages && store.pages[second].used != map[]
  {
    hide ListsOk, OnLists, SizesOk, PlacesOk, AllList, RetiredStay, SameRecordsBut, NeedsAdd, Total, First;
    var last := new LastSlot();
    var ref: ColRef;
    store, ref := FullTwice(root, first, second, last);
    ghost var full := store.pages;
    var purged := store.PurgeUnderRoot(ref, 2);
    StaysRetired(full, store.pages, first);
    OnlyPage(store.pages, root, store.slots, store.lists, first);
    ghost var empty := store.pages;
    ref := store.InsertUnderRoot([7], 3, false, second, last);
    StaysRetired(empty, store.pages, first);
    KeepsRecords(empty, store.pages, second, first);
    NotOnAnyList(store.pages, root, store.slots, store.lists, first);
  }

  /** The array can be full when it is grown: two inserts both see one slot of two and decide to grow
      under the shared root latch, and the first to get it exclusively fills the array. */
  method GrowRace(root: Ref, page: Ref) returns (store: Store, slow: TryResult)
    requires root != NULL && page != NULL && root != page
    ensures store.Valid() && store.maxSlots == 2
    ensures slow == NeedsRoot(true) && |store.slots| == store.maxSlots
  {
    hide ListsOk, OnLists, SizesOk, PlacesOk, AllList, RetiredStay, SameRecordsBut, Total, First;
    store := new Store(root, 1, 1, 2);
    var mine := new LastSlot();
    var other := new LastSlot();
    var fast := store.TryInsert(Bytes([7]), 1, 2, mine);
    slow := store.TryInsert(Bytes([7]), 2, 2, other);
    if fast.NeedsRoot? {
      var ref := store.InsertUnderRoot([7], 1, fast.grow, page, mine);
    }
  }
}
