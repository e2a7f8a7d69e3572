/** The records area of a data page, byte by byte: two status bits for each slot, then the
    records. It refines a map from slots to records. */
module DataPage {

  type Byte = bv8

  const TRX: nat := 8

  datatype Status = Status(taken: bool, deleted: bool)

  datatype Record = Record(trx: seq<Byte>, deleted: bool, data: seq<Byte>)

  // ------------------------------------------------------------------------------------------
  // The two bits of a slot: bit 0 of its pair is the delete mark, bit 1 is set when it is taken.

  function MarkMask(pair: nat): (m: Byte)
    requires pair < 4
  {
    if pair == 0 then 0x01 else if pair == 1 then 0x04 else if pair == 2 then 0x10 else 0x40
  }

  function TakenMask(pair: nat): (m: Byte)
    requires pair < 4
  {
    if pair == 0 then 0x02 else if pair == 1 then 0x08 else if pair == 2 then 0x20 else 0x80
  }

  function PairStatus(b: Byte, pair: nat): (s: Status)
    requires pair < 4
  {
    Status(b & TakenMask(pair) != 0, b & MarkMask(pair) != 0)
  }

  function Taken(b: Byte, pair: nat): (b': Byte)
    requires pair < 4
  {
    (b | TakenMask(pair)) & !MarkMask(pair)
  }

  function Freed(b: Byte, pair: nat): (b': Byte)
    requires pair < 4
  {
    b & !TakenMask(pair) & !MarkMask(pair)
  }

  function Marked(b: Byte, pair: nat): (b': Byte)
    requires pair < 4
  {
    b | MarkMask(pair)
  }

  function Unmarked(b: Byte, pair: nat): (b': Byte)
    requires pair < 4
  {
    b & !MarkMask(pair)
  }

  // Each update sets its own pair and leaves the three others of the byte alone.

  lemma TakenBits(b: Byte, pair: nat, other: nat)
    requires pair < 4 && other < 4
    ensures (Taken(b, pair) & TakenMask(other) != 0) == (pair == other || b & TakenMask(other) != 0)
    ensures (Taken(b, pair) & MarkMask(other) != 0) == (pair != other && b & MarkMask(other) != 0)
  {
  }

  lemma PairTaken(b: Byte, pair: nat, other: nat)
    requires pair < 4 && other < 4
    ensures PairStatus(Taken(b, pair), other) == if other == pair then Status(true, false) else PairStatus(b, other)
  {
    TakenBits(b, pair, other);
    hide Taken, TakenMask, MarkMask;
  }

  lemma FreedBits(b: Byte, pair: nat, other: nat)
    requires pair < 4 && other < 4
    ensures (Freed(b, pair) & TakenMask(other) != 0) == (pair != other && b & TakenMask(other) != 0)
    ensures (Freed(b, pair) & MarkMask(other) != 0) == (pair != other && b & MarkMask(other) != 0)
  {
  }

  lemma PairFreed(b: Byte, pair: nat, other: nat)
    requires pair < 4 && other < 4
    ensures PairStatus(Freed(b, pair), other) == if other == pair then Status(false, false) else PairStatus(b, other)
  {
    FreedBits(b, pair, other);
    hide Freed, TakenMask, MarkMask;
  }

  lemma MarkedBits(b: Byte, pair: nat, other: nat)
    requires pair < 4 && other < 4
    ensures (Marked(b, pair) & TakenMask(other) != 0) == (b & TakenMask(other) != 0)
    ensures (Marked(b, pair) & MarkMask(other) != 0) == (pair == other || b & MarkMask(other) != 0)
  {
  }

  lemma PairMarked(b: Byte, pair: nat, other: nat)
    requires pair < 4 && other < 4
    ensures PairStatus(Marked(b, pair), other) ==
            if other == pair then PairStatus(b, other).(deleted := true) else PairStatus(b, other)
  {
    MarkedBits(b, pair, other);
    hide Marked, TakenMask, MarkMask;
  }

  lemma UnmarkedBits(b: Byte, pair: nat, other: nat)
    requires pair < 4 && other < 4
    ensures (Unmarked(b, pair) & TakenMask(other) != 0) == (b & TakenMask(other) != 0)
    ensures (Unmarked(b, pair) & MarkMask(other) != 0) == (pair != other && b & MarkMask(other) != 0)
  {
  }

  lemma PairUnmarked(b: Byte, pair: nat, other: nat)
    requires pair < 4 && other < 4
    ensures PairStatus(Unmarked(b, pair), other) ==
            if other == pair then PairStatus(b, other).(deleted := false) else PairStatus(b, other)
  {
    UnmarkedBits(b, pair, other);
    hide Unmarked, TakenMask, MarkMask;
  }

  /** All four slots of the byte are taken exactly when its free mask is full. */
  lemma FullByte(b: Byte)
    ensures b & 0xAA == 0xAA <==> forall pair: nat :: pair < 4 ==> PairStatus(b, pair).taken
  {
    assert b & 0xAA == 0xAA <==> b & 2 != 0 && b & 8 != 0 && b & 0x20 != 0 && b & 0x80 != 0;
    if forall pair: nat :: pair < 4 ==> PairStatus(b, pair).taken {
      assert PairStatus(b, 0).taken && PairStatus(b, 1).taken && PairStatus(b, 2).taken && PairStatus(b, 3).taken;
    }
  }

  // ------------------------------------------------------------------------------------------
  // The bitmap.

  function StatusAt(bytes: seq<Byte>, slot: nat): (s: Status)
    requires slot / 4 < |bytes|
  {
    PairStatus(bytes[slot / 4], slot % 4)
  }

  function BitmapBytes(capacity: nat): (n: nat) {
    (capacity * 2 + 7) / 8
  }

  function FreeCount(bytes: seq<Byte>, n: nat): (count: nat)
    requires BitmapBytes(n) <= |bytes|
    ensures count <= n
  {
    if n == 0 then 0 else FreeCount(bytes, n - 1) + (if StatusAt(bytes, n - 1).taken then 0 else 1)
  }

  /** Free records are counted slot by slot. */
  lemma {:induction false} FreeCountAfter(bytes: seq<Byte>, bytes': seq<Byte>, n: nat, slot: nat)
    requires BitmapBytes(n) <= |bytes| && |bytes'| == |bytes| && slot / 4 < |bytes|
    requires forall s: nat :: s < n && s != slot ==> StatusAt(bytes', s).taken == StatusAt(bytes, s).taken
    ensures FreeCount(bytes', n) == FreeCount(bytes, n) +
              (if slot >= n then 0
               else (if StatusAt(bytes, slot).taken then 1 else 0) - (if StatusAt(bytes', slot).taken then 1 else 0))
  {
    if n > 0 {
      FreeCountAfter(bytes, bytes', n - 1, slot);
    }
  }

  lemma {:induction false} SomeFreeIffCounted(bytes: seq<Byte>, n: nat)
    requires BitmapBytes(n) <= |bytes|
    ensures FreeCount(bytes, n) > 0 <==> exists s: nat :: s < n && !StatusAt(bytes, s).taken
  {
    if n > 0 {
      SomeFreeIffCounted(bytes, n - 1);
      if FreeCount(bytes, n - 1) > 0 {
        var s: nat :| s < n - 1 && !StatusAt(bytes, s).taken;
      } else if !StatusAt(bytes, n - 1).taken {
        assert n - 1 < n;
      }
    }
  }

  /** The pairs of the last bitmap byte that no slot uses are zero. */
  predicate PaddingClear(bytes: seq<Byte>, capacity: nat)
    requires BitmapBytes(capacity) <= |bytes|
  {
    forall s: nat :: capacity <= s < 4 * BitmapBytes(capacity) ==> !StatusAt(bytes, s).taken
  }

  /** A free slot in the hint's bitmap byte or after it; or any free slot, if no byte has padding. */
  predicate FindsFree(bytes: seq<Byte>, capacity: nat, hint: nat)
    requires BitmapBytes(capacity) <= |bytes|
  {
    || (exists s: nat :: 4 * (hint / 4) <= s < capacity && !StatusAt(bytes, s).taken)
    || (capacity % 4 == 0 && exists s: nat :: s < capacity && !StatusAt(bytes, s).taken)
  }

  // ------------------------------------------------------------------------------------------
  // The records.

  function Offset(base: nat, recSize: nat, slot: nat): (o: nat) {
    base + slot * recSize
  }

  lemma OffsetsApart(base: nat, recSize: nat, s: nat, t: nat)
    requires s < t
    ensures Offset(base, recSize, s) + recSize <= Offset(base, recSize, t)
  {
    assert (t - s - 1) * recSize >= 0;
    assert t * recSize == s * recSize + recSize + (t - s - 1) * recSize;
  }

  predicate Shaped(bytes: seq<Byte>, base: nat, recSize: nat, capacity: nat) {
    recSize >= TRX + 1 && BitmapBytes(capacity) <= base && Offset(base, recSize, capacity) <= |bytes|
  }

  lemma InPage(bytes: seq<Byte>, base: nat, recSize: nat, capacity: nat, slot: nat)
    requires Shaped(bytes, base, recSize, capacity) && slot < capacity
    ensures slot / 4 < base && Offset(base, recSize, slot) + recSize <= |bytes| &&
            BitmapBytes(capacity) <= base <= |bytes|
  {
    if slot + 1 < capacity {
      OffsetsApart(base, recSize, slot, slot + 1);
      OffsetsApart(base, recSize, slot + 1, capacity);
    } else {
      OffsetsApart(base, recSize, slot, capacity);
    }
  }

  function RecordAt(bytes: seq<Byte>, base: nat, recSize: nat, capacity: nat, slot: nat): (r: Record)
    requires Shaped(bytes, base, recSize, capacity) && slot < capacity
  {
    InPage(bytes, base, recSize, capacity, slot);
    var o := Offset(base, recSize, slot);
    Record(bytes[o..o + TRX], StatusAt(bytes, slot).deleted, bytes[o + TRX..o + recSize])
  }

  /** The records of the taken slots. */
  function View(bytes: seq<Byte>, base: nat, recSize: nat, capacity: nat): (m: map<nat, Record>)
    requires Shaped(bytes, base, recSize, capacity)
  {
    map s: nat | s < capacity && s / 4 < |bytes| && StatusAt(bytes, s).taken ::
      RecordAt(bytes, base, recSize, capacity, s)
  }

  /** Outside slot's bits and bytes nothing has changed. */
  predicate OnlySlot(bytes: seq<Byte>, bytes': seq<Byte>, base: nat, recSize: nat, capacity: nat, slot: nat)
    requires Shaped(bytes, base, recSize, capacity) && slot < capacity
  {
    && |bytes'| == |bytes|
    && (forall s: nat :: s < 4 * base && s != slot && s / 4 < |bytes| ==> StatusAt(bytes', s) == StatusAt(bytes, s))
    && var o := Offset(base, recSize, slot);
       forall i :: base <= i < |bytes| && !(o <= i < o + recSize) ==> bytes'[i] == bytes[i]
  }

  lemma Disjoint(base: nat, recSize: nat, slot: nat, s: nat)
    requires s != slot
    ensures Offset(base, recSize, s) + recSize <= Offset(base, recSize, slot) ||
            Offset(base, recSize, slot) + recSize <= Offset(base, recSize, s)
  {
    if s < slot {
      OffsetsApart(base, recSize, s, slot);
    } else {
      OffsetsApart(base, recSize, slot, s);
    }
  }

  lemma OthersKept(bytes: seq<Byte>, bytes': seq<Byte>, base: nat, recSize: nat, capacity: nat, slot: nat, s: nat)
    requires Shaped(bytes, base, recSize, capacity) && slot < capacity && s < capacity && s != slot
    requires OnlySlot(bytes, bytes', base, recSize, capacity, slot)
    ensures RecordAt(bytes', base, recSize, capacity, s) == RecordAt(bytes, base, recSize, capacity, s)
    ensures s / 4 < |bytes| && StatusAt(bytes', s) == StatusAt(bytes, s)
  {
    hide Offset, StatusAt;
    InPage(bytes, base, recSize, capacity, s);
    Disjoint(base, recSize, slot, s);
    BaseFirst(base, recSize, s);
    var o := Offset(base, recSize, s);
    assert bytes'[o..o + TRX] == bytes[o..o + TRX];
    assert bytes'[o + TRX..o + recSize] == bytes[o + TRX..o + recSize];
  }

  lemma BaseFirst(base: nat, recSize: nat, slot: nat)
    ensures base <= Offset(base, recSize, slot)
  {
  }

  /** The page as a map changes at that slot only. */
  lemma ViewAfter(bytes: seq<Byte>, bytes': seq<Byte>, base: nat, recSize: nat, capacity: nat, slot: nat)
    requires Shaped(bytes, base, recSize, capacity) && slot < capacity &&
             OnlySlot(bytes, bytes', base, recSize, capacity, slot)
    requires slot / 4 < |bytes|
    ensures var view, view' := View(bytes, base, recSize, capacity), View(bytes', base, recSize, capacity);
            view' == if StatusAt(bytes', slot).taken then view[slot := RecordAt(bytes', base, recSize, capacity, slot)]
                     else view - {slot}
  {
    var view, view' := View(bytes, base, recSize, capacity), View(bytes', base, recSize, capacity);
    forall s: nat | s < capacity && s != slot
      ensures (s in view' <==> s in view) && (s in view ==> view'[s] == view[s])
    {
      OthersKept(bytes, bytes', base, recSize, capacity, slot, s);
    }
    hide StatusAt, RecordAt, OnlySlot, Shaped;
  }

  // ------------------------------------------------------------------------------------------
  // Byte updates.

  lemma AfterTaken(bytes: seq<Byte>, slot: nat, s: nat)
    requires slot / 4 < |bytes| && s / 4 < |bytes|
    ensures StatusAt(bytes[slot / 4 := Taken(bytes[slot / 4], slot % 4)], s) ==
            if s == slot then Status(true, false) else StatusAt(bytes, s)
  {
    PairTaken(bytes[slot / 4], slot % 4, s % 4);
    SamePlace(slot, s);
  }

  lemma AfterFreed(bytes: seq<Byte>, slot: nat, s: nat)
    requires slot / 4 < |bytes| && s / 4 < |bytes|
    ensures StatusAt(bytes[slot / 4 := Freed(bytes[slot / 4], slot % 4)], s) ==
            if s == slot then Status(false, false) else StatusAt(bytes, s)
  {
    PairFreed(bytes[slot / 4], slot % 4, s % 4);
    SamePlace(slot, s);
  }

  lemma AfterMarked(bytes: seq<Byte>, slot: nat, mark: bool, s: nat)
    requires slot / 4 < |bytes| && s / 4 < |bytes|
    ensures var b := bytes[slot / 4];
            StatusAt(bytes[slot / 4 := if mark then Marked(b, slot % 4) else Unmarked(b, slot % 4)], s) ==
            if s == slot then StatusAt(bytes, s).(deleted := mark) else StatusAt(bytes, s)
  {
    PairMarked(bytes[slot / 4], slot % 4, s % 4);
    PairUnmarked(bytes[slot / 4], slot % 4, s % 4);
    SamePlace(slot, s);
  }

  lemma SamePlace(s: nat, t: nat)
    ensures s == t <==> s / 4 == t / 4 && s % 4 == t % 4
  {
  }

  function Spliced(bytes: seq<Byte>, at: nat, data: seq<Byte>): (r: seq<Byte>)
    requires at + |data| <= |bytes|
    ensures |r| == |bytes|
    ensures forall i :: 0 <= i < |r| ==> r[i] == if at <= i < at + |data| then data[i - at] else bytes[i]
  {
    bytes[..at] + data + bytes[at + |data|..]
  }

  /** A record written and its slot taken. */
  function Inserted(bytes: seq<Byte>, base: nat, recSize: nat, capacity: nat, slot: nat, trx: seq<Byte>,
                    data: seq<Byte>): (r: seq<Byte>)
    requires Shaped(bytes, base, recSize, capacity) && slot < capacity && |trx| == TRX && |data| == recSize - TRX
    ensures |r| == |bytes|
  {
    InPage(bytes, base, recSize, capacity, slot);
    var o := Offset(base, recSize, slot);
    var written := Spliced(Spliced(bytes, o, trx), o + TRX, data);
    written[slot / 4 := Taken(written[slot / 4], slot % 4)]
  }

  lemma InsertedBytes(bytes: seq<Byte>, base: nat, recSize: nat, capacity: nat, slot: nat, trx: seq<Byte>,
                      data: seq<Byte>)
    requires Shaped(bytes, base, recSize, capacity) && slot < capacity && |trx| == TRX && |data| == recSize - TRX
    ensures slot / 4 < base <= |bytes|
    ensures var bytes' := Inserted(bytes, base, recSize, capacity, slot, trx, data);
            && OnlySlot(bytes, bytes', base, recSize, capacity, slot) && Shaped(bytes', base, recSize, capacity)
            && StatusAt(bytes', slot).taken
            && RecordAt(bytes', base, recSize, capacity, slot) == Record(trx, false, data)
  {
    hide Offset, Taken;
    InPage(bytes, base, recSize, capacity, slot);
    BaseFirst(base, recSize, slot);
    var o := Offset(base, recSize, slot);
    var written := Spliced(Spliced(bytes, o, trx), o + TRX, data);
    var bytes' := written[slot / 4 := Taken(written[slot / 4], slot % 4)];
    forall s: nat | s < 4 * base && s / 4 < |bytes|
      ensures StatusAt(bytes', s) == if s == slot then Status(true, false) else StatusAt(bytes, s)
    {
      AfterTaken(written, slot, s);
    }
    hide StatusAt, Spliced;
    assert bytes'[o..o + TRX] == trx;
    assert bytes'[o + TRX..o + recSize] == data;
  }

  /** The page after an insert into a free slot. */
  lemma InsertOutcome(bytes: seq<Byte>, base: nat, recSize: nat, capacity: nat, slot: nat, trx: seq<Byte>,
                      data: seq<Byte>)
    requires Shaped(bytes, base, recSize, capacity) && slot < capacity && |trx| == TRX && |data| == recSize - TRX
    requires BitmapBytes(capacity) <= |bytes| && PaddingClear(bytes, capacity)
    requires slot / 4 < |bytes| && !StatusAt(bytes, slot).taken
    ensures var bytes' := Inserted(bytes, base, recSize, capacity, slot, trx, data);
            && Shaped(bytes', base, recSize, capacity) && PaddingClear(bytes', capacity)
            && FreeCount(bytes, capacity) >= 1 && FreeCount(bytes', capacity) == FreeCount(bytes, capacity) - 1
            && slot !in View(bytes, base, recSize, capacity)
            && View(bytes', base, recSize, capacity) ==
                 View(bytes, base, recSize, capacity)[slot := Record(trx, false, data)]
  {
    hide Shaped, PaddingClear, FreeCount, View, StatusAt, OnlySlot, Inserted, RecordAt;
    InsertedBytes(bytes, base, recSize, capacity, slot, trx, data);
    SlotChanged(bytes, Inserted(bytes, base, recSize, capacity, slot, trx, data), base, recSize, capacity, slot);
    ViewAt(bytes, base, recSize, capacity, slot);
    SomeFreeIffCounted(bytes, capacity);
  }

  /** The page after a taken slot is freed. */
  lemma PurgeOutcome(bytes: seq<Byte>, base: nat, recSize: nat, capacity: nat, slot: nat)
    requires Shaped(bytes, base, recSize, capacity) && slot < capacity
    requires BitmapBytes(capacity) <= |bytes| && PaddingClear(bytes, capacity)
    requires slot / 4 < |bytes| && StatusAt(bytes, slot).taken
    ensures var bytes' := bytes[slot / 4 := Freed(bytes[slot / 4], slot % 4)];
            && Shaped(bytes', base, recSize, capacity) && PaddingClear(bytes', capacity)
            && FreeCount(bytes', capacity) == FreeCount(bytes, capacity) + 1
            && View(bytes', base, recSize, capacity) == View(bytes, base, recSize, capacity) - {slot}
  {
    hide Shaped, PaddingClear, FreeCount, View, StatusAt, OnlySlot, Freed, RecordAt;
    PurgedBytes(bytes, base, recSize, capacity, slot);
    SlotChanged(bytes, bytes[slot / 4 := Freed(bytes[slot / 4], slot % 4)], base, recSize, capacity, slot);
  }

  lemma PurgedBytes(bytes: seq<Byte>, base: nat, recSize: nat, capacity: nat, slot: nat)
    requires Shaped(bytes, base, recSize, capacity) && slot < capacity
    ensures slot / 4 < base && slot / 4 < |bytes|
    ensures var bytes' := bytes[slot / 4 := Freed(bytes[slot / 4], slot % 4)];
            && OnlySlot(bytes, bytes', base, recSize, capacity, slot) && Shaped(bytes', base, recSize, capacity)
            && !StatusAt(bytes', slot).taken
  {
    hide Offset, Freed;
    InPage(bytes, base, recSize, capacity, slot);
    BaseFirst(base, recSize, slot);
    var bytes' := bytes[slot / 4 := Freed(bytes[slot / 4], slot % 4)];
    forall s: nat | s / 4 < |bytes|
      ensures StatusAt(bytes', s) == if s == slot then Status(false, false) else StatusAt(bytes, s)
    {
      AfterFreed(bytes, slot, s);
    }
    hide StatusAt;
  }

  /** The delete mark set or cleared, and the transaction written. */
  function Remarked(bytes: seq<Byte>, base: nat, recSize: nat, capacity: nat, slot: nat, mark: bool,
                    trx: seq<Byte>): (r: seq<Byte>)
    requires Shaped(bytes, base, recSize, capacity) && slot < capacity && |trx| == TRX
    ensures |r| == |bytes|
  {
    InPage(bytes, base, recSize, capacity, slot);
    var b := bytes[slot / 4];
    Spliced(bytes[slot / 4 := if mark then Marked(b, slot % 4) else Unmarked(b, slot % 4)],
            Offset(base, recSize, slot), trx)
  }

  lemma MarkedBytes(bytes: seq<Byte>, base: nat, recSize: nat, capacity: nat, slot: nat, mark: bool, trx: seq<Byte>)
    requires Shaped(bytes, base, recSize, capacity) && slot < capacity && |trx| == TRX
    ensures slot / 4 < base <= |bytes|
    ensures var bytes' := Remarked(bytes, base, recSize, capacity, slot, mark, trx);
            && OnlySlot(bytes, bytes', base, recSize, capacity, slot) && Shaped(bytes', base, recSize, capacity)
            && StatusAt(bytes', slot) == StatusAt(bytes, slot).(deleted := mark)
            && RecordAt(bytes', base, recSize, capacity, slot) ==
                 RecordAt(bytes, base, recSize, capacity, slot).(trx := trx, deleted := mark)
  {
    hide Offset, Marked, Unmarked;
    InPage(bytes, base, recSize, capacity, slot);
    BaseFirst(base, recSize, slot);
    var o, b := Offset(base, recSize, slot), bytes[slot / 4];
    var marked := bytes[slot / 4 := if mark then Marked(b, slot % 4) else Unmarked(b, slot % 4)];
    var bytes' := Spliced(marked, o, trx);
    forall s: nat | s < 4 * base && s / 4 < |bytes|
      ensures StatusAt(bytes', s) == if s == slot then StatusAt(bytes, s).(deleted := mark) else StatusAt(bytes, s)
    {
      AfterMarked(bytes, slot, mark, s);
    }
    hide StatusAt, Spliced;
    assert bytes'[o..o + TRX] == trx;
    assert bytes'[o + TRX..o + recSize] == bytes[o + TRX..o + recSize];
  }

  /** The page after the delete mark of a taken slot is set or cleared. */
  lemma MarkOutcome(bytes: seq<Byte>, base: nat, recSize: nat, capacity: nat, slot: nat, mark: bool, trx: seq<Byte>)
    requires Shaped(bytes, base, recSize, capacity) && slot < capacity && |trx| == TRX
    requires BitmapBytes(capacity) <= |bytes| && PaddingClear(bytes, capacity)
    requires slot / 4 < |bytes| && StatusAt(bytes, slot).taken
    ensures var bytes' := Remarked(bytes, base, recSize, capacity, slot, mark, trx);
            && Shaped(bytes', base, recSize, capacity) && PaddingClear(bytes', capacity)
            && FreeCount(bytes', capacity) == FreeCount(bytes, capacity)
            && var view := View(bytes, base, recSize, capacity);
               slot in view &&
               View(bytes', base, recSize, capacity) == view[slot := view[slot].(trx := trx, deleted := mark)]
  {
    hide Shaped, PaddingClear, FreeCount, View, StatusAt, OnlySlot, Remarked, RecordAt;
    MarkedBytes(bytes, base, recSize, capacity, slot, mark, trx);
    SlotChanged(bytes, Remarked(bytes, base, recSize, capacity, slot, mark, trx), base, recSize, capacity, slot);
    ViewAt(bytes, base, recSize, capacity, slot);
  }

  lemma PaddingKept(bytes: seq<Byte>, bytes': seq<Byte>, base: nat, recSize: nat, capacity: nat, slot: nat)
    requires Shaped(bytes, base, recSize, capacity) && slot < capacity &&
             OnlySlot(bytes, bytes', base, recSize, capacity, slot)
    requires BitmapBytes(capacity) <= |bytes| && BitmapBytes(capacity) <= |bytes'| && PaddingClear(bytes, capacity)
    ensures PaddingClear(bytes', capacity)
  {
    hide StatusAt;
  }

  /** What a change at one slot means for the map, the count of free records and the padding. */
  lemma SlotChanged(bytes: seq<Byte>, bytes': seq<Byte>, base: nat, recSize: nat, capacity: nat, slot: nat)
    requires Shaped(bytes, base, recSize, capacity) && Shaped(bytes', base, recSize, capacity) && slot < capacity
    requires OnlySlot(bytes, bytes', base, recSize, capacity, slot)
    requires BitmapBytes(capacity) <= |bytes| && BitmapBytes(capacity) <= |bytes'| && PaddingClear(bytes, capacity)
    ensures slot / 4 < |bytes| && slot / 4 < |bytes'| && PaddingClear(bytes', capacity)
    ensures FreeCount(bytes', capacity) == FreeCount(bytes, capacity) +
              (if StatusAt(bytes, slot).taken then 1 else 0) - (if StatusAt(bytes', slot).taken then 1 else 0)
    ensures var view, view' := View(bytes, base, recSize, capacity), View(bytes', base, recSize, capacity);
            view' == if StatusAt(bytes', slot).taken then view[slot := RecordAt(bytes', base, recSize, capacity, slot)]
                     else view - {slot}
  {
    hide View, FreeCount, RecordAt, PaddingClear, StatusAt;
    InPage(bytes, base, recSize, capacity, slot);
    ViewAfter(bytes, bytes', base, recSize, capacity, slot);
    PaddingKept(bytes, bytes', base, recSize, capacity, slot);
    FreeCountAfter(bytes, bytes', capacity, slot);
  }

  /** A slot is in the map exactly when it is taken, with the bytes of its record. */
  lemma ViewAt(bytes: seq<Byte>, base: nat, recSize: nat, capacity: nat, slot: nat)
    requires Shaped(bytes, base, recSize, capacity) && slot < capacity
    ensures slot / 4 < |bytes|
    ensures var view := View(bytes, base, recSize, capacity);
            (slot in view <==> StatusAt(bytes, slot).taken) &&
                (slot in view ==> view[slot] == RecordAt(bytes, base, recSize, capacity, slot))
  {
    InPage(bytes, base, recSize, capacity, slot);
  }
}
