/** Node ids: a column reference of 46 bits, and the incoming flag in bit 46. */
module Nid {

  const INCOMING_BIT: nat := 0x4000_0000_0000
  const MAX_SLOT_INDEX: nat := 16383
  const PAGE_REFS: nat := 0x1_0000_0000

  type Id = x: nat | x < 0x1_0000_0000_0000

  datatype Location = Location(page: nat, slot: nat)

  function EncodeColumnRef(page: nat, slot: nat): (ref: nat)
    requires page < PAGE_REFS && slot <= MAX_SLOT_INDEX
  {
    page + slot * PAGE_REFS
  }

  /** Bits above the slot index are ignored. */
  function DecodeColumnRef(ref: nat): (l: Location) {
    Location(ref % PAGE_REFS, ref / PAGE_REFS % (MAX_SLOT_INDEX + 1))
  }

  predicate IsIncoming(nid: nat) {
    nid / INCOMING_BIT % 2 == 1
  }

  function SetIncoming(nid: nat): (r: nat) {
    if IsIncoming(nid) then nid else nid + INCOMING_BIT
  }

  function ClearIncoming(nid: nat): (r: nat) {
    if IsIncoming(nid) then nid - INCOMING_BIT else nid
  }

  function ColumnRef(nid: nat): (ref: nat) {
    nid % INCOMING_BIT
  }

  /** A reference leaves bit 46 and above clear, and decodes to its page and slot with the flag set or not. */
  lemma ReferenceRoundTrip(page: nat, slot: nat)
    requires page < PAGE_REFS && slot <= MAX_SLOT_INDEX
    ensures var ref := EncodeColumnRef(page, slot);
            && ref < INCOMING_BIT && !IsIncoming(ref) && IsIncoming(SetIncoming(ref))
            && SetIncoming(ref) < 0x1_0000_0000_0000
            && ColumnRef(SetIncoming(ref)) == ColumnRef(ref) == ref && ClearIncoming(SetIncoming(ref)) == ref
            && DecodeColumnRef(ref) == DecodeColumnRef(SetIncoming(ref)) == Location(page, slot)
  {
    var ref := EncodeColumnRef(page, slot);
    assert ref / PAGE_REFS == slot;
    assert SetIncoming(ref) == page + (slot + 16384) * PAGE_REFS;
    assert SetIncoming(ref) / PAGE_REFS == slot + 16384;
  }

  /** Different places have different references. */
  lemma ReferencesAreUnique(page: nat, slot: nat, page': nat, slot': nat)
    requires page < PAGE_REFS && slot <= MAX_SLOT_INDEX && page' < PAGE_REFS && slot' <= MAX_SLOT_INDEX
    requires ColumnRef(SetIncoming(EncodeColumnRef(page, slot))) == ColumnRef(EncodeColumnRef(page', slot'))
    ensures page == page' && slot == slot'
  {
    ReferenceRoundTrip(page, slot);
    ReferenceRoundTrip(page', slot');
  }
}
