/** The stored record of a node at one level: its chunk layout, and insert, update and fetch on
    the bytes, each proved against the record taken as owner, lower link, neighbours and overflow. */
module LevelRecord {
  import opened Wrappers
  import opened BigEndian
  import opened Nid
  import opened ColumnUpdate

  const ID: nat := 6
  const MAX_M: nat := 128

  datatype Link = Link(nid: Id, vid: Id)

  datatype Entry = Entry(owner: Id, lower: Id, neighbours: seq<Link>, overflow: Id)

  datatype Mask = Mask(owner: bool, lower: bool, neighbours: bool, overflow: bool)

  /** A chunk index and the id that goes there. */
  datatype Patch = Patch(idx: nat, value: Id)

  // ------------------------------------------------------------------------------------------
  // The layout: owner, lower link above level 0, a nid and a vid for each slot, overflow link.

  function MaxNeighbours(level: nat, m: nat): (n: nat) {
    if level == 0 then 2 * m else m
  }

  function NidChunk(level: nat, slot: nat): (idx: nat) {
    (if level > 0 then 2 else 1) + 2 * slot
  }

  function VidChunk(level: nat, slot: nat): (idx: nat) {
    NidChunk(level, slot) + 1
  }

  function OverflowChunk(level: nat, m: nat): (idx: nat) {
    NidChunk(level, MaxNeighbours(level, m))
  }

  function Chunks(level: nat, m: nat): (n: nat) {
    OverflowChunk(level, m) + 1
  }

  /** The most chunks one update of any level writes. */
  function MaxUpdateChunks(m: nat): (n: nat) {
    OverflowChunk(0, m) + 1
  }

  /** The size of a stored entry. */
  function StorageSize(level: nat, m: nat): (n: nat) {
    ID + (if level > 0 then ID else 0) + MaxNeighbours(level, m) * (2 * ID) + ID
  }

  function ChunkOf(bytes: seq<Byte>, idx: nat): (c: seq<Byte>)
    requires ID * idx + ID <= |bytes|
    ensures |c| == ID
  {
    bytes[ID * idx..ID * idx + ID]
  }

  function IdAt(bytes: seq<Byte>, idx: nat): (v: Id)
    requires ID * idx + ID <= |bytes|
  {
    SixBytes(ChunkOf(bytes, idx));
    Value(ChunkOf(bytes, idx))
  }

  lemma SixBytes(b: seq<Byte>)
    requires |b| == ID
    ensures Value(b) < 0x1_0000_0000_0000
  {
    BytesOfValue(b);
    SixPow();
  }

  lemma SixPow()
    ensures Pow(ID) == 0x1_0000_0000_0000
  {
    assert Pow(3) == 0x100_0000;
  }

  lemma IdWritten(v: Id)
    ensures Value(Bytes(v, ID)) == v
  {
    SixPow();
    ValueOfBytes(v, ID);
  }

  function LinkAt(bytes: seq<Byte>, level: nat, slot: nat): (l: Link)
    requires ID * VidChunk(level, slot) + ID <= |bytes|
  {
    Link(IdAt(bytes, NidChunk(level, slot)), IdAt(bytes, VidChunk(level, slot)))
  }

  predicate Sized(bytes: seq<Byte>, level: nat, m: nat) {
    |bytes| == ID * Chunks(level, m)
  }

  /** The record as its fields. At level 0 there is no lower link. */
  function View(bytes: seq<Byte>, level: nat, m: nat): (e: Entry)
    requires Sized(bytes, level, m)
    ensures |e.neighbours| == MaxNeighbours(level, m)
  {
    Entry(IdAt(bytes, 0), if level > 0 then IdAt(bytes, 1) else 0,
          seq(MaxNeighbours(level, m), slot requires 0 <= slot < MaxNeighbours(level, m) => LinkAt(bytes, level, slot)),
          IdAt(bytes, OverflowChunk(level, m)))
  }

  // ------------------------------------------------------------------------------------------
  // Insert: the whole record, in sequence.

  method WriteId(buffer: seq<Byte>, v: Id, ghost idx: nat) returns (out: seq<Byte>)
    requires |buffer| == ID * idx
    ensures |out| == ID * (idx + 1) && buffer <= out && IdAt(out, idx) == v
    ensures forall k: nat :: k < idx ==> IdAt(out, k) == IdAt(buffer, k)
  {
    var b := Write(v, ID);
    out := buffer + b;
    IdWritten(v);
    assert ChunkOf(out, idx) == b;
    forall k: nat | k < idx ensures IdAt(out, k) == IdAt(buffer, k) {
      assert ChunkOf(out, k) == ChunkOf(buffer, k);
    }
  }

  /** The entry with its neighbours padded with invalid ones, as it is stored. */
  function Stored(entry: Entry, level: nat, m: nat): (e: Entry)
    requires |entry.neighbours| <= MaxNeighbours(level, m)
  {
    entry.(lower := if level > 0 then entry.lower else 0,
           neighbours := entry.neighbours + seq(MaxNeighbours(level, m) - |entry.neighbours|, _ => Link(0, 0)))
  }

  /** The sequential encoding puts every field where the chunk layout looks for it. */
  method Format(entry: Entry, level: nat, m: nat) returns (bytes: seq<Byte>)
    requires |entry.neighbours| <= MaxNeighbours(level, m)
    ensures |bytes| == StorageSize(level, m) && Sized(bytes, level, m) &&
            View(bytes, level, m) == Stored(entry, level, m)
  {
    var max := MaxNeighbours(level, m);
    ghost var stored := Stored(entry, level, m);
    bytes := WriteId([], entry.owner, 0);
    if level > 0 {
      bytes := WriteId(bytes, entry.lower, 1);
    }
    for i := 0 to max
      invariant |bytes| == ID * NidChunk(level, i)
      invariant IdAt(bytes, 0) == entry.owner && (level > 0 ==> IdAt(bytes, 1) == entry.lower)
      invariant forall s: nat :: s < i ==> LinkAt(bytes, level, s) == stored.neighbours[s]
    {
      var link := if i < |entry.neighbours| then entry.neighbours[i] else Link(0, 0);
      ghost var before := bytes;
      bytes := WriteId(bytes, link.nid, NidChunk(level, i));
      bytes := WriteId(bytes, link.vid, VidChunk(level, i));
      forall s: nat | s < i + 1 ensures LinkAt(bytes, level, s) == stored.neighbours[s] {
        if s < i {
          assert LinkAt(bytes, level, s) == LinkAt(before, level, s);
        }
      }
    }
    ghost var before := bytes;
    bytes := WriteId(bytes, entry.overflow, OverflowChunk(level, m));
    forall s: nat | s < max ensures LinkAt(bytes, level, s) == stored.neighbours[s] {
      assert LinkAt(bytes, level, s) == LinkAt(before, level, s);
    }
    assert View(bytes, level, m).neighbours == stored.neighbours;
  }

  // ------------------------------------------------------------------------------------------
  // Update: selected fields, chunk by chunk.

  ghost predicate GoodSlots(entry: Entry, slots: seq<nat>, max: nat) {
    && |entry.neighbours| <= |slots|
    && (forall i :: 0 <= i < |entry.neighbours| ==> slots[i] < max)
    && forall i, j :: 0 <= i < j < |entry.neighbours| ==> slots[i] < slots[j]
  }

  function NeighbourPatches(level: nat, slots: seq<nat>, links: seq<Link>): (p: seq<Patch>)
    requires |links| <= |slots|
  {
    seq(2 * |links|, k requires 0 <= k < 2 * |links| =>
          if k % 2 == 0 then Patch(NidChunk(level, slots[k / 2]), links[k / 2].nid)
          else Patch(VidChunk(level, slots[k / 2]), links[k / 2].vid))
  }

  function HeadPatches(entry: Entry, mask: Mask): (p: seq<Patch>)
    ensures |p| <= 2
  {
    (if mask.owner then [Patch(0, entry.owner)] else []) + (if mask.lower then [Patch(1, entry.lower)] else [])
  }

  /** What an update writes, in order. */
  function Patches(level: nat, m: nat, entry: Entry, mask: Mask, slots: seq<nat>): (p: seq<Patch>)
    requires |entry.neighbours| <= |slots|
  {
    HeadPatches(entry, mask) + (if mask.neighbours then NeighbourPatches(level, slots, entry.neighbours) else []) +
    (if mask.overflow then [Patch(OverflowChunk(level, m), entry.overflow)] else [])
  }

  function Ids(patches: seq<Patch>): (ids: seq<nat>)
    ensures |ids| == |patches| && forall k :: 0 <= k < |ids| ==> ids[k] == patches[k].idx
  {
    seq(|patches|, k requires 0 <= k < |patches| => patches[k].idx)
  }

  ghost predicate AscendsIn(p: seq<Patch>, from: nat, to: nat) {
    && (forall j, k :: 0 <= j < k < |p| ==> p[j].idx < p[k].idx)
    && forall k :: 0 <= k < |p| ==> from <= p[k].idx < to
  }

  lemma Joined(p: seq<Patch>, q: seq<Patch>, from: nat, between: nat, to: nat)
    requires from <= between <= to && AscendsIn(p, from, between) && AscendsIn(q, between, to)
    ensures AscendsIn(p + q, from, to)
  {
  }

  /** The chunk indexes go up, stay in the record, and are no more than the scratch array holds. */
  lemma PatchesAscend(level: nat, m: nat, entry: Entry, mask: Mask, slots: seq<nat>)
    requires m >= 1 && GoodSlots(entry, slots, MaxNeighbours(level, m)) && (mask.lower ==> level > 0)
    ensures var ids := Ids(Patches(level, m, entry, mask, slots));
            Increasing(ids) && Within(ids, ID, ID * Chunks(level, m)) && |ids| <= MaxUpdateChunks(m)
  {
    hide AscendsIn, HeadPatches, NeighbourPatches, NidChunk, Increasing, Within;
    var head := HeadPatches(entry, mask);
    var links := if mask.neighbours then NeighbourPatches(level, slots, entry.neighbours) else [];
    var last := if mask.overflow then [Patch(OverflowChunk(level, m), entry.overflow)] else [];
    HeadAscends(level, entry, mask);
    LinksAscend(level, m, entry, mask, slots);
    LastAscends(level, m, last);
    Joined(head, links, 0, NidChunk(level, 0), OverflowChunk(level, m));
    Joined(head + links, last, 0, OverflowChunk(level, m), Chunks(level, m));
    IdsAscend(head + links + last, Chunks(level, m));
    FewPatches(level, m, entry, mask, slots);
  }

  lemma HeadAscends(level: nat, entry: Entry, mask: Mask)
    requires mask.lower ==> level > 0
    ensures AscendsIn(HeadPatches(entry, mask), 0, NidChunk(level, 0))
  {
  }

  lemma LinksAscend(level: nat, m: nat, entry: Entry, mask: Mask, slots: seq<nat>)
    requires GoodSlots(entry, slots, MaxNeighbours(level, m))
    ensures NidChunk(level, 0) <= OverflowChunk(level, m)
    ensures AscendsIn(if mask.neighbours then NeighbourPatches(level, slots, entry.neighbours) else [],
                      NidChunk(level, 0), OverflowChunk(level, m))
  {
    hide NeighbourPatches;
    LinkPatchesAscend(level, slots, entry.neighbours, MaxNeighbours(level, m));
  }

  lemma LastAscends(level: nat, m: nat, last: seq<Patch>)
    requires |last| <= 1 && forall p :: p in last ==> p.idx == OverflowChunk(level, m)
    ensures AscendsIn(last, OverflowChunk(level, m), Chunks(level, m))
  {
  }

  lemma FewPatches(level: nat, m: nat, entry: Entry, mask: Mask, slots: seq<nat>)
    requires m >= 1 && GoodSlots(entry, slots, MaxNeighbours(level, m)) && (mask.lower ==> level > 0)
    ensures |Patches(level, m, entry, mask, slots)| <= MaxUpdateChunks(m)
  {
    FewSlots(slots, |entry.neighbours|, MaxNeighbours(level, m));
  }

  lemma IdsAscend(p: seq<Patch>, to: nat)
    requires AscendsIn(p, 0, to)
    ensures Increasing(Ids(p)) && Within(Ids(p), ID, ID * to)
  {
  }

  lemma LinkPatchesAscend(level: nat, slots: seq<nat>, links: seq<Link>, max: nat)
    requires |links| <= |slots| && (forall i :: 0 <= i < |links| ==> slots[i] < max)
    requires forall i, j :: 0 <= i < j < |links| ==> slots[i] < slots[j]
    ensures var p := NeighbourPatches(level, slots, links);
            && (forall j, k :: 0 <= j < k < |p| ==> p[j].idx < p[k].idx)
            && (forall k :: 0 <= k < |p| ==> NidChunk(level, 0) <= p[k].idx < NidChunk(level, max))
  {
    var p := NeighbourPatches(level, slots, links);
    forall j, k | 0 <= j < k < |p| ensures p[j].idx < p[k].idx {
      if j / 2 < k / 2 {
        assert slots[j / 2] < slots[k / 2];
      }
    }
  }

  lemma {:induction false} FewSlots(slots: seq<nat>, n: nat, max: nat)
    requires n <= |slots| && (forall i :: 0 <= i < n ==> slots[i] < max)
    requires forall i, j :: 0 <= i < j < n ==> slots[i] < slots[j]
    ensures n <= max
  {
    if n > 0 {
      FewSlots(slots, n - 1, slots[n - 1]);
    }
  }

  /** The scratch buffer holds every patch at its place. */
  predicate Buffered(bytes: seq<Byte>, patches: seq<Patch>) {
    forall k :: 0 <= k < |patches| ==>
      ID * patches[k].idx + ID <= |bytes| && IdAt(bytes, patches[k].idx) == patches[k].value
  }

  method WriteChunk(buffer: array<Byte>, idx: nat, value: Id)
    requires ID * idx + ID <= buffer.Length
    modifies buffer
    ensures IdAt(buffer[..], idx) == value
    ensures forall k: nat :: k != idx && ID * k + ID <= buffer.Length ==>
              IdAt(buffer[..], k) == IdAt(old(buffer[..]), k)
  {
    ghost var before := buffer[..];
    var b := Write(value, ID);
    IdWritten(value);
    WriteString(buffer, ID * idx, b);
    assert ChunkOf(buffer[..], idx) == b;
    forall k: nat | k != idx && ID * k + ID <= buffer.Length ensures IdAt(buffer[..], k) == IdAt(before, k) {
      assert ChunkOf(buffer[..], k) == ChunkOf(before, k);
    }
  }

  /** One more chunk written behind the others. */
  method EmitChunk(buffer: array<Byte>, ids: seq<nat>, idx: nat, value: Id, ghost patches: seq<Patch>)
    returns (ids': seq<nat>, ghost patches': seq<Patch>)
    requires ID * idx + ID <= buffer.Length && ids == Ids(patches) && Buffered(buffer[..], patches)
    requires forall k :: 0 <= k < |patches| ==> patches[k].idx < idx
    modifies buffer
    ensures patches' == patches + [Patch(idx, value)] && ids' == Ids(patches') && Buffered(buffer[..], patches')
  {
    WriteChunk(buffer, idx, value);
    ids', patches' := ids + [idx], patches + [Patch(idx, value)];
  }

  /** Encodes the selected fields into the scratch buffer, with the list of their chunks. */
  method EncodePatches(level: nat, m: nat, entry: Entry, mask: Mask, slots: seq<nat>, buffer: array<Byte>)
    returns (ids: seq<nat>)
    requires m >= 1 && GoodSlots(entry, slots, MaxNeighbours(level, m)) && (mask.lower ==> level > 0)
    requires buffer.Length >= ID * Chunks(level, m)
    modifies buffer
    ensures ids == Ids(Patches(level, m, entry, mask, slots)) &&
            Buffered(buffer[..], Patches(level, m, entry, mask, slots))
    ensures Increasing(ids) && Within(ids, ID, ID * Chunks(level, m)) && |ids| <= MaxUpdateChunks(m)
  {
    hide IdAt;
    PatchesAscend(level, m, entry, mask, slots);
    ids := [];
    ghost var patches: seq<Patch> := [];
    if mask.owner {
      ids, patches := EmitChunk(buffer, ids, 0, entry.owner, patches);
    }
    if mask.lower {
      ids, patches := EmitChunk(buffer, ids, 1, entry.lower, patches);
    }
    assert patches == HeadPatches(entry, mask);
    if mask.neighbours {
      LinkPatchesAscend(level, slots, entry.neighbours, MaxNeighbours(level, m));
      ids, patches := EmitNeighbours(level, m, entry.neighbours, slots, buffer, ids, patches);
    }
    if mask.overflow {
      ids, patches := EmitChunk(buffer, ids, OverflowChunk(level, m), entry.overflow, patches);
    }
    assert patches == Patches(level, m, entry, mask, slots);
  }

  method EmitNeighbours(level: nat, m: nat, links: seq<Link>, slots: seq<nat>, buffer: array<Byte>, ids: seq<nat>,
                        ghost patches: seq<Patch>)
    returns (ids': seq<nat>, ghost patches': seq<Patch>)
    requires |links| <= |slots| && (forall i :: 0 <= i < |links| ==> slots[i] < MaxNeighbours(level, m))
    requires forall i, j :: 0 <= i < j < |links| ==> slots[i] < slots[j]
    requires buffer.Length >= ID * Chunks(level, m) && ids == Ids(patches) && Buffered(buffer[..], patches)
    requires forall k :: 0 <= k < |patches| ==> patches[k].idx < NidChunk(level, 0)
    modifies buffer
    ensures patches' == patches + NeighbourPatches(level, slots, links)
    ensures ids' == Ids(patches') && Buffered(buffer[..], patches')
    ensures forall k :: 0 <= k < |patches'| ==> patches'[k].idx < OverflowChunk(level, m)
  {
    hide IdAt, Buffered;
    ids', patches' := ids, patches;
    for i := 0 to |links|
      invariant patches' == patches + NeighbourPatches(level, slots, links[..i])
      invariant ids' == Ids(patches') && Buffered(buffer[..], patches')
      invariant forall k :: 0 <= k < |patches'| ==>
                  patches'[k].idx < (if i == 0 then NidChunk(level, 0) else VidChunk(level, slots[i - 1]) + 1)
    {
      assert i > 0 ==> slots[i - 1] < slots[i];
      ids', patches' := EmitChunk(buffer, ids', NidChunk(level, slots[i]), links[i].nid, patches');
      ids', patches' := EmitChunk(buffer, ids', VidChunk(level, slots[i]), links[i].vid, patches');
      OneLinkMore(level, slots, links, i);
    }
    assert links[..|links|] == links;
  }

  lemma OneLinkMore(level: nat, slots: seq<nat>, links: seq<Link>, i: nat)
    requires i < |links| <= |slots|
    ensures NeighbourPatches(level, slots, links[..i + 1]) ==
            NeighbourPatches(level, slots, links[..i]) +
            [Patch(NidChunk(level, slots[i]), links[i].nid), Patch(VidChunk(level, slots[i]), links[i].vid)]
  {
  }

  /** A list with the entries at the given slots replaced. */
  function Overlay<T>(stored: seq<T>, slots: seq<nat>, links: seq<T>): (r: seq<T>)
    requires |links| <= |slots| && forall i :: 0 <= i < |links| ==> slots[i] < |stored|
    ensures |r| == |stored|
    decreases |links|
  {
    if links == [] then stored
    else Overlay(stored, slots, links[..|links| - 1])[slots[|links| - 1] := links[|links| - 1]]
  }

  /** The record with exactly the selected fields replaced. */
  function Replaced(e: Entry, entry: Entry, mask: Mask, slots: seq<nat>): (r: Entry)
    requires |entry.neighbours| <= |slots| && forall i :: 0 <= i < |entry.neighbours| ==> slots[i] < |e.neighbours|
  {
    Entry(if mask.owner then entry.owner else e.owner, if mask.lower then entry.lower else e.lower,
          if mask.neighbours then Overlay(e.neighbours, slots, entry.neighbours) else e.neighbours,
          if mask.overflow then entry.overflow else e.overflow)
  }

  /** Every chunk holds its patch, or what it held before. */
  ghost predicate Patched(before: seq<Byte>, after: seq<Byte>, patches: seq<Patch>) {
    && |after| == |before|
    && (forall k :: 0 <= k < |patches| ==>
          ID * patches[k].idx + ID <= |after| && IdAt(after, patches[k].idx) == patches[k].value)
    && forall idx: nat :: ID * idx + ID <= |after| && (forall k :: 0 <= k < |patches| ==> patches[k].idx != idx) ==>
         IdAt(after, idx) == IdAt(before, idx)
  }

  lemma ChunkCopied(before: seq<Byte>, after: seq<Byte>, data: seq<Byte>, ids: seq<nat>, idx: nat)
    requires Copied(before, after, data, ids, ID) && ID * idx + ID <= |data|
    ensures IdAt(after, idx) == if idx in ids then IdAt(data, idx) else IdAt(before, idx)
  {
    forall b | ID * idx <= b < ID * idx + ID ensures Selected(ids, ID, b) <==> idx in ids {
      if idx in ids {
        var k :| 0 <= k < |ids| && ids[k] == idx;
        assert InChunk(ids[k], ID, b);
      }
    }
    if idx in ids {
      assert ChunkOf(after, idx) == ChunkOf(data, idx);
    } else {
      assert ChunkOf(after, idx) == ChunkOf(before, idx);
    }
  }

  lemma CopiedIsPatched(before: seq<Byte>, after: seq<Byte>, data: seq<Byte>, patches: seq<Patch>)
    requires Copied(before, after, data, Ids(patches), ID) && Buffered(data, patches)
    ensures Patched(before, after, patches)
  {
    hide IdAt, Copied;
    SameLength(before, after, data, Ids(patches));
    var ids := Ids(patches);
    forall k | 0 <= k < |patches|
      ensures ID * patches[k].idx + ID <= |after| && IdAt(after, patches[k].idx) == patches[k].value
    {
      assert ids[k] in ids;
      ChunkCopied(before, after, data, ids, patches[k].idx);
    }
    forall idx: nat | ID * idx + ID <= |after| && (forall k :: 0 <= k < |patches| ==> patches[k].idx != idx)
      ensures IdAt(after, idx) == IdAt(before, idx)
    {
      ChunkCopied(before, after, data, ids, idx);
    }
  }

  lemma SameLength(before: seq<Byte>, after: seq<Byte>, data: seq<Byte>, ids: seq<nat>)
    requires Copied(before, after, data, ids, ID)
    ensures |before| == |after| == |data|
  {
  }

  predicate IsLinkPatch(p: Patch, level: nat, slot: nat, link: Link) {
    p == Patch(NidChunk(level, slot), link.nid) || p == Patch(VidChunk(level, slot), link.vid)
  }

  lemma LinkPatchKind(level: nat, slots: seq<nat>, links: seq<Link>, k: nat)
    requires |links| <= |slots| && k < 2 * |links|
    ensures exists i :: 0 <= i < |links| &&
                        IsLinkPatch(NeighbourPatches(level, slots, links)[k], level, slots[i], links[i])
  {
    assert IsLinkPatch(NeighbourPatches(level, slots, links)[k], level, slots[k / 2], links[k / 2]);
  }

  /** Which patch goes where. */
  lemma PatchAt(level: nat, m: nat, entry: Entry, mask: Mask, slots: seq<nat>, k: nat)
    requires |entry.neighbours| <= |slots| && k < |Patches(level, m, entry, mask, slots)|
    ensures var p := Patches(level, m, entry, mask, slots)[k];
            || (mask.owner && p == Patch(0, entry.owner))
            || (mask.lower && p == Patch(1, entry.lower))
            || (mask.overflow && p == Patch(OverflowChunk(level, m), entry.overflow))
            || (mask.neighbours && exists i :: 0 <= i < |entry.neighbours| &&
                                                  IsLinkPatch(p, level, slots[i], entry.neighbours[i]))
  {
    var h := |HeadPatches(entry, mask)|;
    var links := if mask.neighbours then NeighbourPatches(level, slots, entry.neighbours) else [];
    if h <= k < h + |links| {
      LinkPatchKind(level, slots, entry.neighbours, k - h);
      assert Patches(level, m, entry, mask, slots)[k] == links[k - h];
    }
    hide NeighbourPatches, IsLinkPatch;
  }

  lemma PatchOf(level: nat, m: nat, entry: Entry, mask: Mask, slots: seq<nat>, p: Patch)
    requires |entry.neighbours| <= |slots|
    requires || (mask.owner && p == Patch(0, entry.owner))
             || (mask.lower && p == Patch(1, entry.lower))
             || (mask.overflow && p == Patch(OverflowChunk(level, m), entry.overflow))
    ensures exists k :: 0 <= k < |Patches(level, m, entry, mask, slots)| &&
                        Patches(level, m, entry, mask, slots)[k] == p
  {
    var patches := Patches(level, m, entry, mask, slots);
    if mask.owner && p == Patch(0, entry.owner) {
      assert patches[0] == p;
    } else if mask.lower && p == Patch(1, entry.lower) {
      assert patches[if mask.owner then 1 else 0] == p;
    } else {
      assert patches[|patches| - 1] == p;
    }
  }

  lemma LinkPatchOf(level: nat, m: nat, entry: Entry, mask: Mask, slots: seq<nat>, i: nat)
    requires i < |entry.neighbours| <= |slots| && mask.neighbours
    ensures var patches := Patches(level, m, entry, mask, slots);
            exists k :: 0 <= k < |patches| - 1 &&
                        patches[k] == Patch(NidChunk(level, slots[i]), entry.neighbours[i].nid) &&
                        patches[k + 1] == Patch(VidChunk(level, slots[i]), entry.neighbours[i].vid)
  {
    var head, links := HeadPatches(entry, mask), NeighbourPatches(level, slots, entry.neighbours);
    var last := if mask.overflow then [Patch(OverflowChunk(level, m), entry.overflow)] else [];
    assert Patches(level, m, entry, mask, slots) == head + links + last;
    LinkPatchPair(level, slots, entry.neighbours, i);
    hide Patches, NeighbourPatches, HeadPatches, NidChunk, VidChunk, OverflowChunk;
    Between(head, links, last, 2 * i);
    Between(head, links, last, 2 * i + 1);
  }

  lemma LinkPatchPair(level: nat, slots: seq<nat>, links: seq<Link>, i: nat)
    requires i < |links| <= |slots|
    ensures var p := NeighbourPatches(level, slots, links);
            && |p| == 2 * |links| && p[2 * i] == Patch(NidChunk(level, slots[i]), links[i].nid)
            && p[2 * i + 1] == Patch(VidChunk(level, slots[i]), links[i].vid)
  {
    hide NidChunk, VidChunk;
  }

  lemma Between(head: seq<Patch>, links: seq<Patch>, last: seq<Patch>, j: nat)
    requires j < |links|
    ensures (head + links + last)[|head| + j] == links[j]
  {
  }

  lemma {:induction false} OverlayAt<T>(stored: seq<T>, slots: seq<nat>, links: seq<T>, s: nat)
    requires |links| <= |slots| && (forall i :: 0 <= i < |links| ==> slots[i] < |stored|) && s < |stored|
    requires forall i, j :: 0 <= i < j < |links| ==> slots[i] < slots[j]
    ensures (exists i :: 0 <= i < |links| && slots[i] == s && Overlay(stored, slots, links)[s] == links[i]) ||
            ((forall i :: 0 <= i < |links| ==> slots[i] != s) && Overlay(stored, slots, links)[s] == stored[s])
    decreases |links|
  {
    if links != [] {
      var n := |links| - 1;
      OverlayAt(stored, slots, links[..n], s);
      if slots[n] == s {
        assert Overlay(stored, slots, links)[s] == links[n];
      } else if i :| 0 <= i < n && slots[i] == s && Overlay(stored, slots, links[..n])[s] == links[..n][i] {
        assert Overlay(stored, slots, links)[s] == links[i];
      }
    }
  }

  lemma FixedChunkPatched(before: seq<Byte>, after: seq<Byte>, level: nat, m: nat, entry: Entry, mask: Mask,
                          slots: seq<nat>,
                          idx: nat, chosen: bool, value: Id)
    requires GoodSlots(entry, slots, MaxNeighbours(level, m)) && (mask.lower ==> level > 0)
    requires Patched(before, after, Patches(level, m, entry, mask, slots)) && ID * idx + ID <= |after|
    requires || (idx == 0 && chosen == mask.owner && value == entry.owner)
             || (idx == 1 && level > 0 && chosen == mask.lower && value == entry.lower)
             || (idx == OverflowChunk(level, m) && chosen == mask.overflow && value == entry.overflow)
    ensures IdAt(after, idx) == if chosen then value else IdAt(before, idx)
  {
    hide IdAt, Patches;
    var patches := Patches(level, m, entry, mask, slots);
    if chosen {
      PatchOf(level, m, entry, mask, slots, Patch(idx, value));
    } else {
      forall k | 0 <= k < |patches| ensures patches[k].idx != idx {
        PatchAt(level, m, entry, mask, slots, k);
      }
    }
  }

  lemma LinkPatched(before: seq<Byte>, after: seq<Byte>, level: nat, m: nat, entry: Entry, mask: Mask, slots: seq<nat>,
                    s: nat)
    requires GoodSlots(entry, slots, MaxNeighbours(level, m)) && (mask.lower ==> level > 0) &&
             s < MaxNeighbours(level, m)
    requires Patched(before, after, Patches(level, m, entry, mask, slots)) && ID * Chunks(level, m) <= |after|
    ensures if mask.neighbours && exists i :: 0 <= i < |entry.neighbours| && slots[i] == s
            then exists i :: 0 <= i < |entry.neighbours| && slots[i] == s &&
                             LinkAt(after, level, s) == entry.neighbours[i]
            else LinkAt(after, level, s) == LinkAt(before, level, s)
  {
    hide IdAt, Patches;
    var patches := Patches(level, m, entry, mask, slots);
    if mask.neighbours && exists i :: 0 <= i < |entry.neighbours| && slots[i] == s {
      var i :| 0 <= i < |entry.neighbours| && slots[i] == s;
      LinkPatchOf(level, m, entry, mask, slots, i);
      assert LinkAt(after, level, s) == entry.neighbours[i];
    } else {
      forall k | 0 <= k < |patches|
        ensures patches[k].idx != NidChunk(level, s) && patches[k].idx != VidChunk(level, s)
      {
        PatchAt(level, m, entry, mask, slots, k);
      }
    }
  }

  /** The record after the patches: the selected fields replaced, everything else as it was. */
  lemma ViewPatched(before: seq<Byte>, after: seq<Byte>, level: nat, m: nat, entry: Entry, mask: Mask, slots: seq<nat>)
    requires GoodSlots(entry, slots, MaxNeighbours(level, m)) && (mask.lower ==> level > 0) && Sized(before, level, m)
    requires Patched(before, after, Patches(level, m, entry, mask, slots))
    ensures Sized(after, level, m) && View(after, level, m) == Replaced(View(before, level, m), entry, mask, slots)
  {
    hide IdAt, Patches, LinkAt;
    FixedChunkPatched(before, after, level, m, entry, mask, slots, 0, mask.owner, entry.owner);
    if level > 0 {
      FixedChunkPatched(before, after, level, m, entry, mask, slots, 1, mask.lower, entry.lower);
    }
    FixedChunkPatched(before, after, level, m, entry, mask, slots, OverflowChunk(level, m), mask.overflow,
                      entry.overflow);
    var view := View(before, level, m);
    var replaced := Replaced(view, entry, mask, slots);
    forall s: nat | s < MaxNeighbours(level, m) ensures LinkAt(after, level, s) == replaced.neighbours[s] {
      LinkPatched(before, after, level, m, entry, mask, slots, s);
      if mask.neighbours {
        OverlayAt(view.neighbours, slots, entry.neighbours, s);
      }
    }
    assert View(after, level, m).neighbours == replaced.neighbours;
  }

  /** Rewrites the selected fields of a stored record, and no others. */
  method UpdateNode(record: array<Byte>, at: nat, level: nat, m: nat, taken: bool, entry: Entry, mask: Mask,
                    slots: seq<nat>,
                    buffer: array<Byte>) returns (r: Outcome)
    requires 1 <= m <= MAX_M && GoodSlots(entry, slots, MaxNeighbours(level, m)) && (mask.lower ==> level > 0)
    requires buffer != record && buffer.Length >= ID * Chunks(level, m) && at + ID * Chunks(level, m) <= record.Length
    modifies record, buffer
    ensures r == if taken || Patches(level, m, entry, mask, slots) == [] then Done else FreeSlot
    ensures Around(record, at, ID * Chunks(level, m))
    ensures var size := ID * Chunks(level, m);
            && View(record[at..at + size], level, m) ==
                 if r == Done then Replaced(old(View(record[at..at + size], level, m)), entry, mask, slots)
                 else old(View(record[at..at + size], level, m))
  {
    hide View, Replaced, Patches, Increasing, Within, Copied, IdAt;
    var size := ID * Chunks(level, m);
    ghost var before, patches := record[at..at + size], Patches(level, m, entry, mask, slots);
    var ids := EncodePatches(level, m, entry, mask, slots, buffer);
    var data := buffer[..size];
    StillBuffered(buffer[..], data, patches, Chunks(level, m));
    r := Update(record, at, size, taken, Data(data), ids, ID);
    if r == Done {
      if ids == [] {
        NothingPatched(before, patches);
        assert record[at..at + size] == before;
      } else {
        CopiedIsPatched(before, record[at..at + size], data, patches);
      }
      ViewPatched(before, record[at..at + size], level, m, entry, mask, slots);
    } else {
      assert record[at..at + size] == before;
    }
  }

  lemma NothingPatched(before: seq<Byte>, patches: seq<Patch>)
    requires patches == []
    ensures Patched(before, before, patches)
  {
  }

  lemma StillBuffered(bytes: seq<Byte>, data: seq<Byte>, patches: seq<Patch>, count: nat)
    requires Buffered(bytes, patches) && Within(Ids(patches), ID, ID * count) && data <= bytes && |data| == ID * count
    ensures Buffered(data, patches)
  {
    forall k | 0 <= k < |patches|
      ensures ID * patches[k].idx + ID <= |data| && IdAt(data, patches[k].idx) == patches[k].value
    {
      assert Ids(patches)[k] * ID + ID <= ID * count;
      assert ChunkOf(data, patches[k].idx) == ChunkOf(bytes, patches[k].idx);
    }
  }

  // ------------------------------------------------------------------------------------------
  // Fetch.

  /** Whether a link counts: valid, and not flagged incoming when those are excluded. */
  predicate Counts(link: Link, excludeIncoming: bool) {
    link.nid != 0 && !(excludeIncoming && IsIncoming(link.nid))
  }

  function Kept(links: seq<Link>, excludeIncoming: bool): (r: seq<Link>)
    ensures |r| <= |links|
  {
    if links == [] then []
    else
      var front := Kept(links[..|links| - 1], excludeIncoming);
      if Counts(links[|links| - 1], excludeIncoming) then front + [links[|links| - 1]] else front
  }

  /** The links at the requested slots, all of them if none are named. */
  function Requested(e: Entry, slots: Option<seq<nat>>): (r: seq<Link>)
    requires slots.Some? ==> forall s :: s in slots.value ==> s < |e.neighbours|
    ensures |r| == if slots.Some? then |slots.value| else |e.neighbours|
  {
    if slots.None? then e.neighbours
    else seq(|slots.value|,
             i requires 0 <= i < |slots.value| => assert slots.value[i] in slots.value; e.neighbours[slots.value[i]])
  }

  method ReadId(bytes: seq<Byte>, idx: nat) returns (v: Id)
    requires ID * idx + ID <= |bytes|
    ensures v == IdAt(bytes, idx)
  {
    SixBytes(ChunkOf(bytes, idx));
    v := Read(bytes[ID * idx..ID * idx + ID]);
  }

  /** Reads the selected fields into entry. For an update the neighbours stay aligned with their
      slots; for a mere lookup those that do not count are dropped and the others move up. */
  method FetchNode(bytes: seq<Byte>, level: nat, m: nat, forUpdate: bool, mask: Mask, excludeIncoming: bool,
                   slots: Option<seq<nat>>, entry: Entry) returns (out: Entry, valid: nat)
    requires Sized(bytes, level, m) && (slots.Some? ==> forall s :: s in slots.value ==> s < MaxNeighbours(level, m))
    requires |entry.neighbours| >= if slots.Some? then |slots.value| else MaxNeighbours(level, m)
    ensures var view := View(bytes, level, m);
            var requested := Requested(view, slots);
            && out.owner == (if mask.owner then view.owner else entry.owner)
            && out.lower == (if mask.lower && level > 0 then view.lower else entry.lower)
            && out.overflow == (if mask.overflow then view.overflow else entry.overflow)
            && out.neighbours == (if !mask.neighbours then entry.neighbours
                                  else if forUpdate then requested + entry.neighbours[|requested|..]
                                  else Kept(requested, excludeIncoming))
            && valid == if mask.neighbours then |Kept(requested, excludeIncoming)| else 0
  {
    hide IdAt;
    out, valid := entry, 0;
    if mask.owner {
      var owner := ReadId(bytes, 0);
      out := out.(owner := owner);
    }
    if mask.lower && level > 0 {
      var lower := ReadId(bytes, 1);
      out := out.(lower := lower);
    }
    if mask.neighbours {
      var links;
      links, valid := FetchLinks(bytes, level, m, forUpdate, excludeIncoming, slots, entry.neighbours);
      out := out.(neighbours := links);
    }
    if mask.overflow {
      var overflow := ReadId(bytes, OverflowChunk(level, m));
      out := out.(overflow := overflow);
    }
  }

  method ReadLink(bytes: seq<Byte>, level: nat, m: nat, slot: nat) returns (link: Link)
    requires Sized(bytes, level, m) && slot < MaxNeighbours(level, m)
    ensures link == View(bytes, level, m).neighbours[slot]
  {
    hide IdAt;
    var nid := ReadId(bytes, NidChunk(level, slot));
    var vid := ReadId(bytes, VidChunk(level, slot));
    link := Link(nid, vid);
  }

  lemma RequestedAt(e: Entry, slots: Option<seq<nat>>, i: nat)
    requires slots.Some? ==> forall s :: s in slots.value ==> s < |e.neighbours|
    requires i < |Requested(e, slots)|
    ensures (slots.Some? ==> slots.value[i] < |e.neighbours|) &&
            Requested(e, slots)[i] == e.neighbours[if slots.Some? then slots.value[i] else i]
  {
    if slots.Some? {
      assert slots.value[i] in slots.value;
    }
  }

  lemma KeptNone(links: seq<Link>, excludeIncoming: bool)
    ensures Kept(links[..0], excludeIncoming) == []
  {
  }

  lemma KeptNext(links: seq<Link>, excludeIncoming: bool, i: nat)
    requires i < |links|
    ensures Kept(links[..i + 1], excludeIncoming) ==
            Kept(links[..i], excludeIncoming) + (if Counts(links[i], excludeIncoming) then [links[i]] else [])
  {
    assert links[..i + 1][..i] == links[..i];
  }

  method FetchLinks(bytes: seq<Byte>, level: nat, m: nat, forUpdate: bool, excludeIncoming: bool,
                    slots: Option<seq<nat>>,
                    scratch: seq<Link>) returns (links: seq<Link>, valid: nat)
    requires Sized(bytes, level, m) && (slots.Some? ==> forall s :: s in slots.value ==> s < MaxNeighbours(level, m))
    requires |scratch| >= if slots.Some? then |slots.value| else MaxNeighbours(level, m)
    ensures var requested := Requested(View(bytes, level, m), slots);
            && links == (if forUpdate then requested + scratch[|requested|..] else Kept(requested, excludeIncoming))
            && valid == |Kept(requested, excludeIncoming)|
  {
    hide IdAt, View, Kept, IsIncoming, Requested, Counts, Fetched;
    ghost var requested := Requested(View(bytes, level, m), slots);
    links, valid := scratch, 0;
    var written := 0;
    var count := if slots.Some? then |slots.value| else MaxNeighbours(level, m);
    NothingFetched(requested, forUpdate, excludeIncoming, scratch);
    for i := 0 to count
      invariant Fetched(requested, forUpdate, excludeIncoming, scratch, i, links, written, valid)
    {
      assert slots.Some? ==> slots.value[i] in slots.value;
      var slot := if slots.Some? then slots.value[i] else i;
      var link := ReadLink(bytes, level, m, slot);
      RequestedAt(View(bytes, level, m), slots, i);
      FetchedNext(requested, forUpdate, excludeIncoming, scratch, i, links, written, valid);
      CountsIf(link, excludeIncoming);
      var counts := link.nid != 0 && !(excludeIncoming && IsIncoming(link.nid));
      if counts {
        valid := valid + 1;
      }
      if counts || forUpdate {
        links := links[written := link];
        written := written + 1;
      }
    }
    AllFetched(requested, forUpdate, excludeIncoming, scratch, links, written, valid);
    if !forUpdate {
      links := links[..written];
    }
  }

  lemma CountsIf(link: Link, excludeIncoming: bool)
    ensures Counts(link, excludeIncoming) <==> link.nid != 0 && !(excludeIncoming && IsIncoming(link.nid))
  {
  }

  /** The first i requested links have been read: written in place, or the counting ones compacted. */
  ghost predicate Fetched(requested: seq<Link>, forUpdate: bool, excludeIncoming: bool, scratch: seq<Link>, i: nat,
                          links: seq<Link>, written: nat, valid: nat) {
    && i <= |requested| <= |scratch| == |links| && valid == |Kept(requested[..i], excludeIncoming)|
    && written == (if forUpdate then i else valid) && written <= i
    && links == (if forUpdate then requested[..i] else Kept(requested[..i], excludeIncoming)) + scratch[written..]
  }

  lemma NothingFetched(requested: seq<Link>, forUpdate: bool, excludeIncoming: bool, scratch: seq<Link>)
    requires |requested| <= |scratch|
    ensures Fetched(requested, forUpdate, excludeIncoming, scratch, 0, scratch, 0, 0)
  {
    KeptNone(requested, excludeIncoming);
  }

  lemma FetchedNext(requested: seq<Link>, forUpdate: bool, excludeIncoming: bool, scratch: seq<Link>, i: nat,
                    links: seq<Link>, written: nat, valid: nat)
    requires Fetched(requested, forUpdate, excludeIncoming, scratch, i, links, written, valid) && i < |requested|
    ensures written < |links|
    ensures var counts := Counts(requested[i], excludeIncoming);
            Fetched(requested, forUpdate, excludeIncoming, scratch, i + 1,
                    if counts || forUpdate then links[written := requested[i]] else links,
                    if counts || forUpdate then written + 1 else written, if counts then valid + 1 else valid)
  {
    hide Kept, Counts;
    KeptNext(requested, excludeIncoming, i);
    assert requested[..i + 1] == requested[..i] + [requested[i]];
    var front := if forUpdate then requested[..i] else Kept(requested[..i], excludeIncoming);
    assert links[written := requested[i]] == front + [requested[i]] + scratch[written + 1..];
  }

  lemma AllFetched(requested: seq<Link>, forUpdate: bool, excludeIncoming: bool, scratch: seq<Link>,
                   links: seq<Link>, written: nat, valid: nat)
    requires Fetched(requested, forUpdate, excludeIncoming, scratch, |requested|, links, written, valid)
    ensures written <= |links| && valid == |Kept(requested, excludeIncoming)|
    ensures if forUpdate then links == requested + scratch[|requested|..]
            else links[..written] == Kept(requested, excludeIncoming)
  {
    assert requested[..|requested|] == requested;
  }
}
