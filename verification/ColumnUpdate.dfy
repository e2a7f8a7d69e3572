/** Rewriting chosen chunks of a stored record in place: consecutive chunks go out in one write. */
module ColumnUpdate {
  import opened BigEndian

  datatype Data = Null | Data(bytes: seq<Byte>)

  datatype Outcome = Done | BadArguments | NotIncreasing | OutOfBounds | FreeSlot

  ghost predicate Increasing(ids: seq<nat>) {
    forall j, k :: 0 <= j < k < |ids| ==> ids[j] < ids[k]
  }

  ghost predicate Within(ids: seq<nat>, size: nat, length: nat) {
    forall k :: 0 <= k < |ids| ==> ids[k] * size + size <= length
  }

  predicate InChunk(id: nat, size: nat, b: nat) {
    id * size <= b < id * size + size
  }

  /** Byte b belongs to one of the chunks. */
  ghost predicate Selected(ids: seq<nat>, size: nat, b: nat) {
    exists k :: 0 <= k < |ids| && InChunk(ids[k], size, b)
  }

  /** Each index of ids[from..to] follows the one before it. */
  ghost predicate Consecutive(ids: seq<nat>, from: nat, to: nat)
    requires to <= |ids|
  {
    forall k :: from < k < to ==> ids[k] == ids[k - 1] + 1
  }

  /** A run of consecutive chunks is one range of bytes. */
  lemma {:induction false} RunIsRange(ids: seq<nat>, from: nat, to: nat, size: nat, b: nat)
    requires from < to <= |ids| && Consecutive(ids, from, to)
    ensures ids[to - 1] == ids[from] + (to - 1 - from)
    ensures ids[from] * size <= b < (ids[from] + (to - from)) * size <==>
              exists k :: from <= k < to && InChunk(ids[k], size, b)
  {
    if to - 1 > from {
      RunIsRange(ids, from, to - 1, size, b);
      var c, n := ids[from], to - from;
      assert ids[to - 1] == ids[to - 2] + 1 == c + (n - 1);
      assert (c + n) * size == (c + (n - 1)) * size + size;
      assert c * size <= (c + (n - 1)) * size by {
        assert (n - 1) * size >= 0;
        assert (c + (n - 1)) * size == c * size + (n - 1) * size;
      }
      if c * size <= b < (c + n) * size && b >= (c + (n - 1)) * size {
        assert InChunk(ids[to - 1], size, b);
      }
    } else {
      assert (ids[from] + 1) * size == ids[from] * size + size;
      if ids[from] * size <= b < (ids[from] + 1) * size {
        assert InChunk(ids[from], size, b);
      }
    }
  }

  method WriteString(record: array<Byte>, at: nat, data: seq<Byte>)
    requires at + |data| <= record.Length
    modifies record
    ensures forall i :: 0 <= i < record.Length ==>
              record[i] == if at <= i < at + |data| then data[i - at] else old(record[i])
  {
    forall i | 0 <= i < |data| {
      record[at + i] := data[i];
    }
  }

  /** The bytes after the chunks have been taken from data one by one. */
  ghost predicate Copied(before: seq<Byte>, after: seq<Byte>, data: seq<Byte>, ids: seq<nat>, size: nat) {
    && |before| == |after| == |data|
    && forall b :: 0 <= b < |data| ==> after[b] == if Selected(ids, size, b) then data[b] else before[b]
  }

  ghost predicate RangeCopied(before: seq<Byte>, after: seq<Byte>, data: seq<Byte>, from: nat, to: nat) {
    && |before| == |after| == |data|
    && forall b :: 0 <= b < |data| ==> after[b] == if from <= b < to then data[b] else before[b]
  }

  lemma RunCopied(before: seq<Byte>, middle: seq<Byte>, after: seq<Byte>, data: seq<Byte>, ids: seq<nat>, from: nat,
                  to: nat, size: nat)
    requires from < to <= |ids| && Consecutive(ids, from, to) && Copied(before, middle, data, ids[..from], size)
    requires RangeCopied(middle, after, data, ids[from] * size, (ids[from] + (to - from)) * size)
    ensures Copied(before, after, data, ids[..to], size)
  {
    forall b | 0 <= b < |data| ensures after[b] == if Selected(ids[..to], size, b) then data[b] else before[b] {
      RunIsRange(ids, from, to, size, b);
      SelectedSplit(ids, from, to, size, b);
    }
  }

  lemma SelectedSplit(ids: seq<nat>, from: nat, to: nat, size: nat, b: nat)
    requires from <= to <= |ids|
    ensures Selected(ids[..to], size, b) <==>
              Selected(ids[..from], size, b) || exists k :: from <= k < to && InChunk(ids[k], size, b)
  {
    if Selected(ids[..from], size, b) {
      var k :| 0 <= k < from && InChunk(ids[..from][k], size, b);
      assert ids[..to][k] == ids[k];
    }
    if k :| from <= k < to && InChunk(ids[k], size, b) {
      assert ids[..to][k] == ids[k];
    }
    if Selected(ids[..to], size, b) {
      var k :| 0 <= k < to && InChunk(ids[..to][k], size, b);
      if k < from {
        assert ids[..from][k] == ids[k];
      } else {
        assert InChunk(ids[k], size, b);
      }
    }
  }

  lemma RunInside(ids: seq<nat>, from: nat, to: nat, size: nat, length: nat)
    requires from < to <= |ids| && Consecutive(ids, from, to) && Within(ids, size, length)
    ensures (ids[from] + (to - from)) * size <= length
    ensures ids[from] * size + (to - from) * size == (ids[from] + (to - from)) * size
  {
    RunIsRange(ids, from, to, size, 0);
    assert ids[to - 1] * size + size <= length;
    assert (ids[from] + (to - from)) * size == ids[to - 1] * size + size;
  }

  method Check(ids: seq<nat>, size: nat, columnSize: nat) returns (r: Outcome)
    ensures r in {Done, NotIncreasing, OutOfBounds}
    ensures r == Done <==> Increasing(ids) && Within(ids, size, columnSize)
  {
    for i := 0 to |ids|
      invariant Increasing(ids[..i]) && Within(ids[..i], size, columnSize)
    {
      if i > 0 && ids[i] <= ids[i - 1] {
        assert !Increasing(ids);
        return NotIncreasing;
      }
      if ids[i] * size + size > columnSize {
        assert !Within(ids, size, columnSize);
        return OutOfBounds;
      }
      OneMore(ids, i, size, columnSize);
    }
    assert ids[..|ids|] == ids;
    r := Done;
  }

  /** Everything outside the column is as before. */
  twostate predicate Around(record: array<Byte>, at: nat, length: nat)
    reads record
  {
    forall j :: 0 <= j < record.Length && !(at <= j < at + length) ==> record[j] == old(record[j])
  }

  /** Takes the chunks named by ids from data into the stored column. Whatever is wrong is found
      before the first write, so a refused update has changed nothing. */
  method Update(record: array<Byte>, at: nat, columnSize: nat, taken: bool, data: Data, ids: seq<nat>, size: nat)
    returns (r: Outcome)
    requires at + columnSize <= record.Length
    modifies record
    ensures r == Done <==> ids == [] || (data.Data? && size > 0 && |data.bytes| == columnSize && Increasing(ids) &&
                                         Within(ids, size, columnSize) && taken)
    ensures r == FreeSlot <==> ids != [] && data.Data? && size > 0 && |data.bytes| == columnSize && Increasing(ids) &&
                               Within(ids, size, columnSize) && !taken
    ensures r == Done && ids != [] ==>
              Copied(old(record[at..at + columnSize]), record[at..at + columnSize], data.bytes, ids, size)
    ensures r != Done || ids == [] ==> record[..] == old(record[..])
    ensures Around(record, at, columnSize)
  {
    if ids == [] {
      return Done;
    }
    if data.Null? || size == 0 || |data.bytes| != columnSize {
      return BadArguments;
    }
    r := Check(ids, size, columnSize);
    if r != Done {
      return;
    }
    if !taken {
      return FreeSlot;
    }
    WriteRuns(record, at, data.bytes, ids, size);
  }

  lemma OneMore(ids: seq<nat>, i: nat, size: nat, length: nat)
    requires i < |ids| && Increasing(ids[..i]) && Within(ids[..i], size, length)
    requires (i > 0 ==> ids[i - 1] < ids[i]) && ids[i] * size + size <= length
    ensures Increasing(ids[..i + 1]) && Within(ids[..i + 1], size, length)
  {
    var before, after := ids[..i], ids[..i + 1];
    forall j, k | 0 <= j < k < |after| ensures after[j] < after[k] {
      if k < i {
        assert before[j] < before[k];
      } else if j < i - 1 {
        assert before[j] < before[i - 1];
      }
    }
    forall k | 0 <= k < |after| ensures after[k] * size + size <= length {
      if k < i {
        assert after[k] == before[k];
      }
    }
  }

  /** The run-extending write loop. */
  method WriteRuns(record: array<Byte>, at: nat, data: seq<Byte>, ids: seq<nat>, size: nat)
    requires at + |data| <= record.Length && size > 0 && Within(ids, size, |data|)
    modifies record
    ensures Copied(old(record[at..at + |data|]), record[at..at + |data|], data, ids, size)
    ensures Around(record, at, |data|)
  {
    hide Copied, Selected, Within, InChunk;
    ghost var before := record[at..at + |data|];
    NothingCopied(before, data, size);
    assert ids[..0] == [];
    var i := 0;
    while i < |ids|
      invariant i <= |ids| && Copied(before, record[at..at + |data|], data, ids[..i], size)
      invariant Around(record, at, |data|)
    {
      var end := i + 1;
      while end < |ids| && ids[end] == ids[end - 1] + 1
        invariant i < end <= |ids| && Consecutive(ids, i, end)
      {
        end := end + 1;
      }
      ghost var middle := record[at..at + |data|];
      WriteRun(record, at, data, ids, i, end, size);
      RunCopied(before, middle, record[at..at + |data|], data, ids, i, end, size);
      i := end;
    }
    assert ids[..i] == ids;
  }

  /** One call for a whole run. */
  method WriteRun(record: array<Byte>, at: nat, data: seq<Byte>, ids: seq<nat>, from: nat, to: nat, size: nat)
    requires at + |data| <= record.Length && from < to <= |ids| && Consecutive(ids, from, to) &&
             Within(ids, size, |data|)
    modifies record
    ensures RangeCopied(old(record[at..at + |data|]), record[at..at + |data|], data, ids[from] * size,
                        (ids[from] + (to - from)) * size)
    ensures Around(record, at, |data|)
  {
    RunInside(ids, from, to, size, |data|);
    Positive(to - from, size);
    Positive(ids[from], size);
    var offset, length := ids[from] * size, (to - from) * size;
    ghost var whole := record[..];
    WriteString(record, at + offset, data[offset..offset + length]);
    StringCopied(whole, record[..], at, data, offset, length);
    assert record[..][at..at + |data|] == record[at..at + |data|] &&
           whole[at..at + |data|] == old(record[at..at + |data|]);
  }

  lemma StringCopied(whole: seq<Byte>, whole': seq<Byte>, at: nat, data: seq<Byte>, offset: nat, length: nat)
    requires at + |data| <= |whole| == |whole'| && offset + length <= |data|
    requires forall i :: 0 <= i < |whole| ==>
               whole'[i] == if at + offset <= i < at + offset + length then data[i - at] else whole[i]
    ensures RangeCopied(whole[at..at + |data|], whole'[at..at + |data|], data, offset, offset + length)
  {
  }

  lemma Positive(n: nat, size: nat)
    ensures n * size >= 0
  {
  }

  lemma NothingCopied(before: seq<Byte>, data: seq<Byte>, size: nat)
    requires |before| == |data|
    ensures Copied(before, before, data, [], size)
  {
  }
}
