/** How many records a data page takes: the refinement loop of the page layout, and the exact
    result it comes to for every page and record size. */
module Capacity {

  const FREE_BITMAP_OFF: nat := 58
  const TRAILER_SIZE: nat := 8
  const TRX_REF_SIZE: nat := 8
  const MAX_SLOT_INDEX: nat := 16383
  const MAX_ITERATIONS: nat := 10
  const BITS_PER_RECORD: nat := 2

  function BitsToBytes(bits: nat): (bytes: nat) {
    (bits + 7) / 8
  }

  /** Bitmap and records of n slots fit into the available space. */
  predicate Fits(available: nat, recSize: nat, n: nat) {
    n * recSize + BitsToBytes(n * BITS_PER_RECORD) <= available
  }

  /** Space for four records and their bitmap byte. */
  function Group(recSize: nat): (g: nat)
    ensures g > 0
  {
    4 * recSize + 1
  }

  /** The space that whole groups leave over is exactly one record: the loop then never settles. */
  predicate Alternates(available: nat, recSize: nat) {
    available % Group(recSize) == recSize
  }

  /** Records that fit into the rest of the space, beside one bitmap byte. */
  function RestRecords(rest: nat, recSize: nat): (r: nat)
    requires recSize > 0
  {
    if rest == 0 then 0
    else
      NotNegative(rest - 1, recSize);
      (rest - 1) / recSize
  }

  lemma {:induction false} Times(a: int, b: int, d: nat)
    requires a < b
    ensures a * d + d <= b * d
    decreases b - a
  {
    assert b * d == (b - 1) * d + d;
    if a < b - 1 {
      Times(a, b - 1, d);
    }
  }

  /** Whole groups in the space. */
  function WholeGroups(available: nat, recSize: nat): (q: nat)
    ensures available == q * Group(recSize) + available % Group(recSize)
  {
    NotNegative(available, Group(recSize));
    available / Group(recSize)
  }

  lemma NotNegative(n: nat, d: nat)
    requires d > 0
    ensures n / d >= 0 && n == (n / d) * d + n % d
  {
    if n / d < 0 {
      Times(n / d, 0, d);
      assert false;
    }
  }

  /** The most records that fit, in closed form. */
  function Most(available: nat, recSize: nat): (n: nat)
    requires recSize > 0
  {
    4 * WholeGroups(available, recSize) + RestRecords(available % Group(recSize), recSize)
  }

  /** What is left of a group holds up to three records and their bitmap byte. */
  lemma RestHolds(recSize: nat, rest: nat)
    requires recSize > 0 && rest < Group(recSize)
    ensures var r := RestRecords(rest, recSize);
            r <= 3 && r * recSize + (if r == 0 then 0 else 1) <= rest < (r + 1) * recSize + 1
  {
    var r := RestRecords(rest, recSize);
    if rest > 0 {
      assert rest - 1 == r * recSize + (rest - 1) % recSize;
      if r >= 4 {
        Times(3, r, recSize);
        assert false;
      }
    }
  }

  lemma FitsByGroups(available: nat, recSize: nat, q: nat, r: nat)
    ensures Fits(available, recSize, 4 * q + r) <==> q * Group(recSize) + r * recSize + (r + 3) / 4 <= available
  {
    assert (4 * q + r) * recSize == 4 * q * recSize + r * recSize;
    assert BitsToBytes((4 * q + r) * BITS_PER_RECORD) == q + (r + 3) / 4;
    assert q * Group(recSize) == 4 * q * recSize + q;
  }

  lemma FitsIsDownwardClosed(available: nat, recSize: nat, n: nat, m: nat)
    requires m <= n && Fits(available, recSize, n)
    ensures Fits(available, recSize, m)
  {
    assert m * recSize <= n * recSize;
  }

  lemma MostFits(available: nat, recSize: nat)
    requires recSize > 0
    ensures Fits(available, recSize, Most(available, recSize)) &&
            !Fits(available, recSize, Most(available, recSize) + 1)
  {
    hide Fits, Group, RestRecords;
    var q, rest := WholeGroups(available, recSize), available % Group(recSize);
    RestHolds(recSize, rest);
    FitsByGroups(available, recSize, q, RestRecords(rest, recSize));
    FitsByGroups(available, recSize, q, RestRecords(rest, recSize) + 1);
  }

  /** Exactly the counts up to Most fit. */
  lemma MostIsMost(available: nat, recSize: nat, n: nat)
    requires recSize > 0
    ensures Fits(available, recSize, n) <==> n <= Most(available, recSize)
  {
    hide Fits, Most;
    MostFits(available, recSize);
    if n <= Most(available, recSize) {
      FitsIsDownwardClosed(available, recSize, Most(available, recSize), n);
    } else if Fits(available, recSize, n) {
      FitsIsDownwardClosed(available, recSize, n, Most(available, recSize) + 1);
    }
  }

  /** The loop's update: as many records as the space beside the bitmap of x records holds. */
  function Refined(available: int, recSize: nat, x: nat): (n: int)
    requires recSize > 0
  {
    (available - BitsToBytes(x * BITS_PER_RECORD)) / recSize
  }

  /** The update counted from the records of the whole groups. */
  function Step(rest: nat, recSize: nat, j: int): (j': int)
    requires recSize > 0
  {
    (rest - (j + 3) / 4) / recSize
  }

  lemma RefinedByGroups(available: nat, recSize: nat, q: nat, rest: nat, j: int)
    requires recSize > 0 && available == q * Group(recSize) + rest && 4 * q + j >= 0
    ensures Refined(available, recSize, 4 * q + j) == 4 * q + Step(rest, recSize, j)
  {
    assert BitsToBytes((4 * q + j) * BITS_PER_RECORD) == q + (j + 3) / 4;
    var t := rest - (j + 3) / 4;
    assert q * Group(recSize) == 4 * q * recSize + q;
    assert available - (q + (j + 3) / 4) == 4 * q * recSize + t;
    DivideShifted(4 * q, recSize, t);
  }

  lemma DivideShifted(k: nat, d: nat, t: int)
    requires d > 0
    ensures (k * d + t) / d == k + t / d
  {
    var e := t / d;
    assert t == e * d + t % d;
    assert k * d + t == (k + e) * d + t % d;
    DivideExact(k * d + t, d, k + e, t % d);
  }

  lemma DivideExact(n: int, d: nat, k: int, r: nat)
    requires d > 0 && n == k * d + r && r < d
    ensures n / d == k
  {
    var k' := n / d;
    assert n == k' * d + n % d;
    if k' < k {
      Times(k', k, d);
    } else if k' > k {
      Times(k, k', d);
    }
  }

  /** How far from the result the estimate can be after so many rounds. */
  predicate Close(rest: nat, recSize: nat, round: nat, j: int)
    requires recSize > 0
  {
    && -7 <= j <= 203
    && (round >= 1 ==> -6 <= j <= 4)
    && (round >= 2 ==> -1 <= j <= 4)
    && (if rest == recSize then
          (if round % 2 == 0 then j >= 1 else j <= 0) && (round >= 3 ==> 0 <= j <= 1)
        else
          var r := RestRecords(rest, recSize);
          && (round >= 3 ==> j == r || (j == r + 1 && r >= 1) || (j == -1 && rest == 0))
          && (round >= 4 ==> j == r))
  }

  /** Between 0 and 4 records of the rest: which multiple of the record size it has reached. */
  lemma StepNear(rest: nat, recSize: nat, j: int)
    requires recSize >= 9 && rest < Group(recSize) && -3 <= j <= 4
    ensures rest == recSize ==> Step(rest, recSize, j) == if j >= 1 then 0 else 1
    ensures rest != recSize && j >= 1 ==> Step(rest, recSize, j) == if rest == 0 then -1 else RestRecords(rest, recSize)
    ensures rest != recSize && j <= 0 ==>
              var r := RestRecords(rest, recSize);
              Step(rest, recSize, j) == r || (Step(rest, recSize, j) == r + 1 && r >= 1)
    ensures 0 <= RestRecords(rest, recSize) <= 3
  {
    RestHolds(recSize, rest);
    if rest == 0 {
      DivideExact(-1, recSize, -1, recSize - 1);
    }
    if rest == recSize {
      DivideExact(recSize - 1, recSize, 0, recSize - 1);
      DivideExact(recSize, recSize, 1, 0);
    } else if j <= 0 {
      var r := RestRecords(rest, recSize);
      if rest < (r + 1) * recSize {
        DivideExact(rest, recSize, r, rest - r * recSize);
      } else {
        DivideExact(rest, recSize, r + 1, 0);
      }
    }
  }

  lemma StepFar(rest: nat, recSize: nat, j: int)
    requires recSize >= 9 && rest < Group(recSize) && -7 <= j <= 203
    ensures -6 <= Step(rest, recSize, j) <= 4
    ensures j <= 4 ==> -1 <= Step(rest, recSize, j)
    ensures rest == recSize ==> (j >= 1 ==> Step(rest, recSize, j) <= 0) && (j <= 0 ==> Step(rest, recSize, j) >= 1)
  {
    var t := rest - (j + 3) / 4;
    var k := t / recSize;
    assert t == k * recSize + t % recSize;
    if k >= 5 {
      Times(4, k, recSize);
      assert false;
    }
    if k <= -7 {
      Times(k, -6, recSize);
      assert false;
    }
    if k <= -2 {
      Times(k, -1, recSize);
    }
    if rest == recSize && j >= 1 && k >= 1 {
      Times(0, k, recSize);
      assert false;
    }
    if rest == recSize && j <= 0 && k <= 0 {
      Times(k, 1, recSize);
      assert false;
    }
  }

  lemma CloseNext(rest: nat, recSize: nat, round: nat, j: int)
    requires recSize >= 9 && rest < Group(recSize) && Close(rest, recSize, round, j)
    ensures Close(rest, recSize, round + 1, Step(rest, recSize, j))
  {
    hide Step, RestRecords;
    StepFar(rest, recSize, j);
    if -3 <= j <= 4 {
      StepNear(rest, recSize, j);
    }
    NoRest(recSize);
  }

  lemma NoRest(recSize: nat)
    requires recSize > 0
    ensures RestRecords(0, recSize) == 0
  {
  }

  /** An estimate that no longer changes is the result; and it always changes if the rest is one record. */
  lemma {:induction false} SettledIsResult(rest: nat, recSize: nat, round: nat, j: int)
    requires recSize >= 9 && rest < Group(recSize) && Close(rest, recSize, round, j) && Step(rest, recSize, j) == j
    ensures rest != recSize && j == RestRecords(rest, recSize)
    decreases 4 - round
  {
    hide RestRecords;
    CloseNext(rest, recSize, round, j);
    if round < 4 {
      SettledIsResult(rest, recSize, round + 1, j);
    }
  }

  lemma GroupsBound(available: nat, recSize: nat, q: nat, rest: nat)
    requires 9 <= recSize && available == q * Group(recSize) + rest && available <= 65470
    ensures q <= 1769 && available == 4 * q * recSize + (q + rest)
  {
    if q > 1769 {
      Times(1769, q, Group(recSize));
      assert false;
    }
    assert q * Group(recSize) == 4 * q * recSize + q;
  }

  /** The space is q whole groups and a rest. */
  predicate Split(available: nat, recSize: nat, q: nat, rest: nat) {
    rest < Group(recSize) && available == q * Group(recSize) + rest
  }

  lemma FirstIsClose(available: nat, recSize: nat) returns (q: nat, rest: nat, j: int)
    requires 9 <= recSize <= available <= 65470
    ensures Split(available, recSize, q, rest)
    ensures Close(rest, recSize, 0, j) && available / recSize == 4 * q + j
    ensures Most(available, recSize) == 4 * q + RestRecords(rest, recSize)
    ensures Alternates(available, recSize) <==> rest == recSize
    ensures rest == recSize ==> RestRecords(rest, recSize) == 0
  {
    q, rest := WholeGroups(available, recSize), available % Group(recSize);
    GroupsBound(available, recSize, q, rest);
    DivideShifted(4 * q, recSize, q + rest);
    j := (q + rest) / recSize;
    FirstNear(recSize, q, rest);
    MostByGroups(available, recSize);
  }

  lemma FirstNear(recSize: nat, q: nat, rest: nat)
    requires 9 <= recSize && q <= 1769 && rest < Group(recSize)
    ensures Close(rest, recSize, 0, (q + rest) / recSize)
  {
    var k := (q + rest) / recSize;
    assert q + rest == k * recSize + (q + rest) % recSize;
    if k > 203 {
      Times(203, k, recSize);
      assert false;
    }
    if rest == recSize && k < 1 {
      Times(k, 1, recSize);
      assert false;
    }
  }

  /** One round of the loop, counted from the records of the whole groups. */
  lemma Round(available: nat, recSize: nat, q: nat, rest: nat, round: nat, j: int)
    requires 9 <= recSize <= available <= 65470 && Split(available, recSize, q, rest)
    requires Close(rest, recSize, round, j) && 0 <= 4 * q + j <= available
    ensures var x := Refined(available, recSize, 4 * q + j);
            x == 4 * q + Step(rest, recSize, j) && Close(rest, recSize, round + 1, x - 4 * q) && 0 <= x <= available
  {
    hide Step, Refined;
    RefinedNonNegative(available, recSize, 4 * q + j);
    RefinedByGroups(available, recSize, q, rest, j);
    CloseNext(rest, recSize, round, j);
    SmallEnough(available, recSize, q, rest);
    hide Split;
  }

  lemma SmallEnough(available: nat, recSize: nat, q: nat, rest: nat)
    requires 9 <= recSize <= available && Split(available, recSize, q, rest)
    ensures 4 * q + 4 <= available
  {
    if q > 0 {
      assert q * Group(recSize) == 4 * q * recSize + q;
      Times(8, recSize, 4 * q);
      assert 4 * q * recSize >= 36 * q;
    }
  }

  lemma LoopEnds(available: nat, recSize: nat, q: nat, rest: nat, iterations: nat, j: int)
    requires 9 <= recSize && Split(available, recSize, q, rest) && 1 <= iterations
    requires Close(rest, recSize, iterations - 1, j) && Close(rest, recSize, iterations, Step(rest, recSize, j))
    requires iterations == MAX_ITERATIONS || Step(rest, recSize, j) == j
    ensures if rest == recSize then j == 0 && Step(rest, recSize, j) == 1
            else j == RestRecords(rest, recSize) && Step(rest, recSize, j) == RestRecords(rest, recSize)
  {
    hide Step, RestRecords;
    if Step(rest, recSize, j) == j {
      SettledIsResult(rest, recSize, iterations - 1, j);
    }
  }

  lemma BitmapOf(q: nat)
    ensures BitsToBytes(4 * q * BITS_PER_RECORD) == q
  {
  }

  lemma Starts(available: nat, recSize: nat)
    requires 9 <= recSize <= available <= 65470
    ensures 1 <= available / recSize <= available
  {
    FirstEstimate(available, recSize);
    assert available == (available / recSize) * recSize + available % recSize;
    Times(0, recSize, available / recSize);
  }

  /** A 16-bit count of the records the space beside the bitmap of x records holds. */
  function RecordsBeside(available: nat, recSize: nat, x: nat): (n: nat)
    requires recSize >= 9 && x <= available
  {
    RefinedNonNegative(available, recSize, x);
    Refined(available, recSize, x) % 0x1_0000
  }

  /** The refinement loop: it settles on the most records that fit, or, if a page leaves exactly
      one record over its whole groups, keeps alternating and stops at one record more, with a
      bitmap of one byte less than that needs. */
  method Refine(available: nat, recSize: nat) returns (records: nat, bitmapSize: nat)
    requires 9 <= recSize <= available <= 65470
    ensures if Alternates(available, recSize)
            then records == Most(available, recSize) + 1 && bitmapSize == Most(available, recSize) / 4
            else records == Most(available, recSize) && bitmapSize == BitsToBytes(records * BITS_PER_RECORD)
  {
    hide Step, RestRecords, Alternates, Most, Refined, Split, Close, BitsToBytes;
    ghost var q, rest, j := FirstIsClose(available, recSize);
    Starts(available, recSize);
    records := (available / recSize) % 0x1_0000;
    var previous: nat, iterations := 0, 0;
    bitmapSize := 0;
    while records != previous && iterations < MAX_ITERATIONS
      invariant iterations <= MAX_ITERATIONS && Close(rest, recSize, iterations, j) && records == 4 * q + j &&
                records <= available
      invariant iterations == 0 ==> records != previous
      invariant iterations > 0 ==> bitmapSize == BitsToBytes(previous * BITS_PER_RECORD)
      invariant iterations > 0 ==>
                  Close(rest, recSize, iterations - 1, previous - 4 * q) && j == Step(rest, recSize, previous - 4 * q)
      decreases MAX_ITERATIONS - iterations
    {
      previous := records;
      Round(available, recSize, q, rest, iterations, j);
      iterations := iterations + 1;
      bitmapSize := BitsToBytes(records * BITS_PER_RECORD);
      records := RecordsBeside(available, recSize, records);
      j := Step(rest, recSize, j);
    }
    LoopEnds(available, recSize, q, rest, iterations, previous - 4 * q);
    BitmapOf(q);
  }

  lemma FirstEstimate(available: nat, recSize: nat)
    requires 9 <= recSize <= available <= 65470
    ensures 1 <= available / recSize < 0x1_0000
  {
    assert available == (available / recSize) * recSize + available % recSize;
    if available / recSize < 1 {
      Times(available / recSize, 1, recSize);
      assert false;
    }
  }

  lemma MostByGroups(available: nat, recSize: nat)
    requires recSize > 0
    ensures var q, rest := WholeGroups(available, recSize), available % Group(recSize);
            Most(available, recSize) == 4 * q + RestRecords(rest, recSize)
    ensures Alternates(available, recSize) <==> available % Group(recSize) == recSize
    ensures Alternates(available, recSize) ==> RestRecords(available % Group(recSize), recSize) == 0
  {
    if Alternates(available, recSize) {
      DivideExact(recSize - 1, recSize, 0, recSize - 1);
    }
  }

  lemma RefinedNonNegative(available: nat, recSize: nat, x: nat)
    requires 9 <= recSize && x <= available
    ensures available - BitsToBytes(x * BITS_PER_RECORD) >= 0 && Refined(available, recSize, x) >= 0
  {
    var t := available - BitsToBytes(x * BITS_PER_RECORD);
    assert t == (t / recSize) * recSize + t % recSize;
    if t / recSize < 0 {
      Times(t / recSize, 0, recSize);
      assert false;
    }
  }

  /** No more records than a column reference can name. */
  method CapAtSlotIndex(records: nat, bitmap: nat) returns (capacity: nat, bitmapSize: nat)
    ensures records <= MAX_SLOT_INDEX + 1 ==> capacity == records && bitmapSize == bitmap
    ensures records > MAX_SLOT_INDEX + 1 ==>
              capacity == MAX_SLOT_INDEX + 1 && bitmapSize == BitsToBytes(capacity * BITS_PER_RECORD)
  {
    capacity, bitmapSize := records, bitmap;
    if capacity > MAX_SLOT_INDEX + 1 {
      capacity := MAX_SLOT_INDEX + 1;
      bitmapSize := BitsToBytes(capacity * BITS_PER_RECORD);
    }
  }

  /** The layout of a data page: record size, capacity, bitmap size, and where the records begin. */
  method Init(pageSize: nat, columnSize: nat) returns (recSize: nat, capacity: nat, bitmapSize: nat, firstRecord: nat)
    requires FREE_BITMAP_OFF + TRAILER_SIZE <= pageSize <= 65536 && columnSize >= 1
    ensures recSize == TRX_REF_SIZE + columnSize && firstRecord == FREE_BITMAP_OFF + bitmapSize
    ensures var available := pageSize - FREE_BITMAP_OFF - TRAILER_SIZE;
            if Alternates(available, recSize) && recSize <= available
            then capacity == Most(available, recSize) + 1 && bitmapSize == Most(available, recSize) / 4
            else capacity == Most(available, recSize) && bitmapSize == BitsToBytes(capacity * BITS_PER_RECORD)
  {
    hide Most, Alternates;
    recSize := TRX_REF_SIZE + columnSize;
    var available := pageSize - FREE_BITMAP_OFF - TRAILER_SIZE;
    if available < recSize {
      NothingFits(available, recSize);
      return recSize, 0, 0, FREE_BITMAP_OFF;
    }
    capacity, bitmapSize := Refine(available, recSize);
    MostIsBounded(available, recSize);
    capacity, bitmapSize := CapAtSlotIndex(capacity, bitmapSize);
    firstRecord := FREE_BITMAP_OFF + bitmapSize;
  }

  lemma NothingFits(available: nat, recSize: nat)
    requires 0 < recSize && available < recSize
    ensures Most(available, recSize) == 0 && !Alternates(available, recSize)
  {
    assert Fits(available, recSize, 0);
    MostIsMost(available, recSize, 1);
    MostIsMost(available, recSize, 0);
    DivideExact(available, Group(recSize), 0, available);
  }

  lemma MostIsBounded(available: nat, recSize: nat)
    requires 9 <= recSize && available <= 65470
    ensures Most(available, recSize) <= 7280
  {
    hide Most, Fits;
    MostFits(available, recSize);
    FewFit(available, recSize, Most(available, recSize));
  }

  lemma FewFit(available: nat, recSize: nat, n: nat)
    requires 9 <= recSize && available <= 65470 && Fits(available, recSize, n)
    ensures n <= 7280
  {
    if n > 7280 {
      Times(7280, n, recSize);
      assert false;
    }
  }

  /** When the loop settles, bitmap, records and trailer fit, and one more record would not. */
  lemma SettledLayoutFits(available: nat, recSize: nat)
    requires 0 < recSize
    ensures var n := Most(available, recSize);
            && BitsToBytes(n * BITS_PER_RECORD) + n * recSize <= available
            && BitsToBytes((n + 1) * BITS_PER_RECORD) + (n + 1) * recSize > available
  {
    MostFits(available, recSize);
  }

  /** When it alternates, the page is filled to the last byte, but the status bits of the last slot
      lie in the first byte of the first record: records of 1255 bytes on a page of 16 KiB, say. */
  lemma AlternatingLayoutOverlaps(available: nat, recSize: nat)
    requires 0 < recSize && Alternates(available, recSize)
    ensures var n, bitmapSize := Most(available, recSize) + 1, Most(available, recSize) / 4;
            && n % 4 == 1 && bitmapSize + n * recSize == available
            && BitsToBytes(n * BITS_PER_RECORD) == bitmapSize + 1 && !Fits(available, recSize, n)
            && (n - 1) * BITS_PER_RECORD / 8 == bitmapSize
  {
    hide Fits, Group, RestRecords, BitsToBytes;
    MostByGroups(available, recSize);
    MostFits(available, recSize);
    OneMoreThanGroups(WholeGroups(available, recSize), recSize);
  }

  lemma OneMoreThanGroups(q: nat, recSize: nat)
    ensures q * Group(recSize) + recSize == (4 * q + 1) * recSize + q
    ensures (4 * q + 1) % 4 == 1 && 4 * q / 4 == q && BitsToBytes((4 * q + 1) * BITS_PER_RECORD) == q + 1
    ensures 4 * q * BITS_PER_RECORD / 8 == q
  {
    assert q * Group(recSize) == 4 * q * recSize + q;
  }

  /** The loop alternates exactly for the page sizes that some count n = 1 mod 4 fills with its
      records and the bitmap of n - 1. */
  lemma AlternatesIffFilled(available: nat, recSize: nat)
    requires 0 < recSize
    ensures Alternates(available, recSize) <==> exists n: nat :: n % 4 == 1 && Filled(available, recSize, n)
  {
    if Alternates(available, recSize) {
      AlternatingLayoutOverlaps(available, recSize);
      assert Filled(available, recSize, Most(available, recSize) + 1);
    }
    forall n: nat | n % 4 == 1 && Filled(available, recSize, n) ensures Alternates(available, recSize) {
      var q := n / 4;
      OneMoreThanGroups(q, recSize);
      DivideExact(available, Group(recSize), q, recSize);
    }
  }

  predicate Filled(available: nat, recSize: nat, n: nat) {
    n >= 1 && available == n * recSize + (n - 1) / 4
  }
}
