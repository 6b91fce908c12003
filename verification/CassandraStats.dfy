/** Counting the packets of an interval in chunks of time blocks, with the time filters on the outer chunks only. */
module CassandraStats {
  import opened Wrappers
  import opened AisStoreSchema
  import opened Tables
  import opened PartitionReads

  /** The rows of packets_time with from <= time < to. */
  ghost function Within(rows: Rows, from: int, to: int): set<Key> {
    set k | k in rows && k.table == PacketsTime && from <= k.time < to
  }

  ghost function WithinBlocks(rows: Rows, from: int, to: int, first: int, end: int): set<Key> {
    set k | k in Within(rows, from, to) && first <= k.block < end
  }

  /** The rows a select over time blocks counts, with optional bounds on the time. */
  function Selected(rows: Rows, blocks: seq<int>, gte: Option<int>, lt: Option<int>): set<Key> {
    set k | k in rows && k.table == PacketsTime && k.block in blocks
            && (gte.Some? ==> gte.value <= k.time) && (lt.Some? ==> k.time < lt.value)
  }

  /** Only the first chunk can hold rows before the interval, and only the last one rows after it. */
  lemma ChunkIsExact(rows: Rows, from: int, to: int, blocks: seq<int>, i: nat, n: nat, step: nat)
    requires WellFiled(rows) && i < n && step >= 1
    requires n == Block(PacketsTime, to) - Block(PacketsTime, from) + 1
    requires |blocks| == (if i + step < n then step else n - i)
    requires forall j :: 0 <= j < |blocks| ==> blocks[j] == Block(PacketsTime, from) + i + j
    ensures Selected(rows, blocks, if i == 0 then Some(from) else None, if i >= n - step then Some(to) else None)
            == WithinBlocks(rows, from, to, Block(PacketsTime, from) + i, Block(PacketsTime, from) + i + |blocks|)
  {
    var first := Block(PacketsTime, from) + i;
    var gte := if i == 0 then Some(from) else None;
    var lt := if i >= n - step then Some(to) else None;
    forall k | k in rows && k.table == PacketsTime
      ensures k in Selected(rows, blocks, gte, lt) <==> k in WithinBlocks(rows, from, to, first, first + |blocks|)
    {
      assert k.block in blocks <==> first <= k.block < first + |blocks| by {
        if first <= k.block < first + |blocks| {
          assert blocks[k.block - first] == k.block;
        }
      }
      if k.time < from {
        BlockMonotone(PacketsTime, k.time, from);
      } else if to <= k.time {
        BlockMonotone(PacketsTime, to, k.time);
      }
    }
  }

  lemma ChunksJoin(rows: Rows, from: int, to: int, first: int, mid: int, end: int)
    requires first <= mid <= end
    ensures |WithinBlocks(rows, from, to, first, end)|
            == |WithinBlocks(rows, from, to, first, mid)| + |WithinBlocks(rows, from, to, mid, end)|
  {
    var a, b := WithinBlocks(rows, from, to, first, mid), WithinBlocks(rows, from, to, mid, end);
    assert WithinBlocks(rows, from, to, first, end) == a + b;
    assert a !! b;
  }

  lemma AllBlocksCovered(rows: Rows, from: int, to: int)
    requires WellFiled(rows)
    ensures Within(rows, from, to) == WithinBlocks(rows, from, to, Block(PacketsTime, from), Block(PacketsTime, to) + 1)
  {
    forall k | k in Within(rows, from, to)
      ensures Block(PacketsTime, from) <= k.block <= Block(PacketsTime, to)
    {
      BlockMonotone(PacketsTime, from, k.time);
      BlockMonotone(PacketsTime, k.time, to);
    }
  }

  /**
   * The count is exact whenever there is one, also for a reversed interval whose array of blocks can be allocated.
   * None stands for an exception: a block that does not fit, a negative array size, or a first chunk that has no block.
   */
  method PrintPacketsTimeStats(rows: Rows, from: int, to: int, tbPerSelect: int) returns (numPackets: Option<nat>)
    requires WellFiled(rows)
    ensures numPackets.Some? ==> numPackets.value == |Within(rows, from, to)|
    ensures numPackets.Some? <==> && Fits(PacketsTime, from) && Fits(PacketsTime, to)
                                  && Block(PacketsTime, to) - Block(PacketsTime, from) + 1 >= 0
                                  && (tbPerSelect >= 1 || Block(PacketsTime, to) - Block(PacketsTime, from) + 1 == 0)
  {
    var first, last := TimeBlock(PacketsTime, from), TimeBlock(PacketsTime, to);
    if first.None? || last.None? {
      return None;
    }
    var tb0, tb1 := first.value, last.value;
    var n := tb1 - tb0 + 1;
    if n < 0 {
      return None;
    }
    var timeblocks := new int[n];
    var j := 0;
    while j < n
      invariant 0 <= j <= n
      invariant forall m :: 0 <= m < j ==> timeblocks[m] == tb0 + m
    {
      timeblocks[j] := tb0 + j;
      j := j + 1;
    }
    var total := 0;
    var step := tbPerSelect;
    var i := 0;
    while i < n
      invariant 0 <= i && (i > 0 ==> step >= 1)
      invariant total == |WithinBlocks(rows, from, to, tb0, tb0 + if i < n then i else n)|
      invariant forall m :: 0 <= m < n ==> timeblocks[m] == tb0 + m
      decreases n - i
    {
      var end := if i + step < n then i + step else n;
      if end <= i {
        // Copying the range throws when it is reversed, and printing its first block when it is empty.
        return None;
      }
      var queryTimeBlocks := timeblocks[i..end];
      var gte := if i == 0 then Some(from) else None;
      var lt := if i >= n - step then Some(to) else None;
      var count := |Selected(rows, queryTimeBlocks, gte, lt)|;
      ChunkIsExact(rows, from, to, queryTimeBlocks, i, n, step);
      ChunksJoin(rows, from, to, tb0, tb0 + i, tb0 + end);
      total := total + count;
      i := i + step;
    }
    AllBlocksCovered(rows, from, to);
    numPackets := Some(total);
  }
}
