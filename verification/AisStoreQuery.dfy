/** One query for a data range: a paging iterator over the rows the store answers with. */
module AisStoreQuery {
  import opened Wrappers
  import opened AisStoreSchema
  import opened Tables
  import opened PartitionReads

  /** The state of the future shared by the queries of one result. */
  datatype Future = Running | Done | Cancelled

  class AisStoreQueryInnerContext {
    var queries: set<AisStoreQuery>
    var inner: Future

    constructor ()
      ensures queries == {} && inner == Running
    {
      queries, inner := {}, Running;
    }

    /** A query reports its end; the last one completes the future, unless that was cancelled. */
    method Finished(q: AisStoreQuery)
      modifies this
      ensures queries == old(queries) - {q}
      ensures inner == if old(queries) - {q} == {} && old(inner) == Running then Done else old(inner)
    {
      queries := queries - {q};
      if queries == {} && inner == Running {
        inner := Done;
      }
    }

    method Cancel()
      modifies this
      ensures queries == old(queries)
      ensures inner == if old(inner) == Running then Cancelled else old(inner)
    {
      if inner == Running {
        inner := Cancelled;
      }
    }
  }

  ghost predicate WithinRow(table: Table, k: Key, row: int) {
    Fits(table, k.time) && Block(table, k.time) <= row
  }

  /** An instant strictly inside the interval lies in a block between that of the start and that of the last instant. */
  lemma InstantInReach(table: Table, timeStart: int, t: int, timeStop: int)
    requires timeStart < t < timeStop && Fits(table, timeStart) && Fits(table, timeStop)
    ensures Fits(table, t) && Block(table, timeStart) <= Block(table, t) <= Block(table, timeStop - 1)
  {
    BlockMonotone(table, timeStart, t);
    BlockMonotone(table, t, timeStop - 1);
    BlockMonotone(table, timeStop - 1, timeStop);
  }

  /** The rows of an answer lie within the rows of the table that the iterator walks through. */
  ghost predicate Reachable(table: Table, rowStart: int, rowStop: int, answer: seq<Key>) {
    rowStart != rowStop ==>
      (answer != [] ==> rowStart <= rowStop) && forall k :: k in answer ==> WithinRow(table, k, rowStop)
  }

  /** A linear scan of the table for one part, sorted by time and digest. */
  function Scan(rows: Rows, table: Table, part: int, start: int, stop: int): seq<Key>
    requires WellFiled(rows)
  {
    MatchingIsComparable(rows, table, part, start, stop);
    Sorted(Matching(rows, table, part, start, stop))
  }

  lemma ScanIsOrdered(rows: Rows, table: Table, part: int, start: int, stop: int)
    requires WellFiled(rows)
    ensures Ordered(Scan(rows, table, part, start, stop))
    ensures forall k :: k in Scan(rows, table, part, start, stop) <==> k in Matching(rows, table, part, start, stop)
  {
    MatchingIsComparable(rows, table, part, start, stop);
    SortedIsOrdered(Matching(rows, table, part, start, stop));
  }

  /** The select that a query sends, over the time blocks of its interval; None where computing these throws. */
  method Execute(rows: Rows, table: Table, part: int, timeStart: int, timeStop: int) returns (answer: Option<seq<Key>>)
    requires WellFiled(rows)
    ensures answer == if BlockList(table, timeStart, timeStop).None? then None
                      else Some(Scan(rows, table, part, timeStart, timeStop))
  {
    var timeBlocks := TimeBlocks(table, timeStart, timeStop);
    if timeBlocks.None? {
      return None;
    }
    var select := Select(rows, table, part, timeBlocks.value, timeStart, timeStop);
    SelectIsScan(rows, table, part, timeStart, timeStop);
    answer := Some(select);
  }

  /** Every received time lies in a block no later than that of the last instant before the stop. */
  lemma ScanInReach(rows: Rows, table: Table, part: int, timeStart: int, timeStop: int)
    requires WellFiled(rows) && BlockList(table, timeStart, timeStop).Some?
    ensures Reachable(table, Block(table, timeStart), Block(table, timeStop - 1),
                      Scan(rows, table, part, timeStart, timeStop))
  {
    var answer := Scan(rows, table, part, timeStart, timeStop);
    ScanIsOrdered(rows, table, part, timeStart, timeStop);
    forall k | k in answer ensures WithinRow(table, k, Block(table, timeStop - 1)) {
      InstantInReach(table, timeStart, k.time, timeStop);
    }
    if answer != [] {
      assert answer[0] in Matching(rows, table, part, timeStart, timeStop);
      InstantInReach(table, timeStart, answer[0].time, timeStop);
    }
  }

  class AisStoreQuery {
    const batchLimit: int
    const table: Table
    const lastRow: int
    const inner: AisStoreQueryInnerContext
    /** Its place among the sub-queries of a result. */
    ghost const id: nat
    var currentRow: int
    /** Rows received and not yet returned. */
    var packets: seq<Key>
    /** Rows of the result set not yet received; the first of them have been fetched already. */
    var unread: seq<Key>
    var available: nat
    var retrievedPackets: nat
    var latestDateReceived: Option<int>
    /** The iterator's look-ahead, and whether the end was reported. */
    var peeked: Option<Key>
    var ended: bool

    /** A received time lies in a block no later than lastRow, so the outer loop is not cut short. */
    ghost predicate InReach(k: Key) {
      WithinRow(table, k, lastRow)
    }

    ghost predicate Valid()
      reads this
    {
      && available <= |unread|
      && (unread != [] && !ended ==> currentRow <= lastRow)
      && (currentRow == lastRow || ended || forall k :: k in unread ==> InReach(k))
      && (ended ==> packets == [] && peeked == None && (batchLimit >= 1 ==> unread == []))
      && (batchLimit < 1 ==> packets == [] && peeked == None)
    }

    /** The rows still to come from this iterator: all those not yet taken, if it asks for one or more at a time. */
    ghost function Pending(): seq<Key>
      reads this
    {
      (if peeked.Some? then [peeked.value] else []) + packets + if batchLimit >= 1 then unread else []
    }

    /** The query was sent and answered; the rows arrive page by page as the iterator asks for them. */
    constructor (inner: AisStoreQueryInnerContext, batchLimit: int, table: Table, rowStart: int, rowStop: int,
                 answer: seq<Key>, ghost id: nat)
      requires Reachable(table, rowStart, rowStop, answer)
      modifies inner
      ensures Valid() && !ended && peeked.None? && Pending() == if batchLimit >= 1 then answer else []
      ensures this.inner == inner && this.batchLimit == batchLimit && this.table == table && this.id == id
      ensures retrievedPackets == 0
      ensures inner.queries == old(inner.queries) + {this} && inner.inner == old(inner.inner)
    {
      this.inner, this.batchLimit, this.table, this.lastRow, this.id := inner, batchLimit, table, rowStop, id;
      currentRow := rowStart;
      packets, unread, available := [], answer, 0;
      retrievedPackets, latestDateReceived := 0, None;
      peeked, ended := None, false;
      new;
      inner.queries := inner.queries + {this};
    }

    /** More rows arrive: any number of them. */
    method FetchMoreResults()
      requires available <= |unread|
      modifies this`available
      ensures old(available) <= available <= |unread|
    {
      var page: nat :| 0 <= page;
      available := if available + page <= |unread| then available + page else |unread|;
    }

    /** Waits for the next page when none of the fetched rows are left. */
    method HasNextRow() returns (has: bool)
      requires available <= |unread|
      modifies this`available
      ensures available <= |unread| && has == (unread != []) && (has ==> available > 0)
    {
      if available == 0 && unread != [] {
        FetchMoreResults();
        if available == 0 {
          available := 1;
        }
      }
      has := unread != [];
    }

    /** The next row, or None at the end of the data, which is reported to the context once. */
    method ComputeNext() returns (next: Option<Key>)
      requires Valid() && !ended && peeked.None?
      modifies this, inner
      ensures Valid() && peeked.None?
      ensures old(Pending()) == [] ==> next == None && ended
      ensures old(Pending()) != [] ==> next == Some(old(Pending())[0]) && Pending() == old(Pending())[1..] && !ended
      ensures inner.queries == old(inner.queries) - if ended then {this} else {}
      ensures inner.inner
              == if ended && inner.queries == {} && old(inner.inner) == Running then Done else old(inner.inner)
      ensures retrievedPackets - |packets| == old(retrievedPackets - |packets|) + if next.Some? then 1 else 0
    {
      if packets != [] {
        next := Some(packets[0]);
        packets := packets[1..];
        return;
      }
      while currentRow <= lastRow
        invariant packets == [] && peeked.None? && !ended && available <= |unread| && unread == old(unread)
        invariant retrievedPackets == old(retrievedPackets)
        invariant inner.queries == old(inner.queries) && inner.inner == old(inner.inner)
        invariant currentRow > lastRow ==> batchLimit < 1 || unread == []
        invariant currentRow == lastRow || batchLimit < 1 || forall k :: k in unread ==> InReach(k)
        decreases lastRow - currentRow
      {
        var innerReceived := ReceiveRows();
        if innerReceived > 0 && currentRow != lastRow {
          assert old(unread)[|packets| - 1] == packets[|packets| - 1];
          assert InReach(old(unread)[|packets| - 1]);
          currentRow := TimeBlock(table, latestDateReceived.value).value;
        }
        if packets != [] {
          next := Some(packets[0]);
          packets := packets[1..];
          return;
        }
        // The answer has arrived, as execute() waited for the future: the loop ends and so does the data.
        currentRow := lastRow + 1;
      }
      ended := true;
      inner.Finished(this);
      next := None;
    }

    /** Receives at most batchLimit rows. */
    method ReceiveRows() returns (innerReceived: nat)
      requires available <= |unread| && packets == []
      modifies this`packets, this`unread, this`available, this`retrievedPackets, this`latestDateReceived
      ensures available <= |unread| && packets + unread == old(unread)
      ensures innerReceived == |packets| && retrievedPackets == old(retrievedPackets) + |packets|
      ensures packets == [] <==> batchLimit < 1 || old(unread) == []
      ensures packets != [] ==> latestDateReceived == Some(packets[|packets| - 1].time)
    {
      innerReceived := 0;
      var hasNext := HasNextRow();
      while hasNext && innerReceived < batchLimit
        invariant available <= |unread| && packets + unread == old(unread)
        invariant hasNext == (unread != []) && (hasNext ==> available > 0)
        invariant innerReceived == |packets| && retrievedPackets == old(retrievedPackets) + |packets|
        invariant batchLimit < 1 ==> packets == []
        invariant packets != [] ==> latestDateReceived == Some(packets[|packets| - 1].time)
        decreases |unread|
      {
        if available == 100 && available != |unread| {
          FetchMoreResults();
        }
        var row := unread[0];
        assert packets + [row] + unread[1..] == packets + unread;
        latestDateReceived := Some(row.time);
        unread, available := unread[1..], available - 1;
        packets := packets + [row];
        retrievedPackets := retrievedPackets + 1;
        innerReceived := innerReceived + 1;
        hasNext := HasNextRow();
      }
    }

    method HasNext() returns (has: bool)
      requires Valid()
      modifies this, inner
      ensures Valid() && Pending() == old(Pending())
      ensures has == (Pending() != []) && (has ==> peeked == Some(Pending()[0])) && (!has ==> ended)
      ensures inner.queries == old(inner.queries) - if ended && !old(ended) then {this} else {}
      ensures inner.inner == if ended && !old(ended) && inner.queries == {} && old(inner.inner) == Running then Done
                             else old(inner.inner)
    {
      if peeked.None? && !ended {
        var next := ComputeNext();
        peeked := next;
      }
      has := peeked.Some?;
    }

    method Next() returns (k: Key)
      requires Valid() && peeked.Some?
      modifies this
      ensures Valid() && peeked.None? && ended == old(ended)
      ensures [k] + Pending() == old(Pending())
    {
      k := peeked.value;
      peeked := None;
    }
  }
}
