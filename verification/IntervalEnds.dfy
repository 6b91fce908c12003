/** The start of an interval: when the documented, inclusive one is right for a query, and what the count adds to it. */
module IntervalEnds {
  import opened Wrappers
  import opened AisStoreSchema
  import opened AisPackets
  import opened Tables
  import opened PositionTracking
  import opened OnlineWriter
  import opened Agreement
  import opened Replay
  import opened PartitionReads
  import opened AisStoreQueryBuilder
  import opened CassandraStats

  /** The multiplicity of every row in the documented answer: the start is included, the stop is not. */
  ghost function Documented(rows: Rows, table: Table, parts: seq<int>, start: int, stop: int, k: Key): nat {
    if k in rows && k.table == table && start <= k.time < stop then multiset(parts)[k.part] else 0
  }

  /** A stored row that the query would read has exactly the time of the start. */
  ghost predicate RowAtStart(rows: Rows, q: Query) {
    exists k :: k in rows && k.table == q.TableRead() && k.part in q.PartsRead() && k.time == q.start
  }

  /** The documented answer and the answer given are the same if and only if no row lies exactly at the start. */
  lemma DocumentedExactlyWhenNoneAtStart(q: Query, rows: Rows, ks: seq<Key>)
    requires WellFiled(rows) && Answer(q, rows, ks) && q.batchLimit >= 1 && q.start < q.stop
    ensures (forall k :: multiset(ks)[k] == Documented(rows, q.TableRead(), q.PartsRead(), q.start, q.stop, k))
            <==> !RowAtStart(rows, q)
  {
    if k :| k in rows && k.table == q.TableRead() && k.part in q.PartsRead() && k.time == q.start {
      assert multiset(ks)[k] == 0 < Documented(rows, q.TableRead(), q.PartsRead(), q.start, q.stop, k);
    }
  }

  /** The rows of packets_time at exactly an instant. */
  ghost function AtInstant(rows: Rows, t: int): set<Key> {
    set k | k in rows && k.table == PacketsTime && k.time == t
  }

  lemma {:induction false} SortedLength(keys: set<Key>)
    requires Comparable(keys)
    ensures |Sorted(keys)| == |keys|
  {
    if keys != {} {
      FirstExists(keys);
      var m :| First(m, keys);
      SortedLength(keys - {m});
      assert Sorted(keys) == [m] + Sorted(keys - {m});
    }
  }

  /** packets_time has no part. */
  ghost predicate TimeHasNoPart(rows: Rows) {
    forall k :: k in rows && k.table == PacketsTime ==> k.part == 0
  }

  lemma WrittenTimeHasNoPart(lib: Library, cell10Enabled: bool, es: seq<Event>)
    ensures TimeHasNoPart(Written(lib, cell10Enabled, es))
  {
    var rows := Written(lib, cell10Enabled, es);
    OnlineHolds(lib, cell10Enabled, es);
    forall k | k in rows && k.table == PacketsTime ensures k.part == 0 {
      var p :| p in Packets(es) && CanLeave(lib, p, k) && rows[k] == p.raw;
      assert OnlineRow(lib, false, PacketsTime, p, OwnPosition(p))[0] == Insert(k, p.raw);
    }
  }

  /** A count over the interval of a query by time exceeds the query's answer by exactly the rows at the start. */
  lemma CountExceedsAnswer(q: Query, rows: Rows, ks: seq<Key>)
    requires WellFiled(rows) && TimeHasNoPart(rows)
    requires Answer(q, rows, ks) && q.batchLimit >= 1 && q.selection.ByTime? && q.start < q.stop
    ensures |Within(rows, q.start, q.stop)| == |ks| + |AtInstant(rows, q.start)|
  {
    var matching := Matching(rows, PacketsTime, 0, q.start, q.stop);
    MatchingIsComparable(rows, PacketsTime, 0, q.start, q.stop);
    SortedLength(matching);
    assert Within(rows, q.start, q.stop) == matching + AtInstant(rows, q.start);
    assert matching !! AtInstant(rows, q.start);
  }

  /** Both readers on the same interval. */
  method CountAndRead(rows: Rows, builder: AisStoreQueryBuilder, tbPerSelect: int)
    returns (numPackets: Option<nat>, ks: Option<seq<Key>>)
    requires WellFiled(rows) && TimeHasNoPart(rows) && builder.selection.ByTime? && builder.batchLimit >= 1
    requires builder.startTimeInclusive < builder.stopTimeExclusive
    ensures numPackets.Some? && ks.Some? ==>
              numPackets.value == |ks.value| + |AtInstant(rows, builder.startTimeInclusive)|
  {
    numPackets := PrintPacketsTimeStats(rows, builder.startTimeInclusive, builder.stopTimeExclusive, tbPerSelect);
    ks := Run(builder, rows);
    if ks.Some? {
      CountExceedsAnswer(builder.Settings(), rows, ks.value);
    }
  }
}
