/** Rows written by the online writer or by the bulk converter, read back by a query. */
module WriteThenQuery {
  import opened Wrappers
  import opened AisStoreSchema
  import opened AisPackets
  import opened Tables
  import opened PositionTracking
  import opened OnlineWriter
  import opened BulkWriters
  import opened Agreement
  import opened Replay
  import opened PartitionReads
  import opened Merging
  import opened AisStoreQueryBuilder

  lemma StatementIsFiled(lib: Library, cell10Enabled: bool, p: Packet, position: Option<Position>, ins: Insert)
    requires ins in Statements(lib, cell10Enabled, p, position)
    ensures ins.key.block == Block(ins.key.table, ins.key.time)
    ensures ins.key.table.PacketsAreaCell10? ==> cell10Enabled
  {
  }

  /** Whatever was written can be queried: every row is filed under the block of its time. */
  lemma WrittenRowsAreWellFiled(lib: Library, cell10Enabled: bool, es: seq<Event>)
    ensures WellFiled(Written(lib, cell10Enabled, es))
  {
    forall k | k in Written(lib, cell10Enabled, es) ensures k.block == Block(k.table, k.time) {
      var i := RowHasPacket(lib, cell10Enabled, es, k);
      StatementIsFiled(lib, cell10Enabled, es[i].packet, TargetPosition(After(es[..i]), es[i].packet),
                       Insert(k, Written(lib, cell10Enabled, es)[k]));
    }
  }

  /**
   * A query by time or MMSI after any run: the row of key k comes back if and only if some handled packet leaves it and
   * its time lies strictly between start and stop, once for each time its part is asked for.
   */
  lemma QueryFindsExactlyHandledPackets(lib: Library, cell10Enabled: bool, es: seq<Event>, t: Table, parts: seq<int>,
                                        start: int, stop: int, k: Key)
    requires IsPlain(t)
    ensures Expected(Written(lib, cell10Enabled, es), t, parts, start, stop, k)
            == if k.table == t && start < k.time < stop && (exists p :: p in Packets(es) && Leaves(lib, p, k))
               then multiset(parts)[k.part] else 0
  {
    OnlineHolds(lib, cell10Enabled, es);
  }

  /** The rows a query by time or MMSI returns, and how often. */
  ghost predicate ReturnsHandled(lib: Library, es: seq<Event>, q: Query, ks: seq<Key>) {
    forall k :: multiset(ks)[k]
                == if k.table == q.TableRead() && q.start < k.time < q.stop
                      && (exists p :: p in Packets(es) && Leaves(lib, p, k))
                   then multiset(q.PartsRead())[k.part] else 0
  }

  /** From the writer to the reader: a query by time or MMSI returns exactly the rows of the handled packets. */
  method AskOnline(lib: Library, cell10Enabled: bool, ghost es: seq<Event>, rows: Rows, builder: AisStoreQueryBuilder)
    returns (ks: Option<seq<Key>>)
    requires rows == Written(lib, cell10Enabled, es) && !builder.selection.Area?
    requires builder.batchLimit >= 1 && builder.Settings().Answerable()
    ensures ks.Some? && TimeSorted(ks.value) && ReturnsHandled(lib, es, builder.Settings(), ks.value)
  {
    WrittenRowsAreWellFiled(lib, cell10Enabled, es);
    ghost var q := builder.Settings();
    ks := Run(builder, rows);
    forall k
      ensures multiset(ks.value)[k]
              == if k.table == q.TableRead() && q.start < k.time < q.stop
                    && (exists p :: p in Packets(es) && Leaves(lib, p, k))
                 then multiset(q.PartsRead())[k.part] else 0
    {
      QueryFindsExactlyHandledPackets(lib, cell10Enabled, es, q.TableRead(), q.PartsRead(), q.start, q.stop, k);
    }
  }

  /** The row of an area table that a packet with a recorded position is filed under. */
  function AreaRow(lib: Library, cell10: bool, p: Packet, position: Position): Insert {
    if cell10 then Row(lib, PacketsAreaCell10, lib.cell10(position), p)
    else Row(lib, PacketsAreaCell1, lib.cell1(position), p)
  }

  /**
   * A query for an area whose cells cover the recorded position of a stored packet is due that packet's row, whichever
   * of the 1-degree and 10-degree tables it reads, if and only if the online writer was told to fill that table.
   */
  lemma AreaQueryFindsPosition(lib: Library, cell10Enabled: bool, es: seq<Event>, i: int, position: Position,
                               cells1: seq<int>, cells10: seq<int>, usesCell10: bool, start: int, stop: int)
    requires 0 <= i < |es| && es[i].Received? && Faithful(lib, Packets(es))
    requires var p := es[i].packet;
             p.time > 0 && Mmsi(p) > 0 && !Throws(p) && TargetPosition(After(es[..i]), p) == Some(position)
             && start < p.time < stop
    requires lib.cell1(position) in cells1 && lib.cell10(position) in cells10
    ensures var row := AreaRow(lib, usesCell10, es[i].packet, position);
            var rows := Written(lib, cell10Enabled, es);
            && (Expected(rows, row.key.table, if usesCell10 then cells10 else cells1, start, stop, row.key) >= 1
                <==> (usesCell10 ==> cell10Enabled))
            && ((usesCell10 ==> cell10Enabled) ==> row.key in rows && rows[row.key] == es[i].packet.raw)
  {
    var row := AreaRow(lib, usesCell10, es[i].packet, position);
    if usesCell10 && !cell10Enabled {
      Cell10QueryNeedsCell10Rows(lib, es, cells10, start, stop, row.key);
    } else {
      assert OnlineRow(lib, cell10Enabled, row.key.table, es[i].packet, Some(position)) == [row];
      assert row in OnlineRow(lib, cell10Enabled, row.key.table, es[i].packet, Some(position));
      assert IssuedAt(lib, cell10Enabled, es, i, row);
      RowTextIsPackets(lib, cell10Enabled, es, i, row);
    }
  }

  /** While the online writer leaves the 10-degree table empty, a query on it finds nothing. */
  lemma Cell10QueryNeedsCell10Rows(lib: Library, es: seq<Event>, cells10: seq<int>, start: int, stop: int, k: Key)
    ensures Expected(Written(lib, false, es), PacketsAreaCell10, cells10, start, stop, k) == 0
  {
    if k in Written(lib, false, es) {
      var i := RowHasPacket(lib, false, es, k);
      StatementIsFiled(lib, false, es[i].packet, TargetPosition(After(es[..i]), es[i].packet),
                       Insert(k, Written(lib, false, es)[k]));
    }
  }

  /** Some packet of the run is filed under the key. */
  ghost predicate OnlineFiled(lib: Library, cell10Enabled: bool, es: seq<Event>, k: Key) {
    exists i, aisdata :: IssuedAt(lib, cell10Enabled, es, i, Insert(k, aisdata))
  }

  /** In any table, the row of key k is due exactly if a packet is filed there and its time is inside the interval. */
  lemma OnlineQueryFindsExactlyFiled(lib: Library, cell10Enabled: bool, es: seq<Event>, t: Table, parts: seq<int>,
                                     start: int, stop: int, k: Key)
    ensures Expected(Written(lib, cell10Enabled, es), t, parts, start, stop, k)
            == if k.table == t && start < k.time < stop && OnlineFiled(lib, cell10Enabled, es, k)
               then multiset(parts)[k.part] else 0
  {
    var online := Online(lib, cell10Enabled, es);
    if k in Written(lib, cell10Enabled, es) {
      var i := RowHasPacket(lib, cell10Enabled, es, k);
    } else if i, aisdata :| IssuedAt(lib, cell10Enabled, es, i, Insert(k, aisdata)) {
      OnlineInsertsAreIssued(lib, cell10Enabled, es, i, Insert(k, aisdata));
      var n :| 0 <= n < |online| && online[n] == Insert(k, aisdata);
      ApplyKeys(map[], online, k);
    }
  }

  // ---------- rows of the bulk converter ----------

  /** Some packet is filed under the key by the pass of its table. */
  ghost predicate BulkFiled(lib: Library, es: seq<Event>, k: Key, aisdata: string) {
    exists i :: 0 <= i < |es| && es[i].Received?
                && Insert(k, aisdata)
                   in BulkRow(lib, k.table, es[i].packet, TargetPosition(After(es[..i]), es[i].packet))
  }

  /** What the converter leaves under a key comes from a packet filed there. */
  lemma BulkRowHasPacket(lib: Library, es: seq<Event>, rows: Rows, k: Key)
    requires BulkFilled(lib, es, rows) && k in rows
    ensures BulkFiled(lib, es, k, rows[k])
  {
    var bulk := Bulk(lib, k.table, es);
    assert k in OfTable(rows, k.table) && OfTable(rows, k.table)[k] == rows[k];
    ApplyValue(map[], bulk, k);
    var n :| 0 <= n < |bulk| && bulk[n] == Insert(k, Apply(map[], bulk)[k]);
    BulkInsertHasPacket(lib, k.table, es, bulk[n]);
  }

  /** A packet filed under a key has its row there, whatever else is written. */
  lemma BulkFiledIsThere(lib: Library, es: seq<Event>, rows: Rows, k: Key, aisdata: string)
    requires BulkFilled(lib, es, rows) && BulkFiled(lib, es, k, aisdata)
    ensures k in rows
  {
    var bulk := Bulk(lib, k.table, es);
    var i :| 0 <= i < |es| && es[i].Received?
          && Insert(k, aisdata) in BulkRow(lib, k.table, es[i].packet, TargetPosition(After(es[..i]), es[i].packet));
    BulkInsertsAreIssued(lib, k.table, es, i, Insert(k, aisdata));
    var n :| 0 <= n < |bulk| && bulk[n] == Insert(k, aisdata);
    ApplyKeys(map[], bulk, k);
    assert k in OfTable(rows, k.table);
  }

  /** What the converter wrote can be queried: every row is filed under the block of its time. */
  lemma BulkRowsAreWellFiled(lib: Library, es: seq<Event>, rows: Rows)
    requires BulkFilled(lib, es, rows)
    ensures WellFiled(rows)
  {
    forall k | k in rows ensures k.block == Block(k.table, k.time) {
      BulkRowHasPacket(lib, es, rows, k);
    }
  }

  /** In any table, the row of key k is due exactly if a packet is filed there and its time is inside the interval. */
  lemma BulkQueryFindsExactlyFiled(lib: Library, es: seq<Event>, rows: Rows, t: Table, parts: seq<int>, start: int,
                                   stop: int, k: Key)
    requires BulkFilled(lib, es, rows)
    ensures Expected(rows, t, parts, start, stop, k)
            == if k.table == t && start < k.time < stop && (exists aisdata :: BulkFiled(lib, es, k, aisdata))
               then multiset(parts)[k.part] else 0
  {
    if k in rows {
      BulkRowHasPacket(lib, es, rows, k);
    } else if aisdata :| BulkFiled(lib, es, k, aisdata) {
      BulkFiledIsThere(lib, es, rows, k, aisdata);
    }
  }

  /** The row of a packet with a valid position is in the table of either cell size, with the packet's own text. */
  lemma BulkHasAreaRow(lib: Library, es: seq<Event>, rows: Rows, i: int, cell10: bool)
    requires BulkFilled(lib, es, rows) && Faithful(lib, Packets(es)) && Positioned(lib, es, i)
    ensures var row := AreaRow(lib, cell10, es[i].packet, PositionAt(es, i));
            row.key in rows && rows[row.key] == es[i].packet.raw
  {
    var p := es[i].packet;
    var row := AreaRow(lib, cell10, p, PositionAt(es, i));
    assert BulkRow(lib, row.key.table, p, TargetPosition(After(es[..i]), p)) == [row];
    assert BulkFiled(lib, es, row.key, row.aisdata);
    BulkFiledIsThere(lib, es, rows, row.key, row.aisdata);
    BulkRowHasPacket(lib, es, rows, row.key);
    var j :| 0 <= j < |es| && es[j].Received? && Insert(row.key, rows[row.key])
                 in BulkRow(lib, row.key.table, es[j].packet, TargetPosition(After(es[..j]), es[j].packet));
    assert es[i].packet in Packets(es) && es[j].packet in Packets(es) by { assert es[i] in es && es[j] in es; }
  }

  /** Event i is a packet with a time a cell table can hold and a valid position, its own or a tracked one. */
  ghost predicate Positioned(lib: Library, es: seq<Event>, i: int) {
    && 0 <= i < |es| && es[i].Received? && es[i].packet.time > 0 && Fits(PacketsAreaCell1, es[i].packet.time)
    && TargetPosition(After(es[..i]), es[i].packet).Some?
    && lib.isValid(TargetPosition(After(es[..i]), es[i].packet).value)
  }

  ghost function PositionAt(es: seq<Event>, i: int): Position
    requires 0 <= i < |es| && es[i].Received? && TargetPosition(After(es[..i]), es[i].packet).Some?
  {
    TargetPosition(After(es[..i]), es[i].packet).value
  }

  /** The grid's cells cover the position of the packet, and its time is inside the interval. */
  ghost predicate Asked(lib: Library, es: seq<Event>, i: int, q: Query)
    requires Positioned(lib, es, i) && q.selection.Area?
  {
    && lib.cell1(PositionAt(es, i)) in q.selection.cells1 && lib.cell10(PositionAt(es, i)) in q.selection.cells10
    && q.start < es[i].packet.time < q.stop
  }

  /** An area query returns the row of every packet in the area, or of every one with an MMSI above zero. */
  ghost predicate ReturnsArea(lib: Library, es: seq<Event>, q: Query, ks: seq<Key>, anyMmsi: bool)
    requires q.selection.Area?
  {
    forall i :: Positioned(lib, es, i) && Asked(lib, es, i, q) && (anyMmsi || Mmsi(es[i].packet) > 0) ==>
      AreaRow(lib, q.UsesCell10(), es[i].packet, PositionAt(es, i)).key in ks
  }

  /**
   * From the bulk converter, which fills both cell tables, to the reader: an area query returns exactly the rows filed
   * under its cells, among them that of every packet whose position lies in the area, whichever of the two tables the
   * size rule picks.
   */
  method AskBulkArea(lib: Library, ghost es: seq<Event>, rows: Rows, builder: AisStoreQueryBuilder)
    returns (ks: Option<seq<Key>>)
    requires BulkFilled(lib, es, rows) && Faithful(lib, Packets(es)) && builder.selection.Area?
    requires builder.batchLimit >= 1 && builder.Settings().Answerable()
    ensures ks.Some? && TimeSorted(ks.value) && ReturnsArea(lib, es, builder.Settings(), ks.value, true)
    ensures var q := builder.Settings();
            forall k :: multiset(ks.value)[k]
                        == if k.table == q.TableRead() && q.start < k.time < q.stop
                              && (exists aisdata :: BulkFiled(lib, es, k, aisdata))
                           then multiset(q.PartsRead())[k.part] else 0
  {
    BulkRowsAreWellFiled(lib, es, rows);
    ghost var q := builder.Settings();
    ks := Run(builder, rows);
    forall i | Positioned(lib, es, i) && Asked(lib, es, i, q)
      ensures AreaRow(lib, q.UsesCell10(), es[i].packet, PositionAt(es, i)).key in ks.value
    {
      BulkHasAreaRow(lib, es, rows, i, q.UsesCell10());
      var key := AreaRow(lib, q.UsesCell10(), es[i].packet, PositionAt(es, i)).key;
      assert multiset(ks.value)[key] == Expected(rows, q.TableRead(), q.PartsRead(), q.start, q.stop, key);
    }
    forall k
      ensures multiset(ks.value)[k]
              == if k.table == q.TableRead() && q.start < k.time < q.stop
                    && (exists aisdata :: BulkFiled(lib, es, k, aisdata))
                 then multiset(q.PartsRead())[k.part] else 0
    {
      BulkQueryFindsExactlyFiled(lib, es, rows, q.TableRead(), q.PartsRead(), q.start, q.stop, k);
    }
  }

  /**
   * The same from the online writer, for an MMSI above zero. If the query reads the 10-degree table and the writer does
   * not fill it, nothing is returned at all.
   */
  method AskOnlineArea(lib: Library, cell10Enabled: bool, ghost es: seq<Event>, rows: Rows,
                       builder: AisStoreQueryBuilder)
    returns (ks: Option<seq<Key>>)
    requires rows == Written(lib, cell10Enabled, es) && Faithful(lib, Packets(es)) && builder.selection.Area?
    requires builder.batchLimit >= 1 && builder.Settings().Answerable()
    ensures ks.Some? && TimeSorted(ks.value)
    ensures var q := builder.Settings();
            if q.UsesCell10() ==> cell10Enabled then ReturnsArea(lib, es, q, ks.value, false) else ks.value == []
    ensures var q := builder.Settings();
            forall k :: multiset(ks.value)[k]
                        == if k.table == q.TableRead() && q.start < k.time < q.stop
                              && OnlineFiled(lib, cell10Enabled, es, k)
                           then multiset(q.PartsRead())[k.part] else 0
    ensures !builder.cell10Enabled ==>
              forall k :: multiset(ks.value)[k]
                          == if k.table == PacketsAreaCell1 && OnlineFiled(lib, cell10Enabled, es, k)
                                && builder.startTimeInclusive < k.time < builder.stopTimeExclusive
                             then multiset(builder.selection.cells1)[k.part] else 0
  {
    WrittenRowsAreWellFiled(lib, cell10Enabled, es);
    ghost var q := builder.Settings();
    ks := Run(builder, rows);
    OnlineAreaAnswer(lib, cell10Enabled, es, q, ks.value);
    forall k
      ensures multiset(ks.value)[k]
              == if k.table == q.TableRead() && q.start < k.time < q.stop && OnlineFiled(lib, cell10Enabled, es, k)
                 then multiset(q.PartsRead())[k.part] else 0
    {
      OnlineQueryFindsExactlyFiled(lib, cell10Enabled, es, q.TableRead(), q.PartsRead(), q.start, q.stop, k);
    }
  }

  lemma NothingCounted(ks: seq<Key>)
    requires forall k :: multiset(ks)[k] == 0
    ensures ks == []
  {
    assert multiset(ks) == multiset{};
    assert |multiset(ks)| == |ks|;
  }

  /** What the answer to an area query on online rows holds, with and without the 10-degree table. */
  lemma OnlineAreaAnswer(lib: Library, cell10Enabled: bool, es: seq<Event>, q: Query, ks: seq<Key>)
    requires Faithful(lib, Packets(es)) && q.selection.Area? && q.batchLimit >= 1
    requires WellFiled(Written(lib, cell10Enabled, es)) && Answer(q, Written(lib, cell10Enabled, es), ks)
    ensures if q.UsesCell10() ==> cell10Enabled then ReturnsArea(lib, es, q, ks, false) else ks == []
  {
    var rows := Written(lib, cell10Enabled, es);
    if q.UsesCell10() && !cell10Enabled {
      forall k ensures multiset(ks)[k] == 0 {
        Cell10QueryNeedsCell10Rows(lib, es, q.PartsRead(), q.start, q.stop, k);
      }
      NothingCounted(ks);
    } else {
      forall i | Positioned(lib, es, i) && Asked(lib, es, i, q) && Mmsi(es[i].packet) > 0
        ensures AreaRow(lib, q.UsesCell10(), es[i].packet, PositionAt(es, i)).key in ks
      {
        assert es[i].packet in Packets(es) by { assert es[i] in es; }
        ShortBlocksOverflowFirst(es[i].packet.time);
        AreaQueryFindsPosition(lib, cell10Enabled, es, i, PositionAt(es, i), q.selection.cells1, q.selection.cells10,
                               q.UsesCell10(), q.start, q.stop);
        var key := AreaRow(lib, q.UsesCell10(), es[i].packet, PositionAt(es, i)).key;
        assert multiset(ks)[key] == Expected(rows, q.TableRead(), q.PartsRead(), q.start, q.stop, key);
      }
    }
  }
}
