/** From the handled packets to the rows a query returns, spelled out from the packets and the builder's settings. */
module ReadBack {
  import opened Wrappers
  import opened AisStoreSchema
  import opened AisPackets
  import opened Tables
  import opened PositionTracking
  import opened Agreement
  import opened Replay
  import opened Merging
  import opened AisStoreQueryBuilder
  import opened WriteThenQuery
  import opened FiledRows

  /** A row of packets_time or packets_mmsi is there exactly if a handled packet leaves it. */
  lemma PlainRowHasPacket(lib: Library, cell10Enabled: bool, es: seq<Event>, k: Key)
    requires IsPlain(k.table)
    ensures k in Written(lib, cell10Enabled, es) <==> exists p :: p in Packets(es) && Leaves(lib, p, k)
  {
    OnlineHolds(lib, cell10Enabled, es);
  }

  /** A query by time: the rows of the handled packets of a positive time inside the interval, and no others. */
  method AskTime(lib: Library, cell10Enabled: bool, ghost es: seq<Event>, rows: Rows, builder: AisStoreQueryBuilder)
    returns (ks: Option<seq<Key>>)
    requires rows == Written(lib, cell10Enabled, es) && builder.selection.ByTime?
    requires builder.batchLimit >= 1 && builder.Settings().Answerable()
    ensures ks.Some? && TimeSorted(ks.value)
    ensures forall k :: multiset(ks.value)[k] <= 1
    ensures forall k :: k in ks.value <==> builder.startTimeInclusive < k.time < builder.stopTimeExclusive
                                           && exists p :: p in Packets(es) && IsTimeRow(lib, p, k)
  {
    WrittenRowsAreWellFiled(lib, cell10Enabled, es);
    ks := Run(builder, rows);
    forall k
      ensures multiset(ks.value)[k] <= 1
      ensures k in ks.value <==> builder.startTimeInclusive < k.time < builder.stopTimeExclusive
                                 && exists p :: p in Packets(es) && IsTimeRow(lib, p, k)
    {
      TimeKeys(lib, cell10Enabled, es, k);
      assert k in ks.value <==> multiset(ks.value)[k] > 0;
    }
  }

  lemma TimeKeys(lib: Library, cell10Enabled: bool, es: seq<Event>, k: Key)
    ensures k in Written(lib, cell10Enabled, es) && k.table == PacketsTime
            <==> exists p :: p in Packets(es) && IsTimeRow(lib, p, k)
    ensures k in Written(lib, cell10Enabled, es) && k.table == PacketsTime ==> k.part == 0
  {
    if k.table == PacketsTime {
      PlainRowHasPacket(lib, cell10Enabled, es, k);
      forall p ensures Leaves(lib, p, k) <==> IsTimeRow(lib, p, k) {
        LeavesExactly(lib, p, k);
      }
    }
  }

  /** A query by MMSI: each handled packet of a ship asked for, under its user id, and no row of another ship. */
  method AskMmsi(lib: Library, cell10Enabled: bool, ghost es: seq<Event>, rows: Rows, builder: AisStoreQueryBuilder)
    returns (ks: Option<seq<Key>>)
    requires rows == Written(lib, cell10Enabled, es) && builder.selection.ByMmsi?
    requires builder.batchLimit >= 1 && builder.Settings().Answerable()
    ensures ks.Some? && TimeSorted(ks.value)
    ensures forall p, k :: p in Packets(es) && IsMmsiRow(lib, p, k) ==>
              multiset(ks.value)[k] == if builder.startTimeInclusive < p.time < builder.stopTimeExclusive
                                       then multiset(builder.selection.mmsi)[p.message.value.userId] else 0
    ensures forall k :: k in ks.value ==>
              && k.part in builder.selection.mmsi && builder.startTimeInclusive < k.time < builder.stopTimeExclusive
              && exists p :: p in Packets(es) && IsMmsiRow(lib, p, k)
  {
    WrittenRowsAreWellFiled(lib, cell10Enabled, es);
    ks := Run(builder, rows);
    forall p, k | p in Packets(es) && IsMmsiRow(lib, p, k)
      ensures multiset(ks.value)[k] == if builder.startTimeInclusive < p.time < builder.stopTimeExclusive
                                       then multiset(builder.selection.mmsi)[p.message.value.userId] else 0
    {
      MmsiKeys(lib, cell10Enabled, es, k);
    }
    forall k | k in ks.value
      ensures k.part in builder.selection.mmsi && builder.startTimeInclusive < k.time < builder.stopTimeExclusive
      ensures exists p :: p in Packets(es) && IsMmsiRow(lib, p, k)
    {
      MmsiKeys(lib, cell10Enabled, es, k);
      assert multiset(ks.value)[k] > 0;
    }
  }

  lemma MmsiKeys(lib: Library, cell10Enabled: bool, es: seq<Event>, k: Key)
    ensures k in Written(lib, cell10Enabled, es) && k.table == PacketsMmsi
            <==> exists p :: p in Packets(es) && IsMmsiRow(lib, p, k)
  {
    if k.table == PacketsMmsi {
      PlainRowHasPacket(lib, cell10Enabled, es, k);
      forall p ensures Leaves(lib, p, k) <==> IsMmsiRow(lib, p, k) {
        LeavesExactly(lib, p, k);
      }
    }
  }

  /** Event i is a packet whose own or tracked position files it under the key. */
  ghost predicate LocatedAt(lib: Library, es: seq<Event>, i: int, position: Position, k: Key) {
    && 0 <= i < |es| && es[i].Received?
    && Located(After(es[..i]), es[i].packet, position) && IsCellRow(lib, es[i].packet, position, k)
  }

  lemma CellKeys(lib: Library, cell10Enabled: bool, es: seq<Event>, k: Key)
    requires k.table == PacketsAreaCell1
    ensures OnlineFiled(lib, cell10Enabled, es, k) <==> exists i, position :: LocatedAt(lib, es, i, position, k)
  {
    if i, aisdata :| IssuedAt(lib, cell10Enabled, es, i, Insert(k, aisdata)) {
      OnlineByCell(lib, cell10Enabled, After(es[..i]), es[i].packet, Insert(k, aisdata));
      var position :| Located(After(es[..i]), es[i].packet, position) && k.part == lib.cell1(position);
      assert LocatedAt(lib, es, i, position, k);
    }
    if i, position :| LocatedAt(lib, es, i, position, k) {
      OnlineByCell(lib, cell10Enabled, After(es[..i]), es[i].packet, Insert(k, es[i].packet.raw));
      assert IssuedAt(lib, cell10Enabled, es, i, Insert(k, es[i].packet.raw));
    }
  }

  /**
   * A query for an area as the repository is set up, with the 10-degree table switched off: the rows of the packets
   * located in the 1-degree cells of the area, at a time inside the interval, and no others.
   */
  method AskCells(lib: Library, ghost es: seq<Event>, rows: Rows, builder: AisStoreQueryBuilder)
    returns (ks: Option<seq<Key>>)
    requires rows == Written(lib, false, es) && Faithful(lib, Packets(es))
    requires builder.selection.Area? && !builder.cell10Enabled
    requires builder.batchLimit >= 1 && builder.Settings().Answerable()
    ensures ks.Some? && TimeSorted(ks.value)
    ensures forall k :: k in ks.value <==>
              && builder.startTimeInclusive < k.time < builder.stopTimeExclusive && k.part in builder.selection.cells1
              && exists i, position :: LocatedAt(lib, es, i, position, k)
  {
    ks := AskOnlineArea(lib, false, es, rows, builder);
    forall k
      ensures k in ks.value <==>
                && builder.startTimeInclusive < k.time < builder.stopTimeExclusive
                && k.part in builder.selection.cells1 && exists i, position :: LocatedAt(lib, es, i, position, k)
    {
      assert k in ks.value <==> multiset(ks.value)[k] > 0;
      if k.table == PacketsAreaCell1 {
        CellKeys(lib, false, es, k);
      }
    }
  }
}
