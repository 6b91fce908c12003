/** Under which keys packets are filed, table by table, spelled out from the packet itself. */
module FiledRows {
  import opened Wrappers
  import opened AisStoreSchema
  import opened AisPackets
  import opened Tables
  import opened PositionTracking
  import opened OnlineWriter
  import opened BulkWriters
  import opened Replay

  /** The time fits a ten-minute block, and a thirty-day block. */
  ghost predicate FitsTenMinutes(t: int) {
    -2147483649 * 600000 + 1000 <= t < 2147483648 * 600000
  }

  ghost predicate FitsThirtyDays(t: int) {
    -2147483649 * 2592000000 + 1000 <= t < 2147483648 * 2592000000
  }

  /** The packet is handled without an exception: the blocks of the rows it is due fit an int. */
  ghost predicate Handled(p: Packet) {
    && (p.time > 0 ==> FitsTenMinutes(p.time))
    && (p.message.Some? && p.message.value.userId > 0 ==> FitsThirtyDays(p.time))
  }

  lemma HandledExactly(p: Packet)
    ensures Throws(p) <==> !Handled(p)
  {
    TenMinuteRange(PacketsTime, p.time);
    ThirtyDayRange(PacketsMmsi, p.time);
  }

  // ---------- the online writer ----------

  /** A row of a table is among the statements of a packet exactly if it is the one the table's guard asks for. */
  lemma StatementOfTable(lib: Library, cell10Enabled: bool, p: Packet, position: Option<Position>, ins: Insert)
    ensures ins in Statements(lib, cell10Enabled, p, position)
            <==> Handled(p) && OnlineRow(lib, cell10Enabled, ins.key.table, p, position) == [ins]
  {
    HandledExactly(p);
    var t := ins.key.table;
    if Handled(p) && ins in OnlineRow(lib, cell10Enabled, t, p, position) {
      assert ins in Statements(lib, cell10Enabled, p, position);
    }
  }

  /** packets_time: every packet of a positive time. */
  lemma OnlineByTime(lib: Library, cell10Enabled: bool, p: Packet, position: Option<Position>, ins: Insert)
    requires ins.key.table == PacketsTime
    ensures ins in Statements(lib, cell10Enabled, p, position)
            <==> && Handled(p) && p.time > 0
                 && ins == Insert(Key(PacketsTime, 0, Block(PacketsTime, p.time), p.time, lib.digest(p.raw)), p.raw)
  {
    StatementOfTable(lib, cell10Enabled, p, position, ins);
  }

  /** packets_mmsi: every packet of a user id above zero, under that user id. */
  lemma OnlineByMmsi(lib: Library, cell10Enabled: bool, p: Packet, position: Option<Position>, ins: Insert)
    requires ins.key.table == PacketsMmsi
    ensures ins in Statements(lib, cell10Enabled, p, position)
            <==> && Handled(p) && p.message.Some? && p.message.value.userId > 0
                 && ins == Insert(Key(PacketsMmsi, p.message.value.userId, Block(PacketsMmsi, p.time), p.time,
                                      lib.digest(p.raw)), p.raw)
  {
    StatementOfTable(lib, cell10Enabled, p, position, ins);
  }

  /** packets_area_unknown: a packet of a positive time and user id without a position, its own or a tracked one. */
  lemma OnlineByUnknown(lib: Library, cell10Enabled: bool, tracker: Tracker, p: Packet, ins: Insert)
    requires ins.key.table == PacketsAreaUnknown
    ensures ins in Statements(lib, cell10Enabled, p, TargetPosition(tracker, p))
            <==> && Handled(p) && p.time > 0 && p.message.Some? && p.message.value.userId > 0
                 && p.message.value.position.None? && p.message.value.userId !in tracker
                 && ins == Insert(Key(PacketsAreaUnknown, p.message.value.userId, Block(PacketsAreaUnknown, p.time),
                                      p.time, lib.digest(p.raw)), p.raw)
  {
    StatementOfTable(lib, cell10Enabled, p, TargetPosition(tracker, p), ins);
  }

  /** The position is the packet's own, or, if it has none, the one tracked for its user id. */
  ghost predicate Located(tracker: Tracker, p: Packet, position: Position) {
    && p.message.Some?
    && (p.message.value.position == Some(position)
        || (p.message.value.position.None? && p.message.value.userId in tracker
            && tracker[p.message.value.userId].position == position))
  }

  /** The cell tables: a packet of a positive time and user id with a position, under the cell of that position. */
  lemma OnlineByCell(lib: Library, cell10Enabled: bool, tracker: Tracker, p: Packet, ins: Insert)
    ensures ins.key.table == PacketsAreaCell1 ==>
              (ins in Statements(lib, cell10Enabled, p, TargetPosition(tracker, p))
               <==> exists position :: && Handled(p) && p.time > 0 && p.message.Some? && p.message.value.userId > 0
                                       && Located(tracker, p, position)
                                       && ins == Insert(Key(PacketsAreaCell1, lib.cell1(position),
                                                            Block(PacketsAreaCell1, p.time), p.time,
                                                            lib.digest(p.raw)), p.raw))
    ensures ins.key.table == PacketsAreaCell10 ==>
              (ins in Statements(lib, cell10Enabled, p, TargetPosition(tracker, p))
               <==> exists position :: && Handled(p) && p.time > 0 && p.message.Some? && p.message.value.userId > 0
                                       && cell10Enabled && Located(tracker, p, position)
                                       && ins == Insert(Key(PacketsAreaCell10, lib.cell10(position),
                                                            Block(PacketsAreaCell10, p.time), p.time,
                                                            lib.digest(p.raw)), p.raw))
  {
    var target := TargetPosition(tracker, p);
    StatementOfTable(lib, cell10Enabled, p, target, ins);
    assert forall position :: Located(tracker, p, position) <==> target == Some(position);
    if target.Some? {
      assert Located(tracker, p, target.value);
    }
  }

  // ---------- the bulk writers ----------

  lemma BulkByTime(lib: Library, p: Packet, position: Option<Position>, ins: Insert)
    ensures ins in BulkRow(lib, PacketsTime, p, position)
            <==> && p.time > 0 && FitsTenMinutes(p.time)
                 && ins == Insert(Key(PacketsTime, 0, Block(PacketsTime, p.time), p.time, lib.digest(p.raw)), p.raw)
  {
    TenMinuteRange(PacketsTime, p.time);
  }

  /** Unlike online, also a user id of zero, and no time at or before the epoch. */
  lemma BulkByMmsi(lib: Library, p: Packet, position: Option<Position>, ins: Insert)
    ensures ins in BulkRow(lib, PacketsMmsi, p, position)
            <==> && p.time > 0 && FitsThirtyDays(p.time) && p.message.Some? && p.message.value.userId >= 0
                 && ins == Insert(Key(PacketsMmsi, p.message.value.userId, Block(PacketsMmsi, p.time), p.time,
                                      lib.digest(p.raw)), p.raw)
  {
    ThirtyDayRange(PacketsMmsi, p.time);
  }

  lemma BulkByUnknown(lib: Library, tracker: Tracker, p: Packet, ins: Insert)
    ensures ins in BulkRow(lib, PacketsAreaUnknown, p, TargetPosition(tracker, p))
            <==> && p.time > 0 && FitsThirtyDays(p.time) && p.message.Some? && p.message.value.userId >= 0
                 && !(exists position :: Located(tracker, p, position) && lib.isValid(position))
                 && ins == Insert(Key(PacketsAreaUnknown, p.message.value.userId, Block(PacketsAreaUnknown, p.time),
                                      p.time, lib.digest(p.raw)), p.raw)
  {
    var target := TargetPosition(tracker, p);
    ThirtyDayRange(PacketsAreaUnknown, p.time);
    assert forall position :: Located(tracker, p, position) <==> target == Some(position);
    if target.Some? {
      assert Located(tracker, p, target.value);
    }
  }

  lemma BulkByCell(lib: Library, tracker: Tracker, p: Packet, ins: Insert)
    ensures ins in BulkRow(lib, PacketsAreaCell1, p, TargetPosition(tracker, p))
            <==> exists position :: && p.time > 0 && FitsTenMinutes(p.time)
                                    && Located(tracker, p, position) && lib.isValid(position)
                                    && ins == Insert(Key(PacketsAreaCell1, lib.cell1(position),
                                                         Block(PacketsAreaCell1, p.time), p.time,
                                                         lib.digest(p.raw)), p.raw)
    ensures ins in BulkRow(lib, PacketsAreaCell10, p, TargetPosition(tracker, p))
            <==> exists position :: && p.time > 0 && FitsTenMinutes(p.time)
                                    && Located(tracker, p, position) && lib.isValid(position)
                                    && ins == Insert(Key(PacketsAreaCell10, lib.cell10(position),
                                                         Block(PacketsAreaCell10, p.time), p.time,
                                                         lib.digest(p.raw)), p.raw)
  {
    var target := TargetPosition(tracker, p);
    TenMinuteRange(PacketsAreaCell1, p.time);
    TenMinuteRange(PacketsAreaCell10, p.time);
    assert forall position :: Located(tracker, p, position) <==> target == Some(position);
    if target.Some? {
      assert Located(tracker, p, target.value);
    }
  }

  // ---------- what a packet leaves whatever was tracked ----------

  /** The row of a packet in packets_time. */
  ghost predicate IsTimeRow(lib: Library, p: Packet, k: Key) {
    && Handled(p) && p.time > 0
    && k == Key(PacketsTime, 0, Block(PacketsTime, p.time), p.time, lib.digest(p.raw))
  }

  /** The row of a packet in packets_mmsi: under its own user id. */
  ghost predicate IsMmsiRow(lib: Library, p: Packet, k: Key) {
    && Handled(p) && p.message.Some? && p.message.value.userId > 0
    && k == Key(PacketsMmsi, p.message.value.userId, Block(PacketsMmsi, p.time), p.time, lib.digest(p.raw))
  }

  /** The row of a packet with a position in packets_area_cell1. */
  ghost predicate IsCellRow(lib: Library, p: Packet, position: Position, k: Key) {
    && Handled(p) && p.time > 0 && p.message.Some? && p.message.value.userId > 0
    && k == Key(PacketsAreaCell1, lib.cell1(position), Block(PacketsAreaCell1, p.time), p.time, lib.digest(p.raw))
  }

  /** The rows a packet leaves in packets_time and packets_mmsi, and under the cell of its own position. */
  lemma LeavesExactly(lib: Library, p: Packet, k: Key)
    ensures k.table == PacketsTime ==> (Leaves(lib, p, k) <==> IsTimeRow(lib, p, k))
    ensures k.table == PacketsMmsi ==> (Leaves(lib, p, k) <==> IsMmsiRow(lib, p, k))
    ensures k.table == PacketsAreaCell1 ==>
              (Leaves(lib, p, k) <==> HasPosition(p) && IsCellRow(lib, p, p.message.value.position.value, k))
  {
    HandledExactly(p);
  }
}
