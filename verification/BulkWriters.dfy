/** The SSTable writers of the importer, one per table, and the converter that runs them one after the other. */
module BulkWriters {
  import opened Wrappers
  import opened AisStoreSchema
  import opened AisPackets
  import opened Tables
  import opened PositionTracking
  import opened OnlineWriter

  /** The MMSI or cell a bulk writer files a packet under, None when it writes no row. */
  function BulkPart(lib: Library, table: Table, p: Packet, position: Option<Position>): Option<int> {
    var valid := position.Some? && lib.isValid(position.value);
    if p.time <= 0 then None
    else
      match table
      case PacketsTime => Some(0)
      case PacketsMmsi =>
        if p.message.Some? && p.message.value.userId >= 0 then Some(p.message.value.userId) else None
      case PacketsAreaCell1 => if valid then Some(lib.cell1(position.value)) else None
      case PacketsAreaCell10 => if valid then Some(lib.cell10(position.value)) else None
      case PacketsAreaUnknown =>
        if !valid && p.message.Some? && p.message.value.userId >= 0 then Some(p.message.value.userId) else None
  }

  function BulkRow(lib: Library, table: Table, p: Packet, position: Option<Position>): seq<Insert> {
    var part := BulkPart(lib, table, p, position);
    if part.Some? && Fits(table, p.time) then [Row(lib, table, part.value, p)] else []
  }

  /** The rows of one pass for one table. The writer keeps its own tracker, which sees the same run. */
  function Bulk(lib: Library, table: Table, es: seq<Event>): seq<Insert> {
    if es == [] then []
    else
      var front, e := es[..|es| - 1], es[|es| - 1];
      Bulk(lib, table, front)
      + if e.Received? then BulkRow(lib, table, e.packet, TargetPosition(After(front), e.packet)) else []
  }

  /** A table writer; its table stands for the subclass. */
  class SSTableWriter {
    const lib: Library
    const table: Table
    var tracker: Tracker
    var rows: seq<Insert>
    var numberOfPacketsProcessed: nat

    constructor (lib: Library, table: Table)
      ensures this.lib == lib && this.table == table
      ensures tracker == map[] && rows == [] && numberOfPacketsProcessed == 0
    {
      this.lib, this.table := lib, table;
      tracker, rows, numberOfPacketsProcessed := map[], [], 0;
    }

    method Expire(mmsis: set<int>)
      modifies this
      ensures tracker == Step(old(tracker), Expired(mmsis))
      ensures rows == old(rows) && numberOfPacketsProcessed == old(numberOfPacketsProcessed)
    {
      tracker := tracker - mmsis;
    }

    /** Only the three area writers track positions. */
    predicate TracksPositions() {
      table.PacketsAreaCell1? || table.PacketsAreaCell10? || table.PacketsAreaUnknown?
    }

    /** Answers false where the time block does not fit an int and the source throws. */
    method Accept(packet: Packet) returns (ok: bool)
      modifies this
      ensures tracker == if TracksPositions() then Observe(old(tracker), packet) else old(tracker)
      ensures numberOfPacketsProcessed == old(numberOfPacketsProcessed) + 1
      ensures rows == old(rows) + BulkRow(lib, table, packet, TargetPosition(old(tracker), packet))
      ensures !ok <==> BulkPart(lib, table, packet, TargetPosition(old(tracker), packet)).Some?
                       && !Fits(table, packet.time)
    {
      numberOfPacketsProcessed := numberOfPacketsProcessed + 1;
      var position := None;
      if TracksPositions() {
        position := GetTargetPosition(packet);
      }
      var valid := position.Some? && lib.isValid(position.value);
      ok := true;
      match table
      case PacketsTime => ok := WritePacket(packet, 0);
      case PacketsMmsi => ok := WriteByMmsi(packet);
      case PacketsAreaCell1 => if valid { ok := WritePacket(packet, lib.cell1(position.value)); }
      case PacketsAreaCell10 => if valid { ok := WritePacket(packet, lib.cell10(position.value)); }
      case PacketsAreaUnknown => if !valid { ok := WriteByMmsi(packet); }
    }

    method WriteByMmsi(packet: Packet) returns (ok: bool)
      modifies this`rows
      ensures ok <==> packet.time <= 0 || packet.message.None? || packet.message.value.userId < 0
                      || Fits(table, packet.time)
      ensures rows == old(rows)
                      + if packet.time > 0 && packet.message.Some? && packet.message.value.userId >= 0 && ok
                        then [Row(lib, table, packet.message.value.userId, packet)] else []
    {
      ok := true;
      if packet.message.Some? {
        var mmsi := packet.message.value.userId;
        if mmsi >= 0 {
          ok := WritePacket(packet, mmsi);
        }
      }
    }

    method WritePacket(packet: Packet, part: int) returns (ok: bool)
      modifies this`rows
      ensures ok <==> packet.time <= 0 || Fits(table, packet.time)
      ensures rows == old(rows) + if packet.time > 0 && ok then [Row(lib, table, part, packet)] else []
    {
      ok := true;
      if packet.time > 0 {
        var block := TimeBlock(table, packet.time);
        ok := block.Some?;
        if ok {
          rows := rows + [Insert(Key(table, part, block.value, packet.time, lib.digest(packet.raw)), packet.raw)];
        }
      }
    }

    method GetTargetPosition(packet: Packet) returns (p: Option<Position>)
      modifies this`tracker
      ensures p == TargetPosition(old(tracker), packet)
      ensures tracker == Observe(old(tracker), packet)
    {
      p := None;
      if packet.message.Some? {
        p := packet.message.value.position;
        var mmsi := packet.message.value.userId;
        if p.None? {
          if mmsi in tracker {
            p := Some(tracker[mmsi].position);
          }
        } else {
          var b := PositionTime(p.value, packet.time);
          tracker := tracker[mmsi := if mmsi in tracker then Better(tracker[mmsi], b) else b];
        }
      }
    }
  }

  /** One full pass over the packets for one writer. The reader goes on after a packet whose handling throws. */
  method StreamAllAisPacketsTo(writer: SSTableWriter, es: seq<Event>)
    requires writer.tracker == map[] && writer.rows == []
    modifies writer
    ensures writer.rows == Bulk(writer.lib, writer.table, es)
  {
    var i := 0;
    while i < |es|
      invariant 0 <= i <= |es|
      invariant writer.rows == Bulk(writer.lib, writer.table, es[..i])
      invariant writer.TracksPositions() ==> writer.tracker == After(es[..i])
    {
      assert es[..i + 1][..i] == es[..i];
      match es[i] {
        case Received(p) => var ok := writer.Accept(p);
        case Expired(mmsis) => writer.Expire(mmsis);
      }
      i := i + 1;
    }
    assert es[..i] == es;
  }

  /** The writers of the converter, in its order. */
  const TABLES := [PacketsTime, PacketsMmsi, PacketsAreaCell1, PacketsAreaCell10, PacketsAreaUnknown]

  lemma EveryTableHasWriter(t: Table)
    ensures t in TABLES
  {
    var i := match t case PacketsTime => 0 case PacketsMmsi => 1 case PacketsAreaCell1 => 2
      case PacketsAreaCell10 => 3 case PacketsAreaUnknown => 4;
    assert TABLES[i] == t;
  }

  /** What is in the tables once the first n writers are done. */
  ghost predicate Converted(lib: Library, es: seq<Event>, rows: Rows, n: nat)
    requires n <= |TABLES|
  {
    forall t: Table :: OfTable(rows, t) == if t in TABLES[..n] then Apply(map[], Bulk(lib, t, es)) else map[]
  }

  lemma OneMoreTable(lib: Library, es: seq<Event>, rows: Rows, n: nat)
    requires n < |TABLES| && Converted(lib, es, rows, n)
    ensures Converted(lib, es, Apply(rows, Bulk(lib, TABLES[n], es)), n + 1)
  {
    var u := TABLES[n];
    assert TABLES[..n + 1] == TABLES[..n] + [u] && u !in TABLES[..n];
    forall t: Table
      ensures OfTable(Apply(rows, Bulk(lib, u, es)), t)
              == if t == u then Apply(map[], Bulk(lib, u, es)) else OfTable(rows, t)
    {
      ApplyOfTable(rows, Bulk(lib, u, es), t);
      BulkStaysInTable(lib, u, es, t);
      assert t == u ==> OfTable(rows, t) == map[];
    }
  }

  /** Every table holds exactly the rows of its own pass. */
  ghost predicate BulkFilled(lib: Library, es: seq<Event>, rows: Rows) {
    forall t: Table :: OfTable(rows, t) == Apply(map[], Bulk(lib, t, es))
  }

  method Convert(lib: Library, es: seq<Event>) returns (rows: Rows)
    ensures BulkFilled(lib, es, rows)
  {
    rows := map[];
    var n := 0;
    while n < |TABLES|
      invariant 0 <= n <= |TABLES|
      invariant Converted(lib, es, rows, n)
    {
      var writer := new SSTableWriter(lib, TABLES[n]);
      StreamAllAisPacketsTo(writer, es);
      ghost var before := rows;
      rows := Apply(rows, writer.rows);
      OneMoreTable(lib, es, before, n);
      n := n + 1;
    }
    forall t: Table ensures OfTable(rows, t) == Apply(map[], Bulk(lib, t, es)) {
      EveryTableHasWriter(t);
      assert TABLES[..n] == TABLES;
    }
  }

  lemma {:induction false} BulkStaysInTable(lib: Library, table: Table, es: seq<Event>, t: Table)
    ensures InsertsOf(Bulk(lib, table, es), t) == if t == table then Bulk(lib, table, es) else []
  {
    if es != [] {
      var front, e := es[..|es| - 1], es[|es| - 1];
      BulkStaysInTable(lib, table, front, t);
      var row := if e.Received? then BulkRow(lib, table, e.packet, TargetPosition(After(front), e.packet)) else [];
      InsertsOfAppend(Bulk(lib, table, front), row, t);
      if row != [] {
        assert row[..|row| - 1] == [];
      }
    }
  }
}
