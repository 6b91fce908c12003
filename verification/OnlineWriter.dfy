/** DefaultAisStoreWriter: one pass over the packets fills every table. */
module OnlineWriter {
  import opened Wrappers
  import opened AisStoreSchema
  import opened AisPackets
  import opened Tables
  import opened PositionTracking

  /** The row of a packet in a table, under the given MMSI or cell. */
  function Row(lib: Library, table: Table, part: int, p: Packet): Insert {
    Insert(Key(table, part, Block(table, p.time), p.time, lib.digest(p.raw)), p.raw)
  }

  /** The message is dropped with an exception: a time block it needs does not fit an int. */
  predicate Throws(p: Packet) {
    || (p.time > 0 && !Fits(PacketsTime, p.time))
    || (Mmsi(p) > 0 && !Fits(PacketsMmsi, p.time))
  }

  /** The MMSI or cell the online writer files a packet under in a table, None when it writes no row there. */
  function OnlinePart(lib: Library, cell10Enabled: bool, t: Table, p: Packet, position: Option<Position>): Option<int> {
    var eligible := p.time > 0 && Mmsi(p) > 0;
    match t
    case PacketsTime => if p.time > 0 then Some(0) else None
    case PacketsMmsi => if Mmsi(p) > 0 then Some(Mmsi(p)) else None
    case PacketsAreaUnknown => if eligible && position.None? then Some(Mmsi(p)) else None
    case PacketsAreaCell1 => if eligible && position.Some? then Some(lib.cell1(position.value)) else None
    case PacketsAreaCell10 =>
      if eligible && position.Some? && cell10Enabled then Some(lib.cell10(position.value)) else None
  }

  function OnlineRow(lib: Library, cell10Enabled: bool, t: Table, p: Packet, position: Option<Position>): seq<Insert> {
    var part := OnlinePart(lib, cell10Enabled, t, p, position);
    if part.Some? then [Row(lib, t, part.value, p)] else []
  }

  /** The statements of one packet, given the position it is stored under: at most one row in each table. */
  function Statements(lib: Library, cell10Enabled: bool, p: Packet, position: Option<Position>): seq<Insert> {
    if Throws(p) then []
    else
      OnlineRow(lib, cell10Enabled, PacketsTime, p, position)
      + OnlineRow(lib, cell10Enabled, PacketsMmsi, p, position)
      + OnlineRow(lib, cell10Enabled, PacketsAreaUnknown, p, position)
      + OnlineRow(lib, cell10Enabled, PacketsAreaCell1, p, position)
      + OnlineRow(lib, cell10Enabled, PacketsAreaCell10, p, position)
  }

  /** The statements of a whole run. */
  function Online(lib: Library, cell10Enabled: bool, es: seq<Event>): seq<Insert> {
    if es == [] then []
    else
      var front, e := es[..|es| - 1], es[|es| - 1];
      Online(lib, cell10Enabled, front)
      + if e.Received? then Statements(lib, cell10Enabled, e.packet, TargetPosition(After(front), e.packet)) else []
  }

  /** The list of statements that a batch is built from. */
  class Batch {
    var statements: seq<Insert>

    constructor ()
      ensures statements == []
    {
      statements := [];
    }
  }

  class DefaultAisStoreWriter {
    const lib: Library
    const cell10Enabled: bool
    var tracker: Tracker

    constructor (lib: Library, cell10Enabled: bool)
      ensures this.lib == lib && this.cell10Enabled == cell10Enabled && tracker == map[]
    {
      this.lib := lib;
      this.cell10Enabled := cell10Enabled;
      tracker := map[];
    }

    /** Time passes and the cache drops entries. */
    method Expire(mmsis: set<int>)
      modifies this
      ensures tracker == Step(old(tracker), Expired(mmsis))
    {
      tracker := tracker - mmsis;
    }

    /** Answers false where the source throws: the batch then holds nothing of the packet; the tracker has seen it. */
    method HandleMessage(batch: Batch, packet: Packet) returns (ok: bool)
      modifies this, batch
      ensures ok <==> !Throws(packet)
      ensures batch.statements == old(batch.statements)
                                  + Statements(lib, cell10Enabled, packet, TargetPosition(old(tracker), packet))
      ensures tracker == Observe(old(tracker), packet)
    {
      var millisSinceEpoch := packet.time;
      var mmsi := if packet.message.None? then -1 else packet.message.value.userId;
      var position := GetPosition(packet);
      ok := true;
      if millisSinceEpoch > 0 {
        ok := Store(batch, PacketsTime, 0, packet);
        if !ok { return; }
        ShortBlocksOverflowFirst(packet.time);
      }
      if mmsi > 0 {
        ok := Store(batch, PacketsMmsi, mmsi, packet);
        if !ok { return; }
      }
      if millisSinceEpoch > 0 && mmsi > 0 {
        StoreByArea(batch, mmsi, position, packet);
      }
    }

    /** Adds one row; answers false, adding nothing, where the time block does not fit an int. */
    method Store(batch: Batch, table: Table, part: int, packet: Packet) returns (ok: bool)
      modifies batch
      ensures ok <==> Fits(table, packet.time)
      ensures batch.statements == old(batch.statements) + if ok then [Row(lib, table, part, packet)] else []
    {
      var block := TimeBlock(table, packet.time);
      ok := block.Some?;
      if ok {
        batch.statements :=
          batch.statements + [Insert(Key(table, part, block.value, packet.time, lib.digest(packet.raw)), packet.raw)];
      }
    }

    method StoreByArea(batch: Batch, mmsi: int, position: Option<Position>, packet: Packet)
      requires packet.time > 0 && mmsi == Mmsi(packet) > 0 && !Throws(packet)
      modifies batch
      ensures batch.statements == old(batch.statements)
                                  + OnlineRow(lib, cell10Enabled, PacketsAreaUnknown, packet, position)
                                  + OnlineRow(lib, cell10Enabled, PacketsAreaCell1, packet, position)
                                  + OnlineRow(lib, cell10Enabled, PacketsAreaCell10, packet, position)
    {
      var ok;
      if position.None? {
        ok := Store(batch, PacketsAreaUnknown, mmsi, packet);
      } else {
        ok := Store(batch, PacketsAreaCell1, lib.cell1(position.value), packet);
        if cell10Enabled {
          ok := Store(batch, PacketsAreaCell10, lib.cell10(position.value), packet);
        }
      }
    }

    method GetPosition(packet: Packet) returns (p: Option<Position>)
      modifies this
      ensures p == TargetPosition(old(tracker), packet)
      ensures tracker == Observe(old(tracker), packet)
    {
      p := None;
      if packet.message.Some? {
        var mmsi, timestamp := packet.message.value.userId, packet.time;
        p := packet.message.value.position;
        if p.None? {
          if mmsi in tracker {
            p := Some(tracker[mmsi].position);
          }
        } else {
          var b := PositionTime(p.value, timestamp);
          if mmsi in tracker && tracker[mmsi].time > b.time {
            // The tracked position is newer: it stays.
          } else {
            tracker := tracker[mmsi := b];
          }
        }
      }
    }
  }

  /** The thirty-day block fits whenever the ten-minute block does: a packet throws before its first row or never. */
  lemma ShortBlocksOverflowFirst(t: int)
    requires Fits(PacketsTime, t)
    ensures Fits(PacketsMmsi, t)
  {
    TenMinuteRange(PacketsTime, t);
    ThirtyDayRange(PacketsMmsi, t);
  }
}
