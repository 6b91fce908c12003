/** The five passes of the bulk converter against the single pass of the online writer. */
module Agreement {
  import opened Wrappers
  import opened AisStoreSchema
  import opened AisPackets
  import opened Tables
  import opened PositionTracking
  import opened OnlineWriter
  import opened BulkWriters

  /** The tables both writers fill: packets_area_cell10 is among them only when the online writer is told to fill it. */
  ghost predicate Shared(cell10Enabled: bool, t: Table) {
    t.PacketsAreaCell10? ==> cell10Enabled
  }

  /** The guards of both writers take the packet the same way. */
  predicate Agrees(p: Packet, position: Option<Position>) {
    if p.message.None? then true
    else if p.time <= 0 then Mmsi(p) <= 0 || !Fits(PacketsMmsi, p.time)
    else if Mmsi(p) > 0 then Fits(PacketsTime, p.time) || !Fits(PacketsMmsi, p.time)
    else if Mmsi(p) == 0 then !Fits(PacketsMmsi, p.time)
    else position.None? || !Fits(PacketsTime, p.time)
  }

  ghost predicate AgreesAt(es: seq<Event>, i: int)
    requires 0 <= i < |es|
  {
    es[i].Received? ==> Agrees(es[i].packet, TargetPosition(After(es[..i]), es[i].packet))
  }

  ghost function Packets(es: seq<Event>): set<Packet> {
    set e | e in es && e.Received? :: e.packet
  }

  ghost predicate ReportsValidPositions(lib: Library, es: seq<Event>) {
    forall p :: p in Packets(es) ==> ReportsValidPosition(lib, p)
  }

  ghost predicate SameRows(lib: Library, cell10Enabled: bool, es: seq<Event>) {
    forall t: Table :: Shared(cell10Enabled, t) ==>
      OfTable(Apply(map[], Online(lib, cell10Enabled, es)), t) == Apply(map[], Bulk(lib, t, es))
  }

  lemma {:induction false} TrackedPositionsAreValid(lib: Library, es: seq<Event>, mmsi: int)
    requires ReportsValidPositions(lib, es)
    ensures mmsi in After(es) ==> lib.isValid(After(es)[mmsi].position)
  {
    if es != [] {
      var m := |es| - 1;
      assert Packets(es[..m]) <= Packets(es);
      TrackedPositionsAreValid(lib, es[..m], mmsi);
      if es[m].Received? {
        assert es[m].packet in Packets(es);
      }
    }
  }

  /** A list of at most one insert, which goes to the given table. */
  ghost predicate OnlyFor(inserts: seq<Insert>, t: Table) {
    |inserts| <= 1 && (inserts != [] ==> inserts[0].key.table == t)
  }

  lemma InsertOfTable(inserts: seq<Insert>, u: Table, t: Table)
    requires OnlyFor(inserts, u)
    ensures InsertsOf(inserts, t) == if t == u then inserts else []
  {
    if inserts != [] {
      assert inserts[..0] == [];
    }
  }

  lemma InsertsOfFive(a: seq<Insert>, b: seq<Insert>, c: seq<Insert>, d: seq<Insert>, e: seq<Insert>, t: Table)
    ensures InsertsOf(a + b + c + d + e, t)
            == InsertsOf(a, t) + InsertsOf(b, t) + InsertsOf(c, t) + InsertsOf(d, t) + InsertsOf(e, t)
  {
    InsertsOfAppend(a + b + c + d, e, t);
    InsertsOfAppend(a + b + c, d, t);
    InsertsOfAppend(a + b, c, t);
    InsertsOfAppend(a, b, t);
  }

  /** The one of five lists that belongs to a table. */
  ghost function PartOf(a: seq<Insert>, b: seq<Insert>, c: seq<Insert>, d: seq<Insert>, e: seq<Insert>, t: Table)
    : seq<Insert>
  {
    match t
    case PacketsTime => a
    case PacketsMmsi => b
    case PacketsAreaUnknown => c
    case PacketsAreaCell1 => d
    case PacketsAreaCell10 => e
  }

  lemma OnlyOneStays(a: seq<Insert>, b: seq<Insert>, c: seq<Insert>, d: seq<Insert>, e: seq<Insert>, t: Table,
                     u: seq<Insert>, v: seq<Insert>, w: seq<Insert>, x: seq<Insert>, y: seq<Insert>)
    requires u == (if t == PacketsTime then a else []) && v == (if t == PacketsMmsi then b else [])
    requires w == (if t == PacketsAreaUnknown then c else []) && x == (if t == PacketsAreaCell1 then d else [])
    requires y == if t == PacketsAreaCell10 then e else []
    ensures u + v + w + x + y == PartOf(a, b, c, d, e, t)
  {
    match t
    case PacketsTime => assert a + [] + [] + [] + [] == a;
    case PacketsMmsi => assert [] + b + [] + [] + [] == b;
    case PacketsAreaUnknown => assert [] + [] + c + [] + [] == c;
    case PacketsAreaCell1 => assert [] + [] + [] + d + [] == d;
    case PacketsAreaCell10 => assert [] + [] + [] + [] + e == e;
  }

  lemma FivePartsOfTable(a: seq<Insert>, b: seq<Insert>, c: seq<Insert>, d: seq<Insert>, e: seq<Insert>, t: Table)
    requires OnlyFor(a, PacketsTime) && OnlyFor(b, PacketsMmsi) && OnlyFor(c, PacketsAreaUnknown)
    requires OnlyFor(d, PacketsAreaCell1) && OnlyFor(e, PacketsAreaCell10)
    ensures InsertsOf(a + b + c + d + e, t) == PartOf(a, b, c, d, e, t)
  {
    InsertsOfFive(a, b, c, d, e, t);
    InsertOfTable(a, PacketsTime, t);
    InsertOfTable(b, PacketsMmsi, t);
    InsertOfTable(c, PacketsAreaUnknown, t);
    InsertOfTable(d, PacketsAreaCell1, t);
    InsertOfTable(e, PacketsAreaCell10, t);
    OnlyOneStays(a, b, c, d, e, t, InsertsOf(a, t), InsertsOf(b, t), InsertsOf(c, t), InsertsOf(d, t), InsertsOf(e, t));
  }

  /** The statements of a packet, table by table. */
  lemma StatementsOfTable(lib: Library, cell10Enabled: bool, p: Packet, position: Option<Position>, t: Table)
    ensures InsertsOf(Statements(lib, cell10Enabled, p, position), t)
            == if Throws(p) then [] else OnlineRow(lib, cell10Enabled, t, p, position)
  {
    if !Throws(p) {
      FivePartsOfTable(OnlineRow(lib, cell10Enabled, PacketsTime, p, position),
                       OnlineRow(lib, cell10Enabled, PacketsMmsi, p, position),
                       OnlineRow(lib, cell10Enabled, PacketsAreaUnknown, p, position),
                       OnlineRow(lib, cell10Enabled, PacketsAreaCell1, p, position),
                       OnlineRow(lib, cell10Enabled, PacketsAreaCell10, p, position), t);
    }
  }

  /** Where the guards agree on a packet, its online statements for a shared table are the bulk row of that table. */
  lemma AgreeOnPacket(lib: Library, cell10Enabled: bool, p: Packet, position: Option<Position>, t: Table)
    requires Agrees(p, position) && Shared(cell10Enabled, t)
    requires position.Some? ==> p.message.Some? && lib.isValid(position.value)
    ensures BulkRow(lib, t, p, position) == if Throws(p) then [] else OnlineRow(lib, cell10Enabled, t, p, position)
  {
    if Fits(PacketsTime, p.time) {
      ShortBlocksOverflowFirst(p.time);
    }
  }

  /** Interchanging the loops: where the guards agree, one online pass issues each separate pass's inserts, in order. */
  lemma {:induction false} PassesAgree(lib: Library, cell10Enabled: bool, es: seq<Event>, t: Table)
    requires ReportsValidPositions(lib, es) && Shared(cell10Enabled, t)
    requires forall i :: 0 <= i < |es| ==> AgreesAt(es, i)
    ensures InsertsOf(Online(lib, cell10Enabled, es), t) == Bulk(lib, t, es)
  {
    if es != [] {
      var m := |es| - 1;
      var front, e := es[..m], es[m];
      assert Packets(front) <= Packets(es);
      forall i | 0 <= i < m ensures AgreesAt(front, i) {
        assert AgreesAt(es, i) && front[..i] == es[..i];
      }
      PassesAgree(lib, cell10Enabled, front, t);
      OnlineOneMore(lib, cell10Enabled, es, t);
      if e.Received? {
        assert e.packet in Packets(es);
        TrackedPositionsAreValid(lib, front, Mmsi(e.packet));
        assert AgreesAt(es, m);
        AgreeOnPacket(lib, cell10Enabled, e.packet, TargetPosition(After(front), e.packet), t);
      }
    }
  }

  /** The insert is among the statements of event i. */
  ghost predicate IssuedAt(lib: Library, cell10Enabled: bool, es: seq<Event>, i: int, ins: Insert) {
    && 0 <= i < |es| && es[i].Received?
    && ins in Statements(lib, cell10Enabled, es[i].packet, TargetPosition(After(es[..i]), es[i].packet))
  }

  lemma IssuedInFront(lib: Library, cell10Enabled: bool, es: seq<Event>, m: nat, i: int, ins: Insert)
    requires m <= |es| && i < m
    ensures IssuedAt(lib, cell10Enabled, es[..m], i, ins) <==> IssuedAt(lib, cell10Enabled, es, i, ins)
  {
    if 0 <= i {
      assert es[..m][..i] == es[..i];
    }
  }

  /** Every online insert belongs to some packet of the run. */
  lemma {:induction false} OnlineInsertHasPacket(lib: Library, cell10Enabled: bool, es: seq<Event>, ins: Insert)
    requires ins in Online(lib, cell10Enabled, es)
    ensures exists i :: IssuedAt(lib, cell10Enabled, es, i, ins)
  {
    var m := |es| - 1;
    if ins in Online(lib, cell10Enabled, es[..m]) {
      OnlineInsertHasPacket(lib, cell10Enabled, es[..m], ins);
      var i :| IssuedAt(lib, cell10Enabled, es[..m], i, ins);
      IssuedInFront(lib, cell10Enabled, es, m, i, ins);
    } else {
      assert IssuedAt(lib, cell10Enabled, es, m, ins);
    }
  }

  lemma {:induction false} BulkInsertHasPacket(lib: Library, t: Table, es: seq<Event>, ins: Insert)
    requires ins in Bulk(lib, t, es)
    ensures exists i :: 0 <= i < |es| && es[i].Received?
                     && ins in BulkRow(lib, t, es[i].packet, TargetPosition(After(es[..i]), es[i].packet))
  {
    var m := |es| - 1;
    if ins in Bulk(lib, t, es[..m]) {
      BulkInsertHasPacket(lib, t, es[..m], ins);
      var i :| 0 <= i < m && es[..m][i].Received?
            && ins in BulkRow(lib, t, es[..m][i].packet, TargetPosition(After(es[..m][..i]), es[..m][i].packet));
      assert es[..m][..i] == es[..i] && es[..m][i] == es[i];
    }
  }

  lemma {:induction false} OnlineGrows(lib: Library, cell10Enabled: bool, es: seq<Event>, n: nat)
    requires n <= |es|
    ensures Online(lib, cell10Enabled, es[..n]) <= Online(lib, cell10Enabled, es)
  {
    if n == |es| {
      assert es[..n] == es;
    } else {
      assert es[..|es| - 1][..n] == es[..n];
      OnlineGrows(lib, cell10Enabled, es[..|es| - 1], n);
    }
  }

  lemma OnlineInsertsAreIssued(lib: Library, cell10Enabled: bool, es: seq<Event>, i: int, ins: Insert)
    requires IssuedAt(lib, cell10Enabled, es, i, ins)
    ensures ins in Online(lib, cell10Enabled, es)
  {
    assert es[..i + 1][..i] == es[..i];
    assert ins in Online(lib, cell10Enabled, es[..i + 1]);
    OnlineGrows(lib, cell10Enabled, es, i + 1);
  }

  lemma {:induction false} BulkInsertsAreIssued(lib: Library, t: Table, es: seq<Event>, i: int, ins: Insert)
    requires 0 <= i < |es| && es[i].Received?
    requires ins in BulkRow(lib, t, es[i].packet, TargetPosition(After(es[..i]), es[i].packet))
    ensures ins in Bulk(lib, t, es)
  {
    var m := |es| - 1;
    if i < m {
      assert es[..m][..i] == es[..i] && es[..m][i] == es[i];
      BulkInsertsAreIssued(lib, t, es[..m], i, ins);
    }
  }

  /** The row that is in only one of the stores when the guards differ on a packet. */
  function Telltale(lib: Library, p: Packet, position: Option<Position>): Insert
    requires Mmsi(p) < 0 ==> position.Some?
  {
    if Mmsi(p) >= 0 then Row(lib, PacketsMmsi, Mmsi(p), p)
    else Row(lib, PacketsAreaCell1, lib.cell1(position.value), p)
  }

  /** Times at or before the epoch: the online writer files the packet by MMSI, but no bulk pass writes such a row. */
  lemma EarlyPacketShows(lib: Library, cell10Enabled: bool, es: seq<Event>, i: int)
    requires 0 <= i < |es| && !AgreesAt(es, i) && es[i].packet.time <= 0
    ensures !SameRows(lib, cell10Enabled, es)
  {
    var p := es[i].packet;
    var position := TargetPosition(After(es[..i]), p);
    var online, bulk := Online(lib, cell10Enabled, es), Bulk(lib, PacketsMmsi, es);
    var ins := Row(lib, PacketsMmsi, Mmsi(p), p);
    assert OnlineRow(lib, cell10Enabled, PacketsMmsi, p, position) == [ins];
    assert IssuedAt(lib, cell10Enabled, es, i, ins);
    OnlineInsertsAreIssued(lib, cell10Enabled, es, i, ins);
    forall other | other in bulk ensures other.key != ins.key {
      BulkInsertHasPacket(lib, PacketsMmsi, es, other);
    }
    IssuedKeys(online, bulk, PacketsMmsi, ins);
    assert Shared(cell10Enabled, PacketsMmsi);
  }

  /** Two insert lists leave different rows when one inserts a key of a table that the other does not. */
  lemma IssuedKeys(some: seq<Insert>, none: seq<Insert>, t: Table, ins: Insert)
    requires ins in some && ins.key.table == t
    requires forall other :: other in none ==> other.key != ins.key
    ensures OfTable(Apply(map[], some), t) != Apply(map[], none)
    ensures OfTable(Apply(map[], none), t) != Apply(map[], some)
  {
    var n :| 0 <= n < |some| && some[n] == ins;
    ApplyKeys(map[], some, ins.key);
    ApplyKeys(map[], none, ins.key);
    assert ins.key in OfTable(Apply(map[], some), t);
  }

  /** Times after the epoch: no online insert has the key of the bulk row of a packet that the writer turns away. */
  lemma TelltaleIsNotOnline(lib: Library, cell10Enabled: bool, es: seq<Event>, i: int, same: Insert)
    requires Faithful(lib, Packets(es))
    requires 0 <= i < |es| && !AgreesAt(es, i) && es[i].packet.time > 0
    requires same in Online(lib, cell10Enabled, es)
    ensures same.key != Telltale(lib, es[i].packet, TargetPosition(After(es[..i]), es[i].packet)).key
  {
    var p := es[i].packet;
    assert p in Packets(es) by { assert es[i] in es; }
    OnlineInsertHasPacket(lib, cell10Enabled, es, same);
    var k :| IssuedAt(lib, cell10Enabled, es, k, same);
    var q := es[k].packet;
    assert q in Packets(es) by { assert es[k] in es; }
    StatementShape(lib, cell10Enabled, q, TargetPosition(After(es[..k]), q), same);
    if q == p {
      assert Mmsi(p) <= 0 || !Fits(PacketsTime, p.time);
    } else {
      assert lib.digest(q.raw) != lib.digest(p.raw);
    }
  }

  /** Any statement of a packet carries its time and digest, and outside packets_time its MMSI is above zero. */
  lemma StatementShape(lib: Library, cell10Enabled: bool, p: Packet, position: Option<Position>, ins: Insert)
    requires ins in Statements(lib, cell10Enabled, p, position)
    ensures ins.key.time == p.time && ins.key.digest == lib.digest(p.raw) && ins.aisdata == p.raw
    ensures !Throws(p) && (ins.key.table.PacketsTime? || Mmsi(p) > 0)
  {
  }

  /** Where the guards differ on a packet, some row is in one store and not in the other. */
  lemma DisagreementShows(lib: Library, cell10Enabled: bool, es: seq<Event>, i: int)
    requires ReportsValidPositions(lib, es) && Faithful(lib, Packets(es))
    requires 0 <= i < |es| && !AgreesAt(es, i)
    ensures !SameRows(lib, cell10Enabled, es)
  {
    var p := es[i].packet;
    var position := TargetPosition(After(es[..i]), p);
    if p.time <= 0 {
      EarlyPacketShows(lib, cell10Enabled, es, i);
    } else {
      var ins := Telltale(lib, p, position);
      var t := ins.key.table;
      assert p in Packets(es) by { assert es[i] in es; }
      assert Packets(es[..i]) <= Packets(es);
      TrackedPositionsAreValid(lib, es[..i], Mmsi(p));
      assert BulkRow(lib, t, p, position) == [ins];
      assert ins in BulkRow(lib, t, p, position);
      BulkInsertsAreIssued(lib, t, es, i, ins);
      forall same | same in Online(lib, cell10Enabled, es) ensures same.key != ins.key {
        TelltaleIsNotOnline(lib, cell10Enabled, es, i, same);
      }
      IssuedKeys(Bulk(lib, t, es), Online(lib, cell10Enabled, es), t, ins);
      assert Shared(cell10Enabled, t);
    }
  }

  /**
   * The exact domain: five separate passes, each area pass with its own tracker, leave the same rows as one pass of the
   * online writer if and only if the guards of both take every packet the same way.
   */
  lemma SameRowsExactlyWhenGuardsAgree(lib: Library, cell10Enabled: bool, es: seq<Event>)
    requires ReportsValidPositions(lib, es) && Faithful(lib, Packets(es))
    ensures SameRows(lib, cell10Enabled, es) <==> forall i :: 0 <= i < |es| ==> AgreesAt(es, i)
  {
    if i :| 0 <= i < |es| && !AgreesAt(es, i) {
      DisagreementShows(lib, cell10Enabled, es, i);
    } else {
      forall t: Table | Shared(cell10Enabled, t)
        ensures OfTable(Apply(map[], Online(lib, cell10Enabled, es)), t) == Apply(map[], Bulk(lib, t, es))
      {
        PassesAgree(lib, cell10Enabled, es, t);
        ApplyOfTable(map[], Online(lib, cell10Enabled, es), t);
      }
    }
  }

  /** The promise on ordinary streams: positive times that fit a block, and a positive MMSI where a message decodes. */
  lemma OrdinaryStreamsAgree(lib: Library, cell10Enabled: bool, es: seq<Event>)
    requires ReportsValidPositions(lib, es)
    requires forall p :: p in Packets(es) ==>
               0 < p.time < 2147483648 * 600000 && (p.message.Some? ==> p.message.value.userId > 0)
    ensures var rows := Apply(map[], Online(lib, cell10Enabled, es));
            && OfTable(rows, PacketsTime) == Apply(map[], Bulk(lib, PacketsTime, es))
            && OfTable(rows, PacketsMmsi) == Apply(map[], Bulk(lib, PacketsMmsi, es))
            && OfTable(rows, PacketsAreaCell1) == Apply(map[], Bulk(lib, PacketsAreaCell1, es))
            && OfTable(rows, PacketsAreaUnknown) == Apply(map[], Bulk(lib, PacketsAreaUnknown, es))
            && (cell10Enabled ==> OfTable(rows, PacketsAreaCell10) == Apply(map[], Bulk(lib, PacketsAreaCell10, es)))
  {
    forall i | 0 <= i < |es| ensures AgreesAt(es, i) {
      if es[i].Received? {
        assert es[i] in es && es[i].packet in Packets(es);
        TenMinuteRange(PacketsTime, es[i].packet.time);
      }
    }
    forall t: Table | Shared(cell10Enabled, t)
      ensures OfTable(Apply(map[], Online(lib, cell10Enabled, es)), t) == Apply(map[], Bulk(lib, t, es))
    {
      PassesAgree(lib, cell10Enabled, es, t);
      ApplyOfTable(map[], Online(lib, cell10Enabled, es), t);
    }
    assert Shared(cell10Enabled, PacketsTime) && Shared(cell10Enabled, PacketsMmsi);
    assert Shared(cell10Enabled, PacketsAreaCell1) && Shared(cell10Enabled, PacketsAreaUnknown);
    assert cell10Enabled ==> Shared(cell10Enabled, PacketsAreaCell10);
  }

  /** The packets that arrive, without the expiries between them. */
  ghost function Live(es: seq<Event>): seq<Event> {
    if es == [] then []
    else Live(es[..|es| - 1]) + if es[|es| - 1].Received? then [es[|es| - 1]] else []
  }

  /** A pass for packets_time or packets_mmsi does not depend on when the cache drops entries. */
  lemma {:induction false} BulkIgnoresExpiry(lib: Library, t: Table, es: seq<Event>)
    requires t.PacketsTime? || t.PacketsMmsi?
    ensures Bulk(lib, t, es) == Bulk(lib, t, Live(es))
  {
    if es != [] {
      var front, e := es[..|es| - 1], es[|es| - 1];
      BulkIgnoresExpiry(lib, t, front);
      if e.Received? {
        assert Live(es)[..|Live(es)| - 1] == Live(front);
      } else {
        assert Live(es) == Live(front) && Bulk(lib, t, es) == Bulk(lib, t, front);
      }
    }
  }

  /** For packets_time and packets_mmsi the passes agree even if entries expire at other moments in each. */
  lemma PassesAgreeWhateverExpires(lib: Library, cell10Enabled: bool, es: seq<Event>, fs: seq<Event>, t: Table)
    requires ReportsValidPositions(lib, es) && Live(es) == Live(fs) && (t.PacketsTime? || t.PacketsMmsi?)
    requires forall i :: 0 <= i < |es| ==> AgreesAt(es, i)
    ensures InsertsOf(Online(lib, cell10Enabled, es), t) == Bulk(lib, t, fs)
  {
    PassesAgree(lib, cell10Enabled, es, t);
    BulkIgnoresExpiry(lib, t, es);
    BulkIgnoresExpiry(lib, t, fs);
  }

  /** The packets that get a row in an area table, over any run, with or without evictions. */
  ghost function EligibleCount(es: seq<Event>): nat {
    if es == [] then 0
    else
      var e := es[|es| - 1];
      EligibleCount(es[..|es| - 1])
      + if e.Received? && e.packet.time > 0 && Mmsi(e.packet) > 0 && !Throws(e.packet) then 1 else 0
  }

  /**
   * The area row of an eligible packet: under the cell of its own position, else under that of the position tracked for
   * its MMSI, else in packets_area_unknown; never in both tables.
   */
  lemma OneAreaRow(lib: Library, cell10Enabled: bool, tracker: Tracker, p: Packet)
    requires p.time > 0 && Mmsi(p) > 0 && !Throws(p)
    ensures var statements := Statements(lib, cell10Enabled, p, TargetPosition(tracker, p));
            var cell1, unknown := InsertsOf(statements, PacketsAreaCell1), InsertsOf(statements, PacketsAreaUnknown);
            if HasPosition(p) then
              cell1 == [Row(lib, PacketsAreaCell1, lib.cell1(p.message.value.position.value), p)] && unknown == []
            else if Mmsi(p) in tracker then
              cell1 == [Row(lib, PacketsAreaCell1, lib.cell1(tracker[Mmsi(p)].position), p)] && unknown == []
            else
              cell1 == [] && unknown == [Row(lib, PacketsAreaUnknown, Mmsi(p), p)]
  {
    StatementsOfTable(lib, cell10Enabled, p, TargetPosition(tracker, p), PacketsAreaCell1);
    StatementsOfTable(lib, cell10Enabled, p, TargetPosition(tracker, p), PacketsAreaUnknown);
  }

  /** Each eligible packet gets one row in exactly one of the cell-1 and unknown tables, so the two add up. */
  lemma {:induction false} AreaRowsAddUp(lib: Library, cell10Enabled: bool, es: seq<Event>)
    ensures |InsertsOf(Online(lib, cell10Enabled, es), PacketsAreaCell1)|
            + |InsertsOf(Online(lib, cell10Enabled, es), PacketsAreaUnknown)| == EligibleCount(es)
  {
    if es != [] {
      var m := |es| - 1;
      var front, e := es[..m], es[m];
      AreaRowsAddUp(lib, cell10Enabled, front);
      OnlineOneMore(lib, cell10Enabled, es, PacketsAreaCell1);
      OnlineOneMore(lib, cell10Enabled, es, PacketsAreaUnknown);
      if e.Received? {
        AreaRowsOfOne(lib, cell10Enabled, e.packet, TargetPosition(After(front), e.packet));
      }
    }
  }

  lemma AreaRowsOfOne(lib: Library, cell10Enabled: bool, p: Packet, position: Option<Position>)
    ensures |OnlineRow(lib, cell10Enabled, PacketsAreaCell1, p, position)|
            + |OnlineRow(lib, cell10Enabled, PacketsAreaUnknown, p, position)|
            == if p.time > 0 && Mmsi(p) > 0 then 1 else 0
  {
  }

  /** The inserts of a table after one more event. */
  lemma OnlineOneMore(lib: Library, cell10Enabled: bool, es: seq<Event>, t: Table)
    requires es != []
    ensures var front, e := es[..|es| - 1], es[|es| - 1];
            InsertsOf(Online(lib, cell10Enabled, es), t)
            == InsertsOf(Online(lib, cell10Enabled, front), t)
               + if e.Received? && !Throws(e.packet) then
                   OnlineRow(lib, cell10Enabled, t, e.packet, TargetPosition(After(front), e.packet))
                 else []
  {
    var front, e := es[..|es| - 1], es[|es| - 1];
    if e.Received? {
      var position := TargetPosition(After(front), e.packet);
      InsertsOfAppend(Online(lib, cell10Enabled, front), Statements(lib, cell10Enabled, e.packet, position), t);
      StatementsOfTable(lib, cell10Enabled, e.packet, position, t);
    } else {
      assert Online(lib, cell10Enabled, es) == Online(lib, cell10Enabled, front);
    }
  }
}
