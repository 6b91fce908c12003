/** Writing packets again: what depends only on which packets were written, and what does not. */
module Replay {
  import opened Wrappers
  import opened AisStoreSchema
  import opened AisPackets
  import opened Tables
  import opened PositionTracking
  import opened OnlineWriter
  import opened Agreement

  /** The two tables whose rows do not depend on a tracked position. */
  predicate IsPlain(t: Table) {
    t.PacketsTime? || t.PacketsMmsi?
  }

  function OwnPosition(p: Packet): Option<Position> {
    if p.message.None? then None else p.message.value.position
  }

  /**
   * Handling the packet writes the row of key k, whatever was tracked: its row in packets_time or packets_mmsi, or in
   * packets_area_cell1 under the cell of its own position.
   */
  predicate Leaves(lib: Library, p: Packet, k: Key) {
    && (IsPlain(k.table) || (k.table.PacketsAreaCell1? && HasPosition(p)))
    && !Throws(p) && OnlineRow(lib, false, k.table, p, OwnPosition(p)) == [Insert(k, p.raw)]
  }

  /** The row of key k can come from the packet: the packet leaves it, or outside the plain tables has its digest. */
  predicate CanLeave(lib: Library, p: Packet, k: Key) {
    !Throws(p) && k.time == p.time && k.digest == lib.digest(p.raw) && (IsPlain(k.table) ==> Leaves(lib, p, k))
  }

  /** The store holds the rows some packets leave for certain, and no rows but those of a larger set of packets. */
  ghost predicate HoldsBetween(lib: Library, rows: Rows, must: set<Packet>, may: set<Packet>) {
    && (forall k :: k in rows ==> exists p :: p in may && CanLeave(lib, p, k) && rows[k] == p.raw)
    && (forall p, k :: p in must && Leaves(lib, p, k) ==> k in rows)
  }

  /** The store holds the rows of the given packets and no others. */
  ghost predicate HoldsExactly(lib: Library, rows: Rows, ps: set<Packet>) {
    HoldsBetween(lib, rows, ps, ps)
  }

  /** The same, seen on a list of inserts. */
  ghost predicate InsertsBetween(lib: Library, inserts: seq<Insert>, must: set<Packet>, may: set<Packet>) {
    && (forall ins :: ins in inserts ==> exists p :: p in may && CanLeave(lib, p, ins.key) && ins.aisdata == p.raw)
    && (forall p, k :: p in must && Leaves(lib, p, k) ==> exists ins :: ins in inserts && ins.key == k)
  }

  ghost predicate InsertsExactly(lib: Library, inserts: seq<Insert>, ps: set<Packet>) {
    InsertsBetween(lib, inserts, ps, ps)
  }

  /** A packet's statements are its rows, whatever was tracked. */
  lemma StatementsLeaveRows(lib: Library, cell10Enabled: bool, tracker: Tracker, p: Packet)
    ensures InsertsExactly(lib, Statements(lib, cell10Enabled, p, TargetPosition(tracker, p)), {p})
  {
    var position := TargetPosition(tracker, p);
    var statements := Statements(lib, cell10Enabled, p, position);
    forall ins | ins in statements ensures CanLeave(lib, p, ins.key) && ins.aisdata == p.raw {
      StatementShape(lib, cell10Enabled, p, position, ins);
      if IsPlain(ins.key.table) {
        assert ins in OnlineRow(lib, cell10Enabled, ins.key.table, p, position);
      }
    }
    forall k | Leaves(lib, p, k) ensures exists ins :: ins in statements && ins.key == k {
      assert Insert(k, p.raw) in OnlineRow(lib, cell10Enabled, k.table, p, position);
      assert Insert(k, p.raw) in statements;
    }
  }

  lemma InsertsJoin(lib: Library, a: seq<Insert>, b: seq<Insert>, ps: set<Packet>, qs: set<Packet>)
    requires InsertsExactly(lib, a, ps) && InsertsExactly(lib, b, qs)
    ensures InsertsExactly(lib, a + b, ps + qs)
  {
    forall p, k | p in ps + qs && Leaves(lib, p, k) ensures exists ins :: ins in a + b && ins.key == k {
      if p in ps {
        var ins :| ins in a && ins.key == k;
        assert ins in a + b;
      } else {
        var ins :| ins in b && ins.key == k;
        assert ins in a + b;
      }
    }
  }

  /** Writing a batch on top of a store adds the batch's packets to those the store holds. */
  lemma ApplyHolds(lib: Library, rows: Rows, inserts: seq<Insert>, must: set<Packet>, may: set<Packet>,
                   mustToo: set<Packet>, mayToo: set<Packet>)
    requires HoldsBetween(lib, rows, must, may) && InsertsBetween(lib, inserts, mustToo, mayToo)
    ensures HoldsBetween(lib, Apply(rows, inserts), must + mustToo, may + mayToo)
  {
    var all := Apply(rows, inserts);
    forall k | k in all ensures exists p :: p in may + mayToo && CanLeave(lib, p, k) && all[k] == p.raw
    {
      ApplyValue(rows, inserts, k);
      if i :| 0 <= i < |inserts| && inserts[i] == Insert(k, all[k]) {
        var p :| p in mayToo && CanLeave(lib, p, inserts[i].key) && inserts[i].aisdata == p.raw;
        assert p in may + mayToo;
      } else {
        var p :| p in may && CanLeave(lib, p, k) && rows[k] == p.raw;
        assert p in may + mayToo;
      }
    }
    forall p, k | p in must + mustToo && Leaves(lib, p, k) ensures k in all {
      ApplyKeys(rows, inserts, k);
      if p in mustToo {
        var ins :| ins in inserts && ins.key == k;
        var i :| 0 <= i < |inserts| && inserts[i] == ins;
      }
    }
  }

  /** A run of the online writer leaves the rows of the packets it handled. */
  lemma {:induction false} OnlineHolds(lib: Library, cell10Enabled: bool, es: seq<Event>)
    ensures InsertsExactly(lib, Online(lib, cell10Enabled, es), Packets(es))
    ensures HoldsExactly(lib, Apply(map[], Online(lib, cell10Enabled, es)), Packets(es))
  {
    if es != [] {
      var m := |es| - 1;
      var front, e := es[..m], es[m];
      OnlineHolds(lib, cell10Enabled, front);
      assert es == front + [e];
      if e.Received? {
        assert Packets(es) == Packets(front) + {e.packet};
        StatementsLeaveRows(lib, cell10Enabled, After(front), e.packet);
        InsertsJoin(lib, Online(lib, cell10Enabled, front),
                    Statements(lib, cell10Enabled, e.packet, TargetPosition(After(front), e.packet)),
                    Packets(front), {e.packet});
      } else {
        assert Packets(es) == Packets(front);
        assert Online(lib, cell10Enabled, es) == Online(lib, cell10Enabled, front);
      }
    }
    ApplyHolds(lib, map[], Online(lib, cell10Enabled, es), {}, {}, Packets(es), Packets(es));
    assert {} + Packets(es) == Packets(es);
  }

  /** The packets determine the contents of the plain tables. */
  lemma ContentsAreDetermined(lib: Library, some: Rows, other: Rows, ps: set<Packet>, t: Table)
    requires Faithful(lib, ps) && IsPlain(t)
    requires HoldsExactly(lib, some, ps) && HoldsExactly(lib, other, ps)
    ensures OfTable(some, t) == OfTable(other, t)
  {
    RowsAreShared(lib, some, other, ps, t);
    RowsAreShared(lib, other, some, ps, t);
  }

  lemma RowsAreShared(lib: Library, some: Rows, other: Rows, ps: set<Packet>, t: Table)
    requires Faithful(lib, ps) && IsPlain(t)
    requires HoldsBetween(lib, some, {}, ps) && HoldsBetween(lib, other, ps, ps)
    ensures forall k :: k in some && k.table == t ==> k in other && some[k] == other[k]
  {
    forall k | k in some && k.table == t ensures k in other && some[k] == other[k] {
      RowIsDetermined(lib, some, other, ps, ps, k);
    }
  }

  /** A row of a store that holds no more than some packets is in every store that holds at least these. */
  lemma RowIsDetermined(lib: Library, some: Rows, other: Rows, ps: set<Packet>, qs: set<Packet>, k: Key)
    requires Faithful(lib, qs) && ps <= qs && IsPlain(k.table) && k in some
    requires HoldsBetween(lib, some, {}, ps) && HoldsBetween(lib, other, ps, qs)
    ensures k in other && some[k] == other[k]
  {
    var p :| p in ps && CanLeave(lib, p, k) && some[k] == p.raw;
    var q :| q in qs && CanLeave(lib, q, k) && other[k] == q.raw;
  }

  /** What a packet leaves for certain is there with the packet's own text. */
  lemma LeftRowIsOwn(lib: Library, rows: Rows, must: set<Packet>, may: set<Packet>, p: Packet, k: Key)
    requires Faithful(lib, may) && must <= may && HoldsBetween(lib, rows, must, may) && p in must && Leaves(lib, p, k)
    ensures k in rows && rows[k] == p.raw
  {
    var q :| q in may && CanLeave(lib, q, k) && rows[k] == q.raw;
    LeavesDigest(lib, p, k);
  }

  lemma LeavesDigest(lib: Library, p: Packet, k: Key)
    requires Leaves(lib, p, k)
    ensures k.digest == lib.digest(p.raw) && k.time == p.time
  {
    assert OnlineRow(lib, false, k.table, p, OwnPosition(p))[0] == Insert(k, p.raw);
  }

  /** Order, repetition, evictions and the cell-10 setting leave packets_time and packets_mmsi unchanged. */
  lemma RepetitionIsHarmless(lib: Library, c: bool, d: bool, es: seq<Event>, fs: seq<Event>, t: Table)
    requires Packets(es) == Packets(fs) && Faithful(lib, Packets(es)) && IsPlain(t)
    ensures OfTable(Apply(map[], Online(lib, c, es)), t) == OfTable(Apply(map[], Online(lib, d, fs)), t)
  {
    OnlineHolds(lib, c, es);
    OnlineHolds(lib, d, fs);
    ContentsAreDetermined(lib, Apply(map[], Online(lib, c, es)), Apply(map[], Online(lib, d, fs)), Packets(es), t);
  }

  // ---------- the area tables ----------

  ghost function Written(lib: Library, cell10Enabled: bool, es: seq<Event>): Rows {
    Apply(map[], Online(lib, cell10Enabled, es))
  }

  /** The row comes from a packet of the run. */
  lemma RowHasPacket(lib: Library, cell10Enabled: bool, es: seq<Event>, k: Key) returns (i: int)
    requires k in Written(lib, cell10Enabled, es)
    ensures IssuedAt(lib, cell10Enabled, es, i, Insert(k, Written(lib, cell10Enabled, es)[k]))
  {
    var online := Online(lib, cell10Enabled, es);
    ApplyValue(map[], online, k);
    var n :| 0 <= n < |online| && online[n] == Insert(k, Written(lib, cell10Enabled, es)[k]);
    OnlineInsertHasPacket(lib, cell10Enabled, es, online[n]);
    i :| IssuedAt(lib, cell10Enabled, es, i, online[n]);
  }

  /** The text of a row is that of the packet that issued its insert. */
  lemma RowTextIsPackets(lib: Library, cell10Enabled: bool, es: seq<Event>, i: int, ins: Insert)
    requires IssuedAt(lib, cell10Enabled, es, i, ins) && Faithful(lib, Packets(es))
    ensures ins.key in Written(lib, cell10Enabled, es) && Written(lib, cell10Enabled, es)[ins.key] == es[i].packet.raw
  {
    var rows := Written(lib, cell10Enabled, es);
    OnlineInsertsAreIssued(lib, cell10Enabled, es, i, ins);
    var online := Online(lib, cell10Enabled, es);
    var n :| 0 <= n < |online| && online[n] == ins;
    ApplyKeys(map[], online, ins.key);
    var j := RowHasPacket(lib, cell10Enabled, es, ins.key);
    StatementShape(lib, cell10Enabled, es[i].packet, TargetPosition(After(es[..i]), es[i].packet), ins);
    StatementShape(lib, cell10Enabled, es[j].packet, TargetPosition(After(es[..j]), es[j].packet),
                   Insert(ins.key, rows[ins.key]));
    assert es[i].packet in Packets(es) && es[j].packet in Packets(es) by { assert es[i] in es && es[j] in es; }
  }

  /** Earlier in the run the packet was filed under the given 1-degree cell. */
  ghost predicate FiledBefore(lib: Library, es: seq<Event>, p: Packet, cell: int) {
    exists i :: 0 <= i < |es| && es[i] == Received(p)
                && TargetPosition(After(es[..i]), p).Some? && lib.cell1(TargetPosition(After(es[..i]), p).value) == cell
  }

  lemma FiledBeforeIsWritten(lib: Library, cell10Enabled: bool, es: seq<Event>, p: Packet, cell: int)
    requires Faithful(lib, Packets(es)) && p.time > 0 && Mmsi(p) > 0 && !Throws(p)
    ensures var ins := Row(lib, PacketsAreaCell1, cell, p);
            FiledBefore(lib, es, p, cell) ==>
              ins.key in Written(lib, cell10Enabled, es) && Written(lib, cell10Enabled, es)[ins.key] == p.raw
  {
    var ins := Row(lib, PacketsAreaCell1, cell, p);
    if FiledBefore(lib, es, p, cell) {
      var i :| 0 <= i < |es| && es[i] == Received(p) && TargetPosition(After(es[..i]), p).Some?
            && lib.cell1(TargetPosition(After(es[..i]), p).value) == cell;
      assert ins in OnlineRow(lib, cell10Enabled, PacketsAreaCell1, p, TargetPosition(After(es[..i]), p));
      assert IssuedAt(lib, cell10Enabled, es, i, ins);
      RowTextIsPackets(lib, cell10Enabled, es, i, ins);
    }
  }

  lemma CellStatement(lib: Library, cell10Enabled: bool, p: Packet, position: Option<Position>, ins: Insert)
    requires ins in Statements(lib, cell10Enabled, p, position) && ins.key.table == PacketsAreaCell1
    ensures position.Some? && ins == Row(lib, PacketsAreaCell1, lib.cell1(position.value), p)
  {
    assert ins in OnlineRow(lib, cell10Enabled, PacketsAreaCell1, p, position);
  }

  lemma WrittenWasFiledBefore(lib: Library, cell10Enabled: bool, es: seq<Event>, p: Packet, cell: int)
    requires Faithful(lib, Packets(es) + {p})
    requires Row(lib, PacketsAreaCell1, cell, p).key in Written(lib, cell10Enabled, es)
    ensures FiledBefore(lib, es, p, cell)
  {
    var key := Row(lib, PacketsAreaCell1, cell, p).key;
    var i := RowHasPacket(lib, cell10Enabled, es, key);
    var q, ins := es[i].packet, Insert(key, Written(lib, cell10Enabled, es)[key]);
    CellStatement(lib, cell10Enabled, q, TargetPosition(After(es[..i]), q), ins);
    assert q in Packets(es) by { assert es[i] in es; }
    assert lib.digest(q.raw) == lib.digest(p.raw);
    assert q == p;
  }

  /**
   * The area tables are not indifferent to repetition. Handling a packet once more leaves packets_area_cell1 as it is
   * if and only if the packet was already filed under the cell of the position it now has.
   */
  lemma ReplayKeepsCellsIff(lib: Library, cell10Enabled: bool, es: seq<Event>, p: Packet, position: Position)
    requires Faithful(lib, Packets(es) + {p}) && p.time > 0 && Mmsi(p) > 0 && !Throws(p)
    requires TargetPosition(After(es), p) == Some(position)
    ensures OfTable(Written(lib, cell10Enabled, es + [Received(p)]), PacketsAreaCell1)
            == OfTable(Written(lib, cell10Enabled, es), PacketsAreaCell1)
            <==> FiledBefore(lib, es, p, lib.cell1(position))
  {
    var row := Row(lib, PacketsAreaCell1, lib.cell1(position), p);
    var rows := Written(lib, cell10Enabled, es);
    ReplayUpserts(lib, cell10Enabled, es, p, position);
    FiledBeforeIsWritten(lib, cell10Enabled, es, p, lib.cell1(position));
    if row.key in rows {
      WrittenWasFiledBefore(lib, cell10Enabled, es, p, lib.cell1(position));
    }
    var cells := OfTable(rows, PacketsAreaCell1);
    assert row.key in cells <==> row.key in rows;
    assert cells[row.key := row.aisdata] == cells <==> row.key in cells && cells[row.key] == row.aisdata;
  }

  lemma ReplayUpserts(lib: Library, cell10Enabled: bool, es: seq<Event>, p: Packet, position: Position)
    requires p.time > 0 && Mmsi(p) > 0 && !Throws(p) && TargetPosition(After(es), p) == Some(position)
    ensures var row := Row(lib, PacketsAreaCell1, lib.cell1(position), p);
            OfTable(Written(lib, cell10Enabled, es + [Received(p)]), PacketsAreaCell1)
            == OfTable(Written(lib, cell10Enabled, es), PacketsAreaCell1)[row.key := row.aisdata]
  {
    var fs := es + [Received(p)];
    assert fs[..|es|] == es;
    OnlineOneMore(lib, cell10Enabled, fs, PacketsAreaCell1);
    ApplyOfTable(map[], Online(lib, cell10Enabled, es), PacketsAreaCell1);
    ApplyOfTable(map[], Online(lib, cell10Enabled, fs), PacketsAreaCell1);
    var cells := InsertsOf(Online(lib, cell10Enabled, es), PacketsAreaCell1);
    var row := Row(lib, PacketsAreaCell1, lib.cell1(position), p);
    ApplyAppend(map[], cells, [row]);
    assert [row][..0] == [];
  }

  /** A packet of ship 1, with a position or without. */
  function Sighting(raw: string, time: int, position: Option<Position>): Packet {
    Packet(raw, time, Some(Message(1, position)))
  }

  /** A run after which repeating a packet files it twice: position a, a packet without one, position b elsewhere. */
  lemma ReplayMovesExample(lib: Library, a: Position, b: Position)
    requires lib.cell1(a) != lib.cell1(b)
    requires lib.digest("a") != lib.digest("") && lib.digest("b") != lib.digest("")
    requires lib.digest("a") != lib.digest("b")
    ensures var bare := Sighting("", 2000, None);
            var es := [Received(Sighting("a", 1000, Some(a))), Received(bare), Received(Sighting("b", 3000, Some(b)))];
            OfTable(Written(lib, false, es + [Received(bare)]), PacketsAreaCell1)
            != OfTable(Written(lib, false, es), PacketsAreaCell1)
  {
    var first, bare, last := Sighting("a", 1000, Some(a)), Sighting("", 2000, None), Sighting("b", 3000, Some(b));
    var es := [Received(first), Received(bare), Received(last)];
    assert es[..1] == [Received(first)] && es[..2] == [Received(first), Received(bare)];
    assert es[..1][..0] == [] && es[..2][..1] == es[..1];
    assert After(es[..1]) == map[1 := PositionTime(a, 1000)];
    assert After(es[..2]) == After(es[..1]);
    assert After(es) == map[1 := PositionTime(b, 3000)];
    assert Packets(es) + {bare} <= {first, bare, last};
    assert !FiledBefore(lib, es, bare, lib.cell1(b));
    ReplayKeepsCellsIff(lib, false, es, bare, b);
  }
}
