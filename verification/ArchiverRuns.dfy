/** What the archiver promises over whole runs. */
module ArchiverRuns {
  import opened AisPackets
  import opened AisStoreSchema
  import opened Tables
  import opened PositionTracking
  import opened OnlineWriter
  import opened Agreement
  import opened Replay
  import opened Archiver
  import opened ArchiverSafety

  /**
   * In every interleaving each received packet is in the write queue, in the batch in flight, stored, on its way to the
   * backup service, in a backup file or an unreadable file, or lost; and distinct receipts are distinct items.
   */
  lemma NothingVanishes(c: Config, run: seq<Action>, i: Item)
    requires Possible(c, run) && i in Reach(c, run).book.received
    ensures var s := Reach(c, run);
            || i in s.writer.queue || InBatch(s.writer.stage, i) || i in s.writer.stored
            || i in s.book.overflow || i in s.disk.backup || i in s.disk.open
            || (exists g :: g in s.disk.files && i in s.disk.files[g])
            || (exists g :: g in s.disk.unreadable && i in s.disk.unreadable[g])
            || i in s.book.lost
    ensures |Reach(c, run).book.received| == Reach(c, run).book.nextId
  {
    RunKeepsInv(c, run);
  }

  /** What it takes to lose an item: a refused backup offer, a validation error, or a message that throws. */
  ghost predicate Loses(c: Config, s: State, a: Action, i: Item) {
    match a
    case OfferOverflow(item) => i == item && |s.disk.backup| >= c.backupCapacity
    case OfferFailed =>
      && s.writer.stage.Failing? && s.writer.stage.rest != [] && i == s.writer.stage.rest[0]
      && |s.disk.backup| >= c.backupCapacity
    case FailValidation => InBatch(s.writer.stage, i)
    case Succeed => InBatch(s.writer.stage, i) && Throws(i.packet)
    case _ => false
  }

  /** The moment at which an item is lost. */
  ghost predicate LostAt(c: Config, run: seq<Action>, n: nat, i: Item)
    requires Possible(c, run)
  {
    n < |run| && Possible(c, run[..n]) && Loses(c, Reach(c, run[..n]), run[n], i)
  }

  lemma {:induction false} LossHasCause(c: Config, run: seq<Action>, i: Item)
    requires Possible(c, run) && i in Reach(c, run).book.lost
    ensures exists n: nat :: LostAt(c, run, n, i)
  {
    var n := |run| - 1;
    var s := Reach(c, run[..n]);
    if i in s.book.lost {
      LossHasCause(c, run[..n], i);
      var k: nat :| LostAt(c, run[..n], k, i);
      assert run[..n][..k] == run[..k];
      assert LostAt(c, run, k, i);
    } else {
      StepLoses(c, s, run[n], i);
      assert LostAt(c, run, n, i);
    }
  }

  lemma StepLoses(c: Config, s: State, a: Action, i: Item)
    requires Enabled(c, s, a) && i !in s.book.lost
    ensures i in Do(c, s, a).book.lost ==> Loses(c, s, a, i)
  {
  }

  // ---------- replay ----------

  /** What the importer has brought into the write queue since it last opened a file. */
  ghost function Accepted(c: Config, run: seq<Action>): seq<Item>
    requires Possible(c, run)
  {
    if run == [] then []
    else
      var n := |run| - 1;
      AcceptedNext(Accepted(c, run[..n]), Reach(c, run[..n]).writer.queue, run[n], Reach(c, run).writer.queue)
  }

  ghost function AcceptedNext(accepted: seq<Item>, before: seq<Item>, a: Action, after: seq<Item>): seq<Item> {
    if a.OpenFile? then []
    else if a.OfferRestored? && |after| > |before| then accepted + [after[|after| - 1]]
    else accepted
  }

  /** What was accepted is what the importer has read of its file. */
  ghost predicate ReadSoFar(s: State, accepted: seq<Item>) {
    s.importer.Reading? || s.importer.Offering? ==>
      InFile(s) && accepted == s.disk.files[s.importer.file][..s.importer.pos]
  }

  lemma ReadSoFarKept(c: Config, s: State, a: Action, accepted: seq<Item>)
    requires Enabled(c, s, a) && Restored(s) && FilesNumbered(s) && ReadSoFar(s, accepted)
    requires !a.OpenFile? && !a.OfferRestored?
    ensures ReadSoFar(Do(c, s, a), accepted)
  {
    ImporterMoves(c, s, a);
    FilesGrow(c, s, a);
  }

  lemma ReadOneMore(c: Config, s: State, accepted: seq<Item>)
    requires Enabled(c, s, OfferRestored) && ReadSoFar(s, accepted)
    ensures var s' := Do(c, s, OfferRestored);
            ReadSoFar(s', AcceptedNext(accepted, s.writer.queue, OfferRestored, s'.writer.queue))
  {
  }

  lemma ReadNext(c: Config, s: State, a: Action, accepted: seq<Item>)
    requires Enabled(c, s, a) && Restored(s) && FilesNumbered(s) && ReadSoFar(s, accepted)
    ensures ReadSoFar(Do(c, s, a), AcceptedNext(accepted, s.writer.queue, a, Do(c, s, a).writer.queue))
  {
    match a
    case OpenFile(f) =>
    case OfferRestored => ReadOneMore(c, s, accepted);
    case _ => ReadSoFarKept(c, s, a, accepted);
  }

  lemma {:induction false} AcceptedIsPrefix(c: Config, run: seq<Action>)
    requires Possible(c, run)
    ensures ReadSoFar(Reach(c, run), Accepted(c, run))
  {
    if run != [] {
      var n := |run| - 1;
      AcceptedIsPrefix(c, run[..n]);
      RunKeepsInv(c, run[..n]);
      ReadNext(c, Reach(c, run[..n]), run[n], Accepted(c, run[..n]));
    }
  }

  /** A backup file is deleted only after every packet in it entered the write queue, in file order. */
  lemma DeleteFollowsFullReplay(c: Config, run: seq<Action>)
    requires Possible(c, run) && run != [] && run[|run| - 1] == Delete
    ensures var s := Reach(c, run[..|run| - 1]);
            && s.importer.Reading? && s.importer.file in s.disk.files
            && Accepted(c, run[..|run| - 1]) == s.disk.files[s.importer.file]
            && Reach(c, run).disk.files == s.disk.files - {s.importer.file}
  {
    AcceptedIsPrefix(c, run[..|run| - 1]);
  }

  /**
   * A restore that a shutdown cut short begins anew: after a restart every backup file that is still there can be
   * opened, and is read from its beginning.
   */
  lemma CutShortIsReadAgain(c: Config, run: seq<Action>, f: nat)
    requires Possible(c, run) && Enabled(c, Reach(c, run), Restart) && c.batchSize > 0
    requires f in Reach(c, run).disk.files
    ensures var again := run + [Restart] + [Scan] + [OpenFile(f)];
            && Possible(c, again) && Reach(c, again).importer == Reading(f, 0) && Accepted(c, again) == []
            && Reach(c, again).disk == Reach(c, run).disk && Reach(c, again).writer.rows == Reach(c, run).writer.rows
  {
    Extend(c, run, Restart);
    Extend(c, run + [Restart], Scan);
    Extend(c, run + [Restart] + [Scan], OpenFile(f));
  }

  // ---------- back-pressure ----------

  /** The live packets accepted since the importer last read the size of the write queue. */
  ghost function LiveSince(c: Config, run: seq<Action>): nat
    requires Possible(c, run)
  {
    if run == [] || run[|run| - 1].Check? then 0
    else
      var n := |run| - 1;
      LiveSince(c, run[..n])
      + if run[n].Receive? && |Reach(c, run).writer.queue| > |Reach(c, run[..n]).writer.queue| then 1 else 0
  }

  lemma QueueGrowth(c: Config, s: State, a: Action)
    requires Enabled(c, s, a)
    ensures var s' := Do(c, s, a);
            && |s'.writer.queue| <= |s.writer.queue| + 1
            && (|s'.writer.queue| > |s.writer.queue| ==> a.Receive? || a.OfferRestored?)
  {
    if MovesNothing(a) {
      PlacesUntouched(c, s, a);
    }
  }

  lemma {:induction false} CheckedQueue(c: Config, run: seq<Action>)
    requires Possible(c, run)
    ensures var s := Reach(c, run);
            s.importer.Offering? ==>
              s.importer.q <= 10 * c.batchSize && |s.writer.queue| <= s.importer.q + LiveSince(c, run)
  {
    if run != [] {
      var n := |run| - 1;
      CheckedQueue(c, run[..n]);
      ImporterMoves(c, Reach(c, run[..n]), run[n]);
      QueueGrowth(c, Reach(c, run[..n]), run[n]);
      if run[n].Check? {
        PlacesUntouched(c, Reach(c, run[..n]), run[n]);
      }
    }
  }

  /**
   * The write queue never exceeds its capacity; and right after a restored packet enters it holds at most
   * 10 * batchSize + 1 packets beside the live ones that slipped in between the importer's check and its offer.
   */
  lemma QueueStaysBounded(c: Config, run: seq<Action>)
    requires Possible(c, run)
    ensures |Reach(c, run).writer.queue| <= 100000 && |Reach(c, run).writer.queue| <= 100 * c.batchSize
    ensures run != [] && run[|run| - 1].OfferRestored? ==>
              var front := run[..|run| - 1];
              |Reach(c, run).writer.queue| <= 10 * c.batchSize + 1 + LiveSince(c, front)
  {
    RunKeepsInv(c, run);
    if run != [] {
      CheckedQueue(c, run[..|run| - 1]);
      QueueGrowth(c, Reach(c, run[..|run| - 1]), run[|run| - 1]);
    }
  }

  // ---------- contents ----------

  /** Nothing is on its way any more. */
  ghost predicate AtRest(s: State) {
    && s.writer.queue == [] && s.writer.stage.Waiting? && s.book.overflow == {}
    && s.disk.backup == [] && s.disk.open == []
    && s.disk.files == map[] && s.disk.unreadable == map[]
  }

  /**
   * Whatever failed, was replayed in part or in whole, or was shut down and restarted: packets_time and packets_mmsi
   * hold what one pass over the stored packets would have written, and beside that only rows of batches that failed
   * after some of their rows were written.
   */
  lemma RowsAreBetween(c: Config, run: seq<Action>, es: seq<Event>, fs: seq<Event>, t: Table, k: Key)
    requires Possible(c, run) && IsPlain(t) && k.table == t
    requires Packets(es) == PacketsOf(Reach(c, run).writer.stored)
    requires Packets(fs) == PacketsOf(Reach(c, run).writer.stored + Reach(c, run).writer.touched)
    requires Faithful(c.lib, Packets(fs))
    ensures var low, rows := Written(c.lib, c.cell10Enabled, es), Reach(c, run).writer.rows;
            k in low ==> k in rows && rows[k] == low[k]
    ensures var high, rows := Written(c.lib, c.cell10Enabled, fs), Reach(c, run).writer.rows;
            k in rows ==> k in high && high[k] == rows[k]
  {
    var s := Reach(c, run);
    RunKeepsInv(c, run);
    OnlineHolds(c.lib, c.cell10Enabled, es);
    OnlineHolds(c.lib, c.cell10Enabled, fs);
    PacketsOfJoin(s.writer.stored, s.writer.touched);
    if k in Written(c.lib, c.cell10Enabled, es) {
      RowIsDetermined(c.lib, Written(c.lib, c.cell10Enabled, es), s.writer.rows, Packets(es), Packets(fs), k);
    }
    if k in s.writer.rows {
      RowIsDetermined(c.lib, s.writer.rows, Written(c.lib, c.cell10Enabled, fs), Packets(fs), Packets(fs), k);
    }
  }

  /** If all that failed after writing some rows is stored by now, the contents are those of one pass. */
  lemma RowsAreOfStoredPackets(c: Config, run: seq<Action>, es: seq<Event>, t: Table)
    requires Possible(c, run) && IsPlain(t) && Faithful(c.lib, PacketsOf(Reach(c, run).writer.stored))
    requires Reach(c, run).writer.touched <= Reach(c, run).writer.stored
    requires Packets(es) == PacketsOf(Reach(c, run).writer.stored)
    ensures OfTable(Reach(c, run).writer.rows, t) == OfTable(Written(c.lib, c.cell10Enabled, es), t)
  {
    var s := Reach(c, run);
    RunKeepsInv(c, run);
    assert s.writer.stored + s.writer.touched == s.writer.stored;
    OnlineHolds(c.lib, c.cell10Enabled, es);
    ContentsAreDetermined(c.lib, s.writer.rows, Written(c.lib, c.cell10Enabled, es), PacketsOf(s.writer.stored), t);
  }

  /**
   * Once at rest, without a loss, the contents are as if each received packet had been written once: also when restores
   * were cut short by shutdowns and their files replayed in whole after a restart.
   */
  lemma AsIfWrittenOnce(c: Config, run: seq<Action>, es: seq<Event>, t: Table)
    requires Possible(c, run) && IsPlain(t) && AtRest(Reach(c, run)) && Reach(c, run).book.lost == {}
    requires Packets(es) == PacketsOf(Reach(c, run).book.received) && Faithful(c.lib, Packets(es))
    ensures OfTable(Reach(c, run).writer.rows, t) == OfTable(Written(c.lib, c.cell10Enabled, es), t)
  {
    RestIsStored(c, run);
    RunKeepsInv(c, run);
    RowsAreOfStoredPackets(c, run, es, t);
  }

  /** At rest, without a loss, all that was received is stored. */
  lemma RestIsStored(c: Config, run: seq<Action>)
    requires Possible(c, run) && AtRest(Reach(c, run)) && Reach(c, run).book.lost == {}
    ensures Reach(c, run).writer.stored == Reach(c, run).book.received
  {
    RunKeepsInv(c, run);
    var s := Reach(c, run);
    forall i ensures i in s.writer.stored <==> i in s.book.received {
      assert i in s.book.received <==> Somewhere(s, i);
    }
  }

  /**
   * Whatever was replayed, expired or restarted: a stored packet with a position of its own has its row, with its own
   * text, in packets_area_cell1 under the cell of that position; at rest and without a loss so has every received one.
   */
  lemma OwnCellIsKept(c: Config, run: seq<Action>, i: Item)
    requires Possible(c, run)
    requires i in Reach(c, run).writer.stored
             || (AtRest(Reach(c, run)) && Reach(c, run).book.lost == {} && i in Reach(c, run).book.received)
    requires Faithful(c.lib, PacketsOf(Reach(c, run).writer.stored + Reach(c, run).writer.touched))
    requires i.packet.time > 0 && Mmsi(i.packet) > 0 && !Throws(i.packet) && HasPosition(i.packet)
    ensures var row := Row(c.lib, PacketsAreaCell1, c.lib.cell1(i.packet.message.value.position.value), i.packet);
            row.key in Reach(c, run).writer.rows && Reach(c, run).writer.rows[row.key] == i.packet.raw
  {
    var s, p := Reach(c, run), i.packet;
    RunKeepsInv(c, run);
    if i !in s.writer.stored {
      RestIsStored(c, run);
    }
    var row := Row(c.lib, PacketsAreaCell1, c.lib.cell1(p.message.value.position.value), p);
    PacketsOfJoin(s.writer.stored, s.writer.touched);
    assert p in PacketsOf(s.writer.stored) && Leaves(c.lib, p, row.key);
    LeftRowIsOwn(c.lib, s.writer.rows, PacketsOf(s.writer.stored),
                 PacketsOf(s.writer.stored + s.writer.touched), p, row.key);
  }
}
