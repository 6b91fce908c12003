/** What every interleaving of the archiver keeps. */
module ArchiverSafety {
  import opened Wrappers
  import opened AisPackets
  import opened Tables
  import opened PositionTracking
  import opened OnlineWriter
  import opened Replay
  import opened Archiver

  /** The item is in the hands of the batch writer. */
  ghost predicate InBatch(stage: Stage, i: Item) {
    (stage.Preparing? && i in stage.items) || (stage.Failing? && i in stage.rest)
  }

  /** A copy of the item is in memory, in the store, in the open backup file, or was lost. */
  ghost predicate InHands(s: State, i: Item) {
    || i in s.writer.queue || InBatch(s.writer.stage, i) || i in s.writer.stored
    || i in s.book.overflow || i in s.disk.backup || i in s.disk.open || i in s.book.lost
  }

  /** A copy of the item is in a closed file other than the given backup file. */
  ghost predicate InFiles(s: State, f: int, i: Item) {
    || (exists g :: g in s.disk.files && g != f && i in s.disk.files[g])
    || (exists g :: g in s.disk.unreadable && i in s.disk.unreadable[g])
  }

  /** A copy of the item is somewhere other than in the given backup file. */
  ghost predicate Elsewhere(s: State, f: int, i: Item) {
    InHands(s, i) || InFiles(s, f, i)
  }

  /** A copy of the item is somewhere: no backup file is numbered -1. */
  ghost predicate Somewhere(s: State, i: Item) {
    Elsewhere(s, -1, i)
  }

  /** Every item in the system was received, and every received item is still accounted for. */
  ghost predicate Accounted(s: State) {
    forall i :: i in s.book.received <==> Somewhere(s, i)
  }

  /** What the importer has read of its file is also elsewhere. */
  ghost predicate Restored(s: State) {
    s.importer.Reading? || s.importer.Offering? ==>
      && InFile(s)
      && (s.importer.Offering? ==> s.importer.pos < |s.disk.files[s.importer.file]|)
      && forall k :: 0 <= k < s.importer.pos ==> Elsewhere(s, s.importer.file, s.disk.files[s.importer.file][k])
  }

  ghost predicate FilesNumbered(s: State) {
    && (forall f :: f in s.disk.files ==> f < s.disk.nextFile)
    && (forall f :: f in s.disk.unreadable ==> f < s.disk.nextFile)
    && s.disk.files.Keys !! s.disk.unreadable.Keys
  }

  ghost predicate ItemsNumbered(s: State) {
    |s.book.received| == s.book.nextId && forall i :: i in s.book.received ==> i.id < s.book.nextId
  }

  ghost function PacketsOf(items: set<Item>): set<Packet> {
    set i | i in items :: i.packet
  }

  /**
   * The store holds the rows the stored items leave whatever was tracked, and no rows but those of the stored items and
   * of failed batches; the batch being prepared has the statements of the items handled so far.
   */
  ghost predicate RowsMatch(c: Config, s: State) {
    && HoldsBetween(c.lib, s.writer.rows, PacketsOf(s.writer.stored), PacketsOf(s.writer.stored + s.writer.touched))
    && (s.writer.stage.Preparing? ==>
          && s.writer.stage.done <= |s.writer.stage.items|
          && InsertsExactly(c.lib, s.writer.stage.statements,
                            PacketsOf(Items(s.writer.stage.items[..s.writer.stage.done]))))
  }

  ghost predicate Inv(c: Config, s: State) {
    && Accounted(s) && Restored(s) && FilesNumbered(s) && ItemsNumbered(s) && RowsMatch(c, s)
    && s.writer.touched <= s.book.received && |s.writer.queue| <= c.Capacity()
  }

  // ---------- accounting ----------

  /** Steps that move no item. */
  ghost predicate MovesNothing(a: Action) {
    a.Handle? || a.Expire? || a.Scan? || a.EndScan? || a.OpenFile? || a.Check? || a.KeepFile? || a.Abandon? || a.Resume?
    || a.Shutdown? || a.Restart? || (a.Unreadable? && !a.renamed)
  }

  /** Steps of the receiving threads and of the batch writer that move items. */
  ghost predicate MovesIncoming(a: Action) {
    a.Receive? || a.OfferOverflow? || a.TakeBatch? || a.Succeed? || a.FailValidation? || a.Fail? || a.OfferFailed?
  }

  /** Steps that leave the places of all items alone. */
  lemma PlacesUntouched(c: Config, s: State, a: Action)
    requires Enabled(c, s, a) && MovesNothing(a)
    ensures var s' := Do(c, s, a);
            && s'.writer.queue == s.writer.queue && s'.writer.stored == s.writer.stored
            && s'.book.overflow == s.book.overflow && s'.disk.backup == s.disk.backup
            && s'.disk.open == s.disk.open && s'.book.lost == s.book.lost
    ensures SameFiles(s, Do(c, s, a))
    ensures forall i :: InBatch(Do(c, s, a).writer.stage, i) <==> InBatch(s.writer.stage, i)
  {
  }

  ghost predicate SameFiles(s: State, s': State) {
    s'.disk.files == s.disk.files && s'.disk.unreadable == s.disk.unreadable && s'.disk.nextFile == s.disk.nextFile
  }

  ghost predicate QueueFits(c: Config, s: State, s': State) {
    |s'.writer.queue| <= |s.writer.queue| || |s'.writer.queue| <= c.Capacity()
  }

  /** Nothing is written or prepared for writing; a prepared batch may be dropped. */
  ghost predicate SameRows(s: State, s': State) {
    && s'.writer.rows == s.writer.rows && s'.writer.stored == s.writer.stored && s'.writer.touched == s.writer.touched
    && (s'.writer.stage.Preparing? ==> s'.writer.stage == s.writer.stage)
  }

  lemma ReceiveMoves(c: Config, s: State, p: Packet, i: Item)
    requires Enabled(c, s, Receive(p))
    ensures InHands(Do(c, s, Receive(p)), i) <==> InHands(s, i) || i == Item(s.book.nextId, p)
    ensures SameFiles(s, Do(c, s, Receive(p))) && QueueFits(c, s, Do(c, s, Receive(p)))
    ensures SameRows(s, Do(c, s, Receive(p)))
  {
    if |s.writer.queue| < c.Capacity() {} else {}
  }

  lemma OfferOverflowMoves(c: Config, s: State, item: Item, i: Item)
    requires Enabled(c, s, OfferOverflow(item))
    ensures InHands(Do(c, s, OfferOverflow(item)), i) <==> InHands(s, i)
    ensures SameFiles(s, Do(c, s, OfferOverflow(item))) && QueueFits(c, s, Do(c, s, OfferOverflow(item)))
    ensures SameRows(s, Do(c, s, OfferOverflow(item)))
  {
    if |s.disk.backup| < c.backupCapacity {} else {}
  }

  lemma TakeBatchMoves(c: Config, s: State, n: nat, i: Item)
    requires Enabled(c, s, TakeBatch(n))
    ensures InHands(Do(c, s, TakeBatch(n)), i) <==> InHands(s, i)
    ensures SameFiles(s, Do(c, s, TakeBatch(n))) && QueueFits(c, s, Do(c, s, TakeBatch(n)))
  {
    assert s.writer.queue == s.writer.queue[..n] + s.writer.queue[n..];
  }

  lemma SucceedMoves(c: Config, s: State, i: Item)
    requires Enabled(c, s, Succeed)
    ensures InHands(Do(c, s, Succeed), i) <==> InHands(s, i)
    ensures SameFiles(s, Do(c, s, Succeed)) && QueueFits(c, s, Do(c, s, Succeed))
  {
  }

  lemma FailValidationMoves(c: Config, s: State, i: Item)
    requires Enabled(c, s, FailValidation)
    ensures InHands(Do(c, s, FailValidation), i) <==> InHands(s, i)
    ensures SameFiles(s, Do(c, s, FailValidation)) && QueueFits(c, s, Do(c, s, FailValidation))
    ensures SameRows(s, Do(c, s, FailValidation))
  {
  }

  lemma FailMoves(c: Config, s: State, landed: seq<nat>, i: Item)
    requires Enabled(c, s, Fail(landed))
    ensures InHands(Do(c, s, Fail(landed)), i) <==> InHands(s, i)
    ensures SameFiles(s, Do(c, s, Fail(landed))) && QueueFits(c, s, Do(c, s, Fail(landed)))
  {
  }

  lemma OfferFailedMoves(c: Config, s: State, i: Item)
    requires Enabled(c, s, OfferFailed)
    ensures InHands(Do(c, s, OfferFailed), i) <==> InHands(s, i)
    ensures SameFiles(s, Do(c, s, OfferFailed)) && QueueFits(c, s, Do(c, s, OfferFailed))
    ensures SameRows(s, Do(c, s, OfferFailed))
  {
    assert InBatch(Do(c, s, OfferFailed).writer.stage, i) || i == s.writer.stage.rest[0]
      <==> InBatch(s.writer.stage, i) by {
      assert s.writer.stage.rest == [s.writer.stage.rest[0]] + s.writer.stage.rest[1..];
    }
    if |s.disk.backup| < c.backupCapacity {} else {}
  }

  /** Receiving, batching and failing move items between hands and touch no closed file. */
  lemma IncomingMoves(c: Config, s: State, a: Action, i: Item)
    requires Enabled(c, s, a) && MovesIncoming(a)
    ensures InHands(Do(c, s, a), i) <==> InHands(s, i) || (a.Receive? && i == Item(s.book.nextId, a.packet))
    ensures SameFiles(s, Do(c, s, a)) && QueueFits(c, s, Do(c, s, a))
    ensures !a.TakeBatch? && !a.Succeed? && !a.Fail? ==> SameRows(s, Do(c, s, a))
  {
    match a
    case Receive(p) => ReceiveMoves(c, s, p, i);
    case OfferOverflow(item) => OfferOverflowMoves(c, s, item, i);
    case TakeBatch(n) => TakeBatchMoves(c, s, n, i);
    case Succeed => SucceedMoves(c, s, i);
    case FailValidation => FailValidationMoves(c, s, i);
    case Fail(landed) => FailMoves(c, s, landed, i);
    case OfferFailed => OfferFailedMoves(c, s, i);
  }

  lemma OutgoingStays(c: Config, s: State, a: Action, f: int, i: Item)
    requires Enabled(c, s, a) && !MovesNothing(a) && !MovesIncoming(a) && FilesNumbered(s) && f < s.disk.nextFile
    requires a.Delete? || (a.Unreadable? && f != -1) ==> f == s.importer.file
    requires Elsewhere(s, f, i)
    ensures Elsewhere(Do(c, s, a), f, i)
  {
    var s' := Do(c, s, a);
    if g :| g in s.disk.files && g != f && i in s.disk.files[g] {
      if a.Unreadable? && g == s.importer.file {
        assert g in s'.disk.unreadable && i in s'.disk.unreadable[g];
      } else {
        assert g in s'.disk.files && i in s'.disk.files[g];
      }
    } else if g :| g in s.disk.unreadable && i in s.disk.unreadable[g] {
      assert g in s'.disk.unreadable && i in s'.disk.unreadable[g];
    } else if a.WriteBackup? {
      assert s.disk.backup == [s.disk.backup[0]] + s.disk.backup[1..];
    } else if a.CloseBackup? && i in s.disk.open {
      assert s.disk.nextFile in s'.disk.files && i in s'.disk.files[s.disk.nextFile];
    }
  }

  /** No step but a deletion takes the last copy of an item away, whether or not the file under restoration counts. */
  lemma ItemStays(c: Config, s: State, a: Action, f: int, i: Item)
    requires Enabled(c, s, a) && FilesNumbered(s) && f < s.disk.nextFile
    requires a.Delete? || (a.Unreadable? && f != -1) ==> f == s.importer.file
    requires Elsewhere(s, f, i)
    ensures Elsewhere(Do(c, s, a), f, i)
  {
    if MovesNothing(a) {
      PlacesUntouched(c, s, a);
    } else if MovesIncoming(a) {
      IncomingMoves(c, s, a, i);
    } else {
      OutgoingStays(c, s, a, f, i);
    }
  }

  lemma OutgoingWasThere(c: Config, s: State, a: Action, i: Item)
    requires Enabled(c, s, a) && !MovesNothing(a) && !MovesIncoming(a) && Somewhere(Do(c, s, a), i)
    ensures Somewhere(s, i)
  {
    var s' := Do(c, s, a);
    if g :| g in s'.disk.files && i in s'.disk.files[g] {
      assert a.CloseBackup? || (g in s.disk.files && i in s.disk.files[g]);
    } else if g :| g in s'.disk.unreadable && i in s'.disk.unreadable[g] {
      assert (g in s.disk.unreadable && i in s.disk.unreadable[g])
        || (a.Unreadable? && g in s.disk.files && i in s.disk.files[g]);
    } else if a.OfferRestored? && i == s.disk.files[s.importer.file][s.importer.pos] {
      assert i in s.disk.files[s.importer.file];
    }
  }

  /** No step conjures an item: what is somewhere after it was somewhere before, or is received in it. */
  lemma ItemWasThere(c: Config, s: State, a: Action, i: Item)
    requires Enabled(c, s, a) && Somewhere(Do(c, s, a), i)
    ensures Somewhere(s, i) || (a.Receive? && i == Item(s.book.nextId, a.packet))
  {
    if MovesNothing(a) {
      PlacesUntouched(c, s, a);
    } else if MovesIncoming(a) {
      IncomingMoves(c, s, a, i);
    } else {
      OutgoingWasThere(c, s, a, i);
    }
  }

  lemma AccountingKept(c: Config, s: State, a: Action)
    requires Enabled(c, s, a) && Accounted(s) && Restored(s) && FilesNumbered(s)
    ensures Accounted(Do(c, s, a))
  {
    var s' := Do(c, s, a);
    ReceivedGrows(c, s, a);
    if a.Receive? {
      ReceiveMoves(c, s, a.packet, Item(s.book.nextId, a.packet));
    }
    forall i ensures i in s'.book.received <==> Somewhere(s', i) {
      if Somewhere(s', i) {
        ItemWasThere(c, s, a, i);
      }
      if i in s.book.received {
        if a.Delete? {
          DeletedItemIsElsewhere(s, s.importer.file, i);
          ItemStays(c, s, a, s.importer.file, i);
        } else {
          ItemStays(c, s, a, -1, i);
        }
      }
    }
  }

  /** A file that is restored to its end holds no last copy. */
  lemma DeletedItemIsElsewhere(s: State, f: nat, i: Item)
    requires Somewhere(s, i) && f in s.disk.files
    requires forall k :: 0 <= k < |s.disk.files[f]| ==> Elsewhere(s, f, s.disk.files[f][k])
    ensures Elsewhere(s, f, i)
  {
    if !InHands(s, i) && i in s.disk.files[f] {
      var k :| 0 <= k < |s.disk.files[f]| && s.disk.files[f][k] == i;
    }
  }

  lemma ReceivedGrows(c: Config, s: State, a: Action)
    requires Enabled(c, s, a)
    ensures Do(c, s, a).book.received
            == s.book.received + if a.Receive? then {Item(s.book.nextId, a.packet)} else {}
    ensures Do(c, s, a).book.nextId == if a.Receive? then s.book.nextId + 1 else s.book.nextId
  {
  }

  lemma NumbersKept(c: Config, s: State, a: Action)
    requires Enabled(c, s, a) && FilesNumbered(s) && ItemsNumbered(s)
    ensures FilesNumbered(Do(c, s, a)) && ItemsNumbered(Do(c, s, a))
  {
    ReceivedGrows(c, s, a);
    FilesGrow(c, s, a);
    if a.Receive? {
      assert Item(s.book.nextId, a.packet) !in s.book.received;
    }
  }

  /** The closed files after a step. */
  lemma FilesGrow(c: Config, s: State, a: Action)
    requires Enabled(c, s, a)
    ensures var s' := Do(c, s, a);
            && s'.disk.files == (if a.CloseBackup? then s.disk.files[s.disk.nextFile := s.disk.open]
                                 else if a.Delete? || (a.Unreadable? && a.renamed) then s.disk.files - {s.importer.file}
                                 else s.disk.files)
            && s'.disk.unreadable == (if a.Unreadable? && a.renamed then
                                        s.disk.unreadable[s.importer.file := s.disk.files[s.importer.file]]
                                      else s.disk.unreadable)
            && s'.disk.nextFile == (if a.CloseBackup? then s.disk.nextFile + 1 else s.disk.nextFile)
  {
    if MovesNothing(a) {
      PlacesUntouched(c, s, a);
    } else if MovesIncoming(a) {
      IncomingMoves(c, s, a, ANY);
    }
  }

  /** Where the importer is after a step. */
  lemma ImporterMoves(c: Config, s: State, a: Action)
    requires Enabled(c, s, a)
    ensures var s' := Do(c, s, a);
            match a
            case OpenFile(f) => s'.importer == Reading(f, 0)
            case Check => s'.importer == if |s.writer.queue| > 10 * c.batchSize then s.importer
                                         else Offering(s.importer.file, s.importer.pos, |s.writer.queue|)
            case OfferRestored =>
              var accepted := |s.writer.queue| < c.Capacity();
              && s'.importer == Reading(s.importer.file, s.importer.pos + if accepted then 1 else 0)
              && s'.writer.queue
                 == s.writer.queue + if accepted then [s.disk.files[s.importer.file][s.importer.pos]] else []
            case Scan | Resume => s'.importer == Scanning
            case EndScan | Restart => s'.importer == Idle
            case Delete | KeepFile | Unreadable(_) | Abandon => s'.importer == Pausing
            case _ => s'.importer == s.importer
  {
  }

  lemma RestoredKept(c: Config, s: State, a: Action)
    requires Enabled(c, s, a) && Restored(s) && FilesNumbered(s)
    ensures Restored(Do(c, s, a))
  {
    var s' := Do(c, s, a);
    ImporterMoves(c, s, a);
    FilesGrow(c, s, a);
    if (s'.importer.Reading? || s'.importer.Offering?) && !a.OpenFile? {
      var f := s'.importer.file;
      assert f in s.disk.files && s'.disk.files[f] == s.disk.files[f];
      forall k | 0 <= k < s'.importer.pos ensures Elsewhere(s', f, s'.disk.files[f][k]) {
        if k < s.importer.pos {
          ItemStays(c, s, a, f, s.disk.files[f][k]);
        } else {
          assert s'.disk.files[f][k] in s'.writer.queue;
        }
      }
    }
  }

  const ANY := Item(0, Packet("", 0, None))

  lemma QueueKept(c: Config, s: State, a: Action)
    requires Enabled(c, s, a) && |s.writer.queue| <= c.Capacity()
    ensures |Do(c, s, a).writer.queue| <= c.Capacity()
  {
    if MovesNothing(a) {
      PlacesUntouched(c, s, a);
    } else if MovesIncoming(a) {
      IncomingMoves(c, s, a, ANY);
    }
  }

  // ---------- rows ----------

  lemma PacketsOfJoin(some: set<Item>, other: set<Item>)
    ensures PacketsOf(some + other) == PacketsOf(some) + PacketsOf(other)
  {
    forall p | p in PacketsOf(some) + PacketsOf(other) ensures p in PacketsOf(some + other) {
      if i :| i in some && i.packet == p {
        assert i in some + other;
      } else {
        var i :| i in other && i.packet == p;
        assert i in some + other;
      }
    }
  }

  lemma HandleKeepsRows(c: Config, s: State)
    requires Enabled(c, s, Handle) && RowsMatch(c, s)
    ensures RowsMatch(c, Do(c, s, Handle))
  {
    var Preparing(items, done, statements) := s.writer.stage;
    var p := items[done].packet;
    var position := TargetPosition(s.writer.tracker, p);
    StatementsLeaveRows(c.lib, c.cell10Enabled, s.writer.tracker, p);
    InsertsJoin(c.lib, statements, Statements(c.lib, c.cell10Enabled, p, position),
                PacketsOf(Items(items[..done])), {p});
    OneMoreItem(items, done);
  }

  lemma OneMoreItem(items: seq<Item>, n: nat)
    requires n < |items|
    ensures PacketsOf(Items(items[..n + 1])) == PacketsOf(Items(items[..n])) + {items[n].packet}
  {
    assert items[..n + 1] == items[..n] + [items[n]];
    assert Items(items[..n + 1]) == Items(items[..n]) + {items[n]};
    PacketsOfJoin(Items(items[..n]), {items[n]});
    assert PacketsOf({items[n]}) == {items[n].packet};
  }

  lemma SucceedKeepsRows(c: Config, s: State)
    requires Enabled(c, s, Succeed) && RowsMatch(c, s)
    ensures RowsMatch(c, Do(c, s, Succeed))
  {
    var items := s.writer.stage.items;
    assert items[..s.writer.stage.done] == items;
    var written := Items(items) - Thrown(items);
    ThrowingLeavesNothing(c.lib, s.writer.stage.statements, items);
    ApplyHolds(c.lib, s.writer.rows, s.writer.stage.statements, PacketsOf(s.writer.stored),
               PacketsOf(s.writer.stored + s.writer.touched), PacketsOf(written), PacketsOf(written));
    PacketsOfJoin(s.writer.stored, written);
    PacketsOfJoin(s.writer.stored + s.writer.touched, written);
    assert s.writer.stored + s.writer.touched + written == s.writer.stored + written + s.writer.touched;
  }

  /** Whatever part of a failed batch was written, its rows are those of the batch's items. */
  lemma FailKeepsRows(c: Config, s: State, landed: seq<nat>)
    requires Enabled(c, s, Fail(landed)) && RowsMatch(c, s)
    ensures RowsMatch(c, Do(c, s, Fail(landed)))
  {
    var items := s.writer.stage.items;
    assert items[..s.writer.stage.done] == items;
    if landed != [] {
      var some := Picked(s.writer.stage.statements, landed);
      ApplyHolds(c.lib, s.writer.rows, some, PacketsOf(s.writer.stored),
                 PacketsOf(s.writer.stored + s.writer.touched), {}, PacketsOf(Items(items)));
      assert PacketsOf(s.writer.stored) + {} == PacketsOf(s.writer.stored);
      PacketsOfJoin(s.writer.stored + s.writer.touched, Items(items));
      assert s.writer.stored + s.writer.touched + Items(items) == s.writer.stored + (s.writer.touched + Items(items));
    }
  }

  lemma ThrowingLeavesNothing(lib: Library, statements: seq<Insert>, items: seq<Item>)
    requires InsertsExactly(lib, statements, PacketsOf(Items(items)))
    ensures InsertsExactly(lib, statements, PacketsOf(Items(items) - Thrown(items)))
  {
    var written := Items(items) - Thrown(items);
    forall ins | ins in statements
      ensures exists p :: p in PacketsOf(written) && CanLeave(lib, p, ins.key) && ins.aisdata == p.raw
    {
      var p :| p in PacketsOf(Items(items)) && CanLeave(lib, p, ins.key) && ins.aisdata == p.raw;
      var i :| i in Items(items) && i.packet == p;
      assert i in written;
    }
  }

  lemma RowsKept(c: Config, s: State, a: Action)
    requires Enabled(c, s, a) && RowsMatch(c, s)
    ensures RowsMatch(c, Do(c, s, a))
  {
    match a
    case Handle => HandleKeepsRows(c, s);
    case Succeed => SucceedKeepsRows(c, s);
    case Fail(landed) => FailKeepsRows(c, s, landed);
    case TakeBatch(n) =>
      assert s.writer.queue[..n][..0] == [];
      assert PacketsOf(Items([])) == {};
    case _ => RowsUntouched(c, s, a);
  }

  lemma RowsUntouched(c: Config, s: State, a: Action)
    requires Enabled(c, s, a) && !a.Handle? && !a.Succeed? && !a.TakeBatch? && !a.Fail?
    ensures SameRows(s, Do(c, s, a))
  {
    if MovesIncoming(a) {
      IncomingMoves(c, s, a, ANY);
    }
  }

  /** Only received items are in failed batches. */
  lemma TouchedKept(c: Config, s: State, a: Action)
    requires Enabled(c, s, a) && Accounted(s) && s.writer.touched <= s.book.received
    ensures Do(c, s, a).writer.touched <= Do(c, s, a).book.received
  {
    ReceivedGrows(c, s, a);
    if a.Fail? {
      forall i | i in s.writer.stage.items ensures i in s.book.received {
        assert Somewhere(s, i);
      }
    } else if a.Handle? || a.Succeed? || a.TakeBatch? {
    } else {
      RowsUntouched(c, s, a);
    }
  }

  // ---------- every run ----------

  lemma StepKeepsInv(c: Config, s: State, a: Action)
    requires Enabled(c, s, a) && Inv(c, s)
    ensures Inv(c, Do(c, s, a))
  {
    AccountingKept(c, s, a);
    RestoredKept(c, s, a);
    NumbersKept(c, s, a);
    RowsKept(c, s, a);
    TouchedKept(c, s, a);
    QueueKept(c, s, a);
  }

  lemma {:induction false} RunKeepsInv(c: Config, run: seq<Action>)
    requires Possible(c, run)
    ensures Inv(c, Reach(c, run))
  {
    if run != [] {
      var n := |run| - 1;
      RunKeepsInv(c, run[..n]);
      StepKeepsInv(c, Reach(c, run[..n]), run[n]);
    }
  }
}
