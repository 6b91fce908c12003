/** How packets flow through the archiver: what enters each queue, in which order it leaves, and why it is backed up. */
module ArchiverFlow {
  import opened AisPackets
  import opened PositionTracking
  import opened Archiver
  import opened ArchiverSafety

  /** The write queue has no room: it holds 100000 packets or a hundred batches. */
  ghost predicate QueueFull(c: Config, s: State) {
    |s.writer.queue| >= 100000 || |s.writer.queue| >= 100 * c.batchSize
  }

  // ---------- reception ----------

  /** A live packet goes to the end of the write queue; only if that is full it is held for the backup queue. */
  lemma ReceptionOffers(c: Config, s: State, p: Packet)
    ensures var s', item := Do(c, s, Receive(p)), Item(s.book.nextId, p);
            && s'.book.received == s.book.received + {item}
            && s'.writer.queue == (if QueueFull(c, s) then s.writer.queue else s.writer.queue + [item])
            && s'.book.overflow == (if QueueFull(c, s) then s.book.overflow + {item} else s.book.overflow)
            && s'.disk == s.disk && s'.book.lost == s.book.lost
  {
  }

  /** An item is turned away in this step: it is received while the write queue is full. */
  ghost predicate TurnedAway(c: Config, s: State, a: Action, i: Item) {
    a.Receive? && i == Item(s.book.nextId, a.packet) && QueueFull(c, s)
  }

  /** An item's batch fails in this step. */
  ghost predicate InFailedBatch(s: State, a: Action, i: Item) {
    a.Fail? && s.writer.stage.Preparing? && i in s.writer.stage.items
  }

  /** Nothing but a reception with a full write queue puts an item aside for the backup queue. */
  lemma OverflowHasCause(c: Config, s: State, a: Action, i: Item)
    requires Enabled(c, s, a)
    ensures i in Do(c, s, a).book.overflow && i !in s.book.overflow ==> TurnedAway(c, s, a, i)
  {
    if MovesNothing(a) {
      PlacesUntouched(c, s, a);
    }
  }

  /** The item is on its way to a backup file, in one, or in an unreadable one. */
  ghost predicate BackedUp(s: State, i: Item) {
    || i in s.book.overflow || (s.writer.stage.Failing? && i in s.writer.stage.rest)
    || i in s.disk.backup || i in s.disk.open || InFiles(s, -1, i)
  }

  lemma BackedUpInStep(c: Config, s: State, a: Action, i: Item)
    requires Enabled(c, s, a) && BackedUp(Do(c, s, a), i)
    ensures BackedUp(s, i) || TurnedAway(c, s, a, i) || InFailedBatch(s, a, i)
  {
    var s' := Do(c, s, a);
    FilesGrow(c, s, a);
    if g :| g in s'.disk.files && g != -1 && i in s'.disk.files[g] {
      assert a.CloseBackup? || (g in s.disk.files && i in s.disk.files[g]);
    } else if g :| g in s'.disk.unreadable && i in s'.disk.unreadable[g] {
      assert (g in s.disk.unreadable && i in s.disk.unreadable[g])
        || (a.Unreadable? && s.importer.file in s.disk.files && i in s.disk.files[s.importer.file]);
    } else if MovesNothing(a) {
      PlacesUntouched(c, s, a);
    }
  }

  /** The step of a run at which an item was turned away or its batch failed. */
  ghost predicate BackedUpAt(c: Config, run: seq<Action>, n: nat, i: Item)
    requires Possible(c, run)
  {
    n < |run| && Possible(c, run[..n])
    && (TurnedAway(c, Reach(c, run[..n]), run[n], i) || InFailedBatch(Reach(c, run[..n]), run[n], i))
  }

  /** Whatever is in the backup queue or a backup file was received with a full write queue, or its batch failed. */
  lemma {:induction false} BackupHasCause(c: Config, run: seq<Action>, i: Item)
    requires Possible(c, run) && BackedUp(Reach(c, run), i)
    ensures exists n: nat :: BackedUpAt(c, run, n, i)
  {
    if run != [] {
      var n := |run| - 1;
      if BackedUp(Reach(c, run[..n]), i) {
        BackupHasCause(c, run[..n], i);
        var k: nat :| BackedUpAt(c, run[..n], k, i);
        assert run[..n][..k] == run[..k];
        assert BackedUpAt(c, run, k, i);
      } else {
        BackedUpInStep(c, Reach(c, run[..n]), run[n], i);
        assert BackedUpAt(c, run, n, i);
      }
    }
  }

  // ---------- the write queue is first in, first out ----------

  /** What a step puts into the write queue: a live packet, or the next packet of the file being restored. */
  ghost function Entering(c: Config, s: State, a: Action): seq<Item>
    requires Enabled(c, s, a)
  {
    if QueueFull(c, s) then []
    else if a.Receive? then [Item(s.book.nextId, a.packet)]
    else if a.OfferRestored? then [s.disk.files[s.importer.file][s.importer.pos]]
    else []
  }

  ghost function Entered(c: Config, run: seq<Action>): seq<Item>
    requires Possible(c, run)
  {
    if run == [] then []
    else var n := |run| - 1; Entered(c, run[..n]) + Entering(c, Reach(c, run[..n]), run[n])
  }

  /** The batches taken so far, one after the other. */
  ghost function Taken(c: Config, run: seq<Action>): seq<Item>
    requires Possible(c, run)
  {
    if run == [] then []
    else
      var n := |run| - 1;
      Taken(c, run[..n]) + match run[n]
                           case TakeBatch(k) => Reach(c, run[..n]).writer.queue[..k]
                           case _ => []
  }

  lemma QueueStep(c: Config, s: State, a: Action)
    requires Enabled(c, s, a)
    ensures s.writer.queue + Entering(c, s, a)
            == (match a case TakeBatch(k) => s.writer.queue[..k] case _ => []) + Do(c, s, a).writer.queue
  {
    match a
    case Receive(p) => ReceptionOffers(c, s, p);
    case OfferRestored => ImporterMoves(c, s, a);
    case TakeBatch(k) => assert s.writer.queue == s.writer.queue[..k] + s.writer.queue[k..];
    case _ => QueueUntouched(c, s, a);
  }

  lemma QueueUntouched(c: Config, s: State, a: Action)
    requires Enabled(c, s, a) && !a.Receive? && !a.OfferRestored? && !a.TakeBatch?
    ensures Do(c, s, a).writer.queue == s.writer.queue
  {
    if MovesNothing(a) {
      PlacesUntouched(c, s, a);
    }
  }

  /** The write queue holds exactly what entered it and was not taken yet, in the order of entry. */
  lemma {:induction false} QueueIsFifo(c: Config, run: seq<Action>)
    requires Possible(c, run)
    ensures Entered(c, run) == Taken(c, run) + Reach(c, run).writer.queue
  {
    if run != [] {
      var n := |run| - 1;
      QueueIsFifo(c, run[..n]);
      var s := Reach(c, run[..n]);
      QueueStep(c, s, run[n]);
      var took := match run[n] case TakeBatch(k) => s.writer.queue[..k] case _ => [];
      Joined(Taken(c, run[..n]), s.writer.queue, Entering(c, s, run[n]), took, Reach(c, run).writer.queue);
    }
  }

  lemma Joined(a: seq<Item>, b: seq<Item>, c: seq<Item>, d: seq<Item>, e: seq<Item>)
    requires b + c == d + e
    ensures (a + b) + c == (a + d) + e
  {
    assert (a + b) + c == a + (b + c);
  }

  // ---------- the backup service is first in, first out ----------

  /** What a step puts into the backup queue: an item the write queue turned away or one of a failed batch. */
  ghost function Saving(c: Config, s: State, a: Action): seq<Item>
    requires Enabled(c, s, a)
  {
    if |s.disk.backup| >= c.backupCapacity then []
    else if a.OfferOverflow? then [a.item]
    else if a.OfferFailed? then [s.writer.stage.rest[0]]
    else []
  }

  ghost function Saved(c: Config, run: seq<Action>): seq<Item>
    requires Possible(c, run)
  {
    if run == [] then []
    else var n := |run| - 1; Saved(c, run[..n]) + Saving(c, Reach(c, run[..n]), run[n])
  }

  /** The contents of the files closed so far, one after the other. */
  ghost function Closed(c: Config, run: seq<Action>): seq<Item>
    requires Possible(c, run)
  {
    if run == [] then []
    else
      var n := |run| - 1;
      Closed(c, run[..n])
      + if run[n].CloseBackup? then Reach(c, run).disk.files[Reach(c, run[..n]).disk.nextFile] else []
  }

  lemma BackupStep(c: Config, s: State, a: Action)
    requires Enabled(c, s, a)
    ensures var s' := Do(c, s, a);
            s.disk.open + s.disk.backup + Saving(c, s, a)
            == (if a.CloseBackup? then s'.disk.files[s.disk.nextFile] else []) + (s'.disk.open + s'.disk.backup)
  {
    match a
    case WriteBackup => assert s.disk.backup == [s.disk.backup[0]] + s.disk.backup[1..];
    case OfferOverflow(item) => assert s.disk.open + (s.disk.backup + [item]) == s.disk.open + s.disk.backup + [item];
    case OfferFailed =>
      var i := s.writer.stage.rest[0];
      assert s.disk.open + (s.disk.backup + [i]) == s.disk.open + s.disk.backup + [i];
    case CloseBackup =>
    case _ => BackupUntouched(c, s, a);
  }

  lemma BackupUntouched(c: Config, s: State, a: Action)
    requires Enabled(c, s, a) && !a.WriteBackup? && !a.OfferOverflow? && !a.OfferFailed? && !a.CloseBackup?
    ensures Do(c, s, a).disk.backup == s.disk.backup && Do(c, s, a).disk.open == s.disk.open
  {
    if MovesNothing(a) {
      PlacesUntouched(c, s, a);
    }
  }

  /** What was saved is in the closed files, the open file and the backup queue, each once and in order. */
  lemma {:induction false} BackupIsFifo(c: Config, run: seq<Action>)
    requires Possible(c, run)
    ensures Saved(c, run) == Closed(c, run) + (Reach(c, run).disk.open + Reach(c, run).disk.backup)
  {
    if run != [] {
      var n := |run| - 1;
      BackupIsFifo(c, run[..n]);
      var s, s' := Reach(c, run[..n]), Reach(c, run);
      BackupStep(c, s, run[n]);
      Joined(Closed(c, run[..n]), s.disk.open + s.disk.backup, Saving(c, s, run[n]),
             if run[n].CloseBackup? then s'.disk.files[s.disk.nextFile] else [], s'.disk.open + s'.disk.backup);
    }
  }

  // ---------- the tracker ----------

  /** What a step means for the tracker: a packet is handled, entries expire, or a restart forgets all. */
  ghost function NewEvents(s: State, a: Action): seq<Event> {
    match a
    case Handle =>
      if s.writer.stage.Preparing? && s.writer.stage.done < |s.writer.stage.items| then
        [Received(s.writer.stage.items[s.writer.stage.done].packet)]
      else []
    case Expire(mmsis) => [Expired(mmsis)]
    case Restart => [Expired(s.writer.tracker.Keys)]
    case _ => []
  }

  ghost function EventsOf(c: Config, run: seq<Action>): seq<Event>
    requires Possible(c, run)
  {
    if run == [] then []
    else var n := |run| - 1; EventsOf(c, run[..n]) + NewEvents(Reach(c, run[..n]), run[n])
  }

  lemma TrackerStep(c: Config, s: State, a: Action)
    requires Enabled(c, s, a)
    ensures Do(c, s, a).writer.tracker
            == match a
               case Handle => Step(s.writer.tracker, Received(s.writer.stage.items[s.writer.stage.done].packet))
               case Expire(mmsis) => Step(s.writer.tracker, Expired(mmsis))
               case Restart => map[]
               case _ => s.writer.tracker
  {
  }

  lemma AfterOne(es: seq<Event>, e: Event)
    ensures After(es + [e]) == Step(After(es), e)
  {
    assert (es + [e])[..|es|] == es;
  }

  lemma TrackerNext(c: Config, s: State, a: Action, es: seq<Event>)
    requires Enabled(c, s, a) && s.writer.tracker == After(es)
    ensures Do(c, s, a).writer.tracker == After(es + NewEvents(s, a))
  {
    TrackerStep(c, s, a);
    var added := NewEvents(s, a);
    if added == [] {
      assert es + added == es;
    } else {
      AfterOne(es, added[0]);
      assert added == [added[0]];
      assert a.Restart? ==> s.writer.tracker - s.writer.tracker.Keys == map[];
    }
  }

  /** The tracker is that of one pass over the packets handled, whatever the batches and their outcomes. */
  lemma {:induction false} TrackerOfRun(c: Config, run: seq<Action>)
    requires Possible(c, run)
    ensures Reach(c, run).writer.tracker == After(EventsOf(c, run))
  {
    if run != [] {
      var n := |run| - 1;
      TrackerOfRun(c, run[..n]);
      TrackerNext(c, Reach(c, run[..n]), run[n], EventsOf(c, run[..n]));
    }
  }

  // ---------- back-pressure ----------

  /**
   * When the importer goes on: it starts a scan only while less than a batch waits, opens files and looks at the queue
   * only until a shutdown, and after a file waits until no more than a batch is outstanding.
   */
  lemma ImporterGoesOn(c: Config, s: State)
    ensures Enabled(c, s, Scan) <==> s.importer == Idle && s.running && |s.writer.queue| < c.batchSize
    ensures Enabled(c, s, EndScan) <==> s.importer == Scanning
    ensures forall f :: Enabled(c, s, OpenFile(f)) <==> s.importer == Scanning && s.running && f in s.disk.files
    ensures Enabled(c, s, Resume) <==> s.importer == Pausing && (s.running ==> |s.writer.queue| <= c.batchSize)
  {
  }

  /**
   * Within a file: while packets are left the importer offers the next one if at most ten batches wait, stops after a
   * packet if there was a shutdown, and deletes the file or fails to only when none are left.
   */
  lemma ImporterReads(c: Config, s: State, f: nat, pos: nat)
    requires s.importer == Reading(f, pos) && f in s.disk.files && pos <= |s.disk.files[f]|
    ensures Enabled(c, s, Check) <==> s.running && pos < |s.disk.files[f]|
    ensures Enabled(c, s, Check) ==> (Do(c, s, Check).importer.Offering? <==> |s.writer.queue| <= 10 * c.batchSize)
    ensures Enabled(c, s, Delete) <==> pos == |s.disk.files[f]|
    ensures Enabled(c, s, KeepFile) <==> pos == |s.disk.files[f]|
    ensures Enabled(c, s, Abandon) <==> !s.running && (pos > 0 || |s.disk.files[f]| > 0)
    ensures Enabled(c, s, Unreadable(true)) && Enabled(c, s, Unreadable(false))
  {
  }

  /** The batch writer takes any number of packets up to a batch as soon as it waits, and sends a batch once handled. */
  lemma WriterGoesOn(c: Config, s: State, n: nat, landed: seq<nat>)
    ensures Enabled(c, s, TakeBatch(n))
            <==> s.writer.stage == Waiting && 1 <= n <= c.batchSize && n <= |s.writer.queue|
    ensures s.writer.stage.Preparing? ==>
              (Enabled(c, s, Succeed) <==> s.writer.stage.done == |s.writer.stage.items|)
    ensures s.writer.stage.Preparing? ==>
              (Enabled(c, s, FailValidation) <==> s.writer.stage.done == |s.writer.stage.items|)
    ensures s.writer.stage.Preparing? ==>
              (Enabled(c, s, Fail(landed)) <==> s.writer.stage.done == |s.writer.stage.items|)
  {
  }
}
