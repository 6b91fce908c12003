/** Nothing gets stuck: from every reachable state the archiver can bring all it holds into the store. */
module ArchiverProgress {
  import opened OnlineWriter
  import opened Archiver
  import opened ArchiverSafety

  // ---------- paths ----------

  /** The actions lead from one state to another. */
  ghost predicate Leads(c: Config, s: State, path: seq<Action>, t: State)
    decreases |path|
  {
    if path == [] then s == t
    else Enabled(c, s, path[0]) && Leads(c, Do(c, s, path[0]), path[1..], t)
  }

  lemma {:induction false} Join(c: Config, s: State, p: seq<Action>, t: State, q: seq<Action>, u: State)
    requires Leads(c, s, p, t) && Leads(c, t, q, u)
    ensures Leads(c, s, p + q, u)
    decreases |p|
  {
    if p == [] {
      assert p + q == q;
    } else {
      Join(c, Do(c, s, p[0]), p[1..], t, q, u);
      assert (p + q)[1..] == p[1..] + q;
    }
  }

  /** One more step. */
  lemma Then(c: Config, s: State, path: seq<Action>, t: State, a: Action) returns (longer: seq<Action>, u: State)
    requires Leads(c, s, path, t) && Enabled(c, t, a)
    ensures Leads(c, s, longer, u) && u == Do(c, t, a)
  {
    u := Do(c, t, a);
    assert [a][1..] == [];
    Join(c, s, path, t, [a], u);
    longer := path + [a];
  }

  lemma {:induction false} PathIsPossible(c: Config, run: seq<Action>, path: seq<Action>, t: State, all: seq<Action>)
    requires Possible(c, run) && Leads(c, Reach(c, run), path, t) && all == run + path
    ensures Possible(c, all) && Reach(c, all) == t
    decreases |path|
  {
    if path == [] {
      assert all == run;
    } else {
      Extend(c, run, path[0]);
      Shifted(run, path);
      PathIsPossible(c, run + [path[0]], path[1..], t, all);
    }
  }

  lemma Shifted(run: seq<Action>, path: seq<Action>)
    requires path != []
    ensures run + path == run + [path[0]] + path[1..]
  {
    assert path == [path[0]] + path[1..];
  }

  /** No item is lost on the way but those whose handling throws. */
  ghost predicate LosesOnlyThrown(s: State, t: State) {
    forall i :: i in t.book.lost ==> i in s.book.lost || Throws(i.packet)
  }

  /** What the batch writer and the backup service leave alone. */
  ghost predicate SameRestorer(s: State, t: State) {
    t.running == s.running && t.importer == s.importer && t.book.overflow == s.book.overflow
  }

  ghost predicate SameDisk(s: State, t: State) {
    t.disk == s.disk
  }

  // ---------- the backup service ----------

  lemma {:induction false} WriteAll(c: Config, s: State) returns (path: seq<Action>, t: State)
    ensures Leads(c, s, path, t) && t == s.(disk := s.disk.(backup := [], open := s.disk.open + s.disk.backup))
    decreases |s.disk.backup|
  {
    if s.disk.backup == [] {
      path, t := [], s;
      assert s.disk.open + [] == s.disk.open;
    } else {
      var first, u := Then(c, s, [], s, WriteBackup);
      var rest;
      rest, t := WriteAll(c, u);
      Join(c, s, first, u, rest, t);
      path := first + rest;
      assert u.disk.open + u.disk.backup == s.disk.open + s.disk.backup;
    }
  }

  /** The backup queue and the open file are emptied into a closed file. */
  lemma Flush(c: Config, s: State) returns (path: seq<Action>, t: State)
    ensures Leads(c, s, path, t) && t.disk.backup == [] && t.disk.open == []
    ensures t == s.(disk := t.disk)
  {
    path, t := WriteAll(c, s);
    if t.disk.open != [] {
      path, t := Then(c, s, path, t, CloseBackup);
    }
  }

  // ---------- the batch writer ----------

  lemma {:induction false} HandleAll(c: Config, s: State) returns (path: seq<Action>, t: State)
    requires s.writer.stage.Preparing? && s.writer.stage.done <= |s.writer.stage.items|
    ensures Leads(c, s, path, t) && t == s.(writer := t.writer) && t.writer.queue == s.writer.queue
    ensures t.writer.stage.Preparing? && t.writer.stage.items == s.writer.stage.items
    ensures t.writer.stage.done == |t.writer.stage.items|
    decreases |s.writer.stage.items| - s.writer.stage.done
  {
    if s.writer.stage.done == |s.writer.stage.items| {
      path, t := [], s;
    } else {
      var first, u := Then(c, s, [], s, Handle);
      var rest;
      rest, t := HandleAll(c, u);
      Join(c, s, first, u, rest, t);
      path := first + rest;
    }
  }

  /** A batch in preparation is handled and written. */
  lemma FinishBatch(c: Config, s: State) returns (path: seq<Action>, t: State)
    requires s.writer.stage.Preparing? && s.writer.stage.done <= |s.writer.stage.items|
    ensures Leads(c, s, path, t) && t.writer.stage.Waiting? && t.writer.queue == s.writer.queue
    ensures SameRestorer(s, t) && SameDisk(s, t) && LosesOnlyThrown(s, t)
  {
    path, t := HandleAll(c, s);
    path, t := Then(c, s, path, t, Succeed);
  }

  /** A failed batch is saved, making room in the backup queue for each of its messages. */
  lemma {:induction false} SaveBatch(c: Config, s: State) returns (path: seq<Action>, t: State)
    requires s.writer.stage.Failing? && s.writer.stage.rest != [] && c.backupCapacity > 0
    ensures Leads(c, s, path, t) && t.writer.stage.Waiting? && t.writer.queue == s.writer.queue
    ensures SameRestorer(s, t) && t.book.lost == s.book.lost
    decreases |s.writer.stage.rest|
  {
    path, t := Flush(c, s);
    path, t := Then(c, s, path, t, OfferFailed);
    if |s.writer.stage.rest| > 1 {
      var rest, u := SaveBatch(c, t);
      Join(c, s, path, t, rest, u);
      path, t := path + rest, u;
    }
  }

  /** The batch writer holds a batch that is not empty while it hands it to the backup service. */
  ghost predicate StageOk(s: State) {
    && (s.writer.stage.Preparing? ==> s.writer.stage.done <= |s.writer.stage.items| && s.writer.stage.items != [])
    && (s.writer.stage.Failing? ==> s.writer.stage.rest != [])
  }

  lemma SettleBatch(c: Config, s: State) returns (path: seq<Action>, t: State)
    requires StageOk(s) && c.backupCapacity > 0
    ensures Leads(c, s, path, t) && t.writer.stage.Waiting? && t.writer.queue == s.writer.queue
    ensures SameRestorer(s, t) && LosesOnlyThrown(s, t)
  {
    match s.writer.stage
    case Waiting => path, t := [], s;
    case Preparing(_, _, _) => path, t := FinishBatch(c, s);
    case Failing(_) => path, t := SaveBatch(c, s);
  }

  /** What was turned away is saved, making room in the backup queue for each item. */
  lemma {:induction false} SettleOverflow(c: Config, s: State) returns (path: seq<Action>, t: State)
    requires c.backupCapacity > 0
    ensures Leads(c, s, path, t) && t == s.(disk := t.disk, book := s.book.(overflow := {}))
    decreases |s.book.overflow|
  {
    if s.book.overflow == {} {
      path, t := [], s;
    } else {
      var i :| i in s.book.overflow;
      path, t := Flush(c, s);
      path, t := Then(c, s, path, t, OfferOverflow(i));
      var rest, u := SettleOverflow(c, t);
      Join(c, s, path, t, rest, u);
      path, t := path + rest, u;
    }
  }

  /** The write queue is taken and written, one message at a time. */
  lemma {:induction false} DrainQueue(c: Config, s: State) returns (path: seq<Action>, t: State)
    requires s.writer.stage.Waiting? && c.batchSize > 0
    ensures Leads(c, s, path, t) && t.writer.stage.Waiting? && t.writer.queue == []
    ensures SameRestorer(s, t) && SameDisk(s, t) && LosesOnlyThrown(s, t)
    decreases |s.writer.queue|
  {
    if s.writer.queue == [] {
      path, t := [], s;
    } else {
      path, t := Then(c, s, [], s, TakeBatch(1));
      var write, u := FinishBatch(c, t);
      Join(c, s, path, t, write, u);
      var rest, v := DrainQueue(c, u);
      Join(c, s, path + write, u, rest, v);
      path, t := path + write + rest, v;
    }
  }

  /** The batch writer and the backup service have nothing to do. */
  ghost predicate Quiet(s: State) {
    && s.writer.queue == [] && s.writer.stage.Waiting? && s.book.overflow == {}
    && s.disk.backup == [] && s.disk.open == []
  }

  lemma Settle(c: Config, s: State) returns (path: seq<Action>, t: State)
    requires StageOk(s) && c.backupCapacity > 0 && c.batchSize > 0
    ensures Leads(c, s, path, t) && Quiet(t) && t.running == s.running && t.importer == s.importer
    ensures LosesOnlyThrown(s, t)
  {
    var u, v, w, p, q, r;
    path, u := SettleBatch(c, s);
    p, v := DrainQueue(c, u);
    Join(c, s, path, u, p, v);
    q, w := SettleOverflow(c, v);
    Join(c, s, path + p, v, q, w);
    r, t := Flush(c, w);
    Join(c, s, path + p + q, w, r, t);
    path := path + p + q + r;
  }

  // ---------- the importer ----------

  /** The importer's file exists, and it is within it. */
  ghost predicate FileOk(s: State) {
    s.importer.Reading? || s.importer.Offering? ==>
      InFile(s) && (s.importer.Offering? ==> s.importer.pos < |s.disk.files[s.importer.file]|)
  }

  /** The rest of a file is restored, and the file deleted. */
  lemma {:induction false} RestoreRest(c: Config, s: State) returns (path: seq<Action>, t: State)
    requires Quiet(s) && s.running && (s.importer.Reading? || s.importer.Offering?) && FileOk(s) && c.batchSize > 0
    ensures Leads(c, s, path, t) && Quiet(t) && t.running && t.importer == Pausing
    ensures t.disk == s.disk.(files := s.disk.files - {s.importer.file}) && LosesOnlyThrown(s, t)
    decreases |s.disk.files[s.importer.file]| - s.importer.pos, if s.importer.Reading? then 1 else 0
  {
    if s.importer.Offering? {
      path, t := Then(c, s, [], s, OfferRestored);
      ImporterMoves(c, s, OfferRestored);
      var drain, u := DrainQueue(c, t);
      Join(c, s, path, t, drain, u);
      var rest, v := RestoreRest(c, u);
      Join(c, s, path + drain, u, rest, v);
      path, t := path + drain + rest, v;
    } else if s.importer.pos < |s.disk.files[s.importer.file]| {
      path, t := Then(c, s, [], s, Check);
      var rest, u := RestoreRest(c, t);
      Join(c, s, path, t, rest, u);
      path, t := path + rest, u;
    } else {
      path, t := Then(c, s, [], s, Delete);
    }
  }

  /** After a shutdown the importer leaves its file, deleted only if it is empty, and stops. */
  lemma StopImporter(c: Config, s: State) returns (path: seq<Action>, t: State)
    requires Quiet(s) && !s.running && FileOk(s) && c.batchSize > 0
    ensures Leads(c, s, path, t) && Quiet(t) && !t.running && t.importer == Idle && LosesOnlyThrown(s, t)
  {
    path, t := [], s;
    if t.importer.Offering? {
      path, t := OfferLast(c, s);
    }
    if t.importer.Reading? {
      if t.importer.pos > 0 || t.disk.files[t.importer.file] != [] {
        path, t := Then(c, s, path, t, Abandon);
      } else {
        path, t := Then(c, s, path, t, Delete);
      }
    }
    if t.importer.Pausing? {
      path, t := Then(c, s, path, t, Resume);
    }
    if t.importer.Scanning? {
      path, t := Then(c, s, path, t, EndScan);
    }
  }

  lemma OfferLast(c: Config, s: State) returns (path: seq<Action>, t: State)
    requires Quiet(s) && !s.running && s.importer.Offering? && FileOk(s) && c.batchSize > 0
    ensures Leads(c, s, path, t) && Quiet(t) && !t.running && t.importer.Reading? && FileOk(t)
    ensures LosesOnlyThrown(s, t)
  {
    path, t := Then(c, s, [], s, OfferRestored);
    ImporterMoves(c, s, OfferRestored);
    var drain, u := DrainQueue(c, t);
    Join(c, s, path, t, drain, u);
    path, t := path + drain, u;
  }

  /** The importer of a running process comes back to its scan. */
  lemma BackToScan(c: Config, s: State) returns (path: seq<Action>, t: State)
    requires Quiet(s) && s.running && FileOk(s) && c.batchSize > 0
    ensures Leads(c, s, path, t) && Quiet(t) && t.running && t.importer == Scanning && LosesOnlyThrown(s, t)
  {
    path, t := [], s;
    if t.importer.Reading? || t.importer.Offering? {
      path, t := RestoreRest(c, s);
    }
    if t.importer.Pausing? {
      path, t := Then(c, s, path, t, Resume);
    }
    if t.importer.Idle? {
      path, t := Then(c, s, path, t, Scan);
    }
  }

  /** The process is started again if it was shut down, and its importer scans. */
  lemma ToScan(c: Config, s: State) returns (path: seq<Action>, t: State)
    requires Quiet(s) && FileOk(s) && c.batchSize > 0
    ensures Leads(c, s, path, t) && Quiet(t) && t.running && t.importer == Scanning && LosesOnlyThrown(s, t)
  {
    if s.running {
      path, t := BackToScan(c, s);
    } else {
      path, t := StopImporter(c, s);
      path, t := Then(c, s, path, t, Restart);
      path, t := Then(c, s, path, t, Scan);
    }
  }

  /** All backup files are restored and deleted. */
  lemma {:induction false} RestoreAll(c: Config, s: State) returns (path: seq<Action>, t: State)
    requires Quiet(s) && s.running && s.importer == Scanning && c.batchSize > 0
    ensures Leads(c, s, path, t) && Quiet(t) && t.disk.files == map[] && t.disk.unreadable == s.disk.unreadable
    ensures LosesOnlyThrown(s, t)
    decreases |s.disk.files.Keys|
  {
    if s.disk.files.Keys == {} {
      path, t := [], s;
    } else {
      var f :| f in s.disk.files.Keys;
      path, t := Then(c, s, [], s, OpenFile(f));
      var restore, u := RestoreRest(c, t);
      Join(c, s, path, t, restore, u);
      path, t := Then(c, s, path + restore, u, Resume);
      assert t.disk.files.Keys == s.disk.files.Keys - {f};
      var rest, v := RestoreAll(c, t);
      Join(c, s, path, t, rest, v);
      path, t := path + rest, v;
    }
  }

  // ---------- every run ----------

  lemma StageStep(c: Config, s: State, a: Action)
    requires Enabled(c, s, a) && StageOk(s)
    ensures StageOk(Do(c, s, a))
  {
  }

  lemma {:induction false} StageOfRun(c: Config, run: seq<Action>)
    requires Possible(c, run)
    ensures StageOk(Reach(c, run))
  {
    if run != [] {
      StageOfRun(c, run[..|run| - 1]);
      StageStep(c, Reach(c, run[..|run| - 1]), run[|run| - 1]);
    }
  }

  lemma {:induction false} ReceivedStays(c: Config, s: State, path: seq<Action>, t: State)
    requires Leads(c, s, path, t)
    ensures s.book.received <= t.book.received
    decreases |path|
  {
    if path != [] {
      ReceivedGrows(c, s, path[0]);
      ReceivedStays(c, Do(c, s, path[0]), path[1..], t);
    }
  }

  lemma {:induction false} PathKeepsInv(c: Config, s: State, path: seq<Action>, t: State)
    requires Leads(c, s, path, t) && Inv(c, s)
    ensures Inv(c, t)
    decreases |path|
  {
    if path != [] {
      StepKeepsInv(c, s, path[0]);
      PathKeepsInv(c, Do(c, s, path[0]), path[1..], t);
    }
  }

  /** Everything can be brought to rest. */
  lemma ComeToRest(c: Config, s: State) returns (path: seq<Action>, t: State)
    requires StageOk(s) && Inv(c, s) && c.backupCapacity > 0 && c.batchSize > 0
    ensures Leads(c, s, path, t) && Quiet(t) && t.disk.files == map[] && LosesOnlyThrown(s, t)
  {
    var p, u := Settle(c, s);
    PathKeepsInv(c, s, p, u);
    var q, v := ToScan(c, u);
    Join(c, s, p, u, q, v);
    var r, w := RestoreAll(c, v);
    Join(c, s, p + q, v, r, w);
    path, t := p + q + r, w;
  }

  /**
   * Nothing gets stuck: every run of an archiver with room in its queues can go on, without losing more than messages
   * that throw, until each packet received in it is stored, lost, or in a file set aside as unreadable.
   */
  lemma EverythingCanBeStored(c: Config, run: seq<Action>) returns (all: seq<Action>)
    requires Possible(c, run) && c.batchSize > 0 && c.backupCapacity > 0
    ensures run <= all && Possible(c, all) && Quiet(Reach(c, all)) && Reach(c, all).disk.files == map[]
    ensures LosesOnlyThrown(Reach(c, run), Reach(c, all))
    ensures forall i :: i in Reach(c, run).book.received ==>
              var s := Reach(c, all);
              || i in s.writer.stored || i in s.book.lost
              || exists g :: g in s.disk.unreadable && i in s.disk.unreadable[g]
  {
    StageOfRun(c, run);
    RunKeepsInv(c, run);
    var path, t := ComeToRest(c, Reach(c, run));
    all := run + path;
    PathIsPossible(c, run, path, t, all);
    ReceivedStays(c, Reach(c, run), path, t);
    RunKeepsInv(c, all);
    forall i | i in Reach(c, run).book.received
      ensures i in t.writer.stored || i in t.book.lost
              || exists g :: g in t.disk.unreadable && i in t.disk.unreadable[g]
    {
      assert Somewhere(t, i);
    }
  }
}
