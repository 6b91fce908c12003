/**
 * The archiver as a protocol: receiving threads, the batch writer, the backup service and the file importer take their
 * steps in any order. An item is one received packet; a replay puts a copy of the same item back into the write queue.
 */
module Archiver {
  import opened AisPackets
  import opened Tables
  import opened PositionTracking
  import opened OnlineWriter

  datatype Item = Item(id: nat, packet: Packet)

  datatype Config = Config(lib: Library, cell10Enabled: bool, batchSize: nat, backupCapacity: nat) {
    /** The capacity of the write queue. */
    function Capacity(): nat {
      if 100 * batchSize < 100000 then 100 * batchSize else 100000
    }
  }

  /** The batch writer: waiting, preparing and sending a batch, or handing a failed batch to the backup service. */
  datatype Stage =
    | Waiting
    | Preparing(items: seq<Item>, done: nat, statements: seq<Insert>)
    | Failing(rest: seq<Item>)

  /** The file importer: between scans, between files, about to read, about to offer, or pausing after a file. */
  datatype Importer =
    | Idle
    | Scanning
    | Reading(file: nat, pos: nat)
    | Offering(file: nat, pos: nat, q: nat)
    | Pausing

  /**
   * The write queue, the batch writer with its tracker, the rows it has written, the items they stand for, and the
   * items of failed batches of which some rows were written all the same.
   */
  datatype Writer = Writer(queue: seq<Item>, stage: Stage, tracker: Tracker, rows: Rows, stored: set<Item>,
                           touched: set<Item>)

  /** The backup queue, the file being written, the closed files and those set aside as unreadable. */
  datatype Disk = Disk(backup: seq<Item>, open: seq<Item>, files: map<nat, seq<Item>>, unreadable: map<nat, seq<Item>>,
                       nextFile: nat)

  /** What was received, what a full write queue turned away and is yet to be backed up, and what was lost. */
  datatype Book = Book(nextId: nat, received: set<Item>, overflow: set<Item>, lost: set<Item>)

  datatype State = State(running: bool, writer: Writer, disk: Disk, book: Book, importer: Importer)

  const START :=
    State(true, Writer([], Waiting, map[], map[], {}, {}), Disk([], [], map[], map[], 0), Book(0, {}, {}, {}), Idle)

  datatype Action =
    // A receiving thread offers a packet to the write queue; when that is full, it holds it for the backup queue.
    | Receive(packet: Packet)
    | OfferOverflow(item: Item)
    // The batch writer takes a batch, handles its messages one by one, and sends it with one of three outcomes. Of a
    // batch that fails, as in a time-out, the database may have written any of the statements, in any order.
    | TakeBatch(n: nat)
    | Handle
    | Expire(mmsis: set<int>)
    | Succeed
    | FailValidation
    | Fail(landed: seq<nat>)
    | OfferFailed
    // The backup service writes its queue to a file and closes the file.
    | WriteBackup
    | CloseBackup
    // The importer scans the backup directory and restores files.
    | Scan
    | EndScan
    | OpenFile(f: nat)
    | Check
    | OfferRestored
    | Delete
    | KeepFile
    | Unreadable(renamed: bool)
    | Abandon
    | Resume
    // The process is shut down, and started again after its queues were drained.
    | Shutdown
    | Restart

  ghost function Items(s: seq<Item>): set<Item> {
    set i | i in s
  }

  /** The items of a prepared batch whose handling throws. */
  ghost function Thrown(items: seq<Item>): set<Item> {
    set i | i in items && Throws(i.packet)
  }

  ghost predicate InFile(s: State) {
    (s.importer.Reading? || s.importer.Offering?) && s.importer.file in s.disk.files
    && s.importer.pos <= |s.disk.files[s.importer.file]|
  }

  ghost predicate Enabled(c: Config, s: State, a: Action) {
    match a
    case Receive(p) => true
    case OfferOverflow(item) => item in s.book.overflow
    case TakeBatch(n) => s.writer.stage.Waiting? && 0 < n <= c.batchSize && n <= |s.writer.queue|
    case Handle => s.writer.stage.Preparing? && s.writer.stage.done < |s.writer.stage.items|
    case Expire(_) => true
    case Succeed | FailValidation | Fail(_) =>
      s.writer.stage.Preparing? && s.writer.stage.done == |s.writer.stage.items|
    case OfferFailed => s.writer.stage.Failing? && s.writer.stage.rest != []
    case WriteBackup => s.disk.backup != []
    case CloseBackup => s.disk.open != []
    case Scan => s.importer.Idle? && s.running && |s.writer.queue| < c.batchSize
    case EndScan => s.importer.Scanning?
    case OpenFile(f) => s.importer.Scanning? && s.running && f in s.disk.files
    case Check => s.importer.Reading? && InFile(s) && s.importer.pos < |s.disk.files[s.importer.file]| && s.running
    case OfferRestored => s.importer.Offering? && InFile(s) && s.importer.pos < |s.disk.files[s.importer.file]|
    case Delete | KeepFile => s.importer.Reading? && InFile(s) && s.importer.pos == |s.disk.files[s.importer.file]|
    case Unreadable(_) => s.importer.Reading? && InFile(s)
    case Abandon => s.importer.Reading? && InFile(s) && !s.running
                    && (s.importer.pos > 0 || s.disk.files[s.importer.file] != [])
    case Resume => s.importer.Pausing? && (!s.running || |s.writer.queue| <= c.batchSize)
    case Shutdown => true
    case Restart => !s.running && s.writer.queue == [] && s.writer.stage.Waiting? && s.book.overflow == {}
                    && s.disk.backup == [] && s.disk.open == []
  }

  /** Offers an item to the backup queue; a refusal loses it. */
  ghost function SaveOrLose(c: Config, s: State, item: Item): State {
    if |s.disk.backup| < c.backupCapacity then s.(disk := s.disk.(backup := s.disk.backup + [item]))
    else s.(book := s.book.(lost := s.book.lost + {item}))
  }

  ghost function Do(c: Config, s: State, a: Action): State
    requires Enabled(c, s, a)
  {
    match a
    case Receive(p) =>
      var item := Item(s.book.nextId, p);
      var book := s.book.(nextId := s.book.nextId + 1, received := s.book.received + {item});
      if |s.writer.queue| < c.Capacity() then s.(writer := s.writer.(queue := s.writer.queue + [item]), book := book)
      else s.(book := book.(overflow := book.overflow + {item}))
    case OfferOverflow(item) =>
      SaveOrLose(c, s.(book := s.book.(overflow := s.book.overflow - {item})), item)
    case TakeBatch(n) =>
      s.(writer := s.writer.(queue := s.writer.queue[n..], stage := Preparing(s.writer.queue[..n], 0, [])))
    case Handle =>
      var Preparing(items, done, statements) := s.writer.stage;
      var p := items[done].packet;
      var position := TargetPosition(s.writer.tracker, p);
      s.(writer := s.writer.(
           tracker := Observe(s.writer.tracker, p),
           stage := Preparing(items, done + 1, statements + Statements(c.lib, c.cell10Enabled, p, position))))
    case Expire(mmsis) => s.(writer := s.writer.(tracker := s.writer.tracker - mmsis))
    case Succeed =>
      var Preparing(items, _, statements) := s.writer.stage;
      s.(writer := s.writer.(stage := Waiting, rows := Apply(s.writer.rows, statements),
                             stored := s.writer.stored + (Items(items) - Thrown(items))),
         book := s.book.(lost := s.book.lost + Thrown(items)))
    case FailValidation =>
      s.(writer := s.writer.(stage := Waiting), book := s.book.(lost := s.book.lost + Items(s.writer.stage.items)))
    case Fail(landed) =>
      var Preparing(items, _, statements) := s.writer.stage;
      s.(writer := s.writer.(stage := Failing(items), rows := Apply(s.writer.rows, Picked(statements, landed)),
                             touched := if landed == [] then s.writer.touched else s.writer.touched + Items(items)))
    case OfferFailed =>
      var rest := s.writer.stage.rest;
      SaveOrLose(c, s.(writer := s.writer.(stage := if |rest| == 1 then Waiting else Failing(rest[1..]))), rest[0])
    case WriteBackup =>
      s.(disk := s.disk.(backup := s.disk.backup[1..], open := s.disk.open + [s.disk.backup[0]]))
    case CloseBackup =>
      s.(disk := s.disk.(open := [], files := s.disk.files[s.disk.nextFile := s.disk.open],
                         nextFile := s.disk.nextFile + 1))
    case Scan => s.(importer := Scanning)
    case EndScan => s.(importer := Idle)
    case OpenFile(f) => s.(importer := Reading(f, 0))
    case Check =>
      if |s.writer.queue| > 10 * c.batchSize then s
      else s.(importer := Offering(s.importer.file, s.importer.pos, |s.writer.queue|))
    case OfferRestored =>
      var Offering(f, pos, _) := s.importer;
      if |s.writer.queue| < c.Capacity() then
        s.(writer := s.writer.(queue := s.writer.queue + [s.disk.files[f][pos]]), importer := Reading(f, pos + 1))
      else s.(importer := Reading(f, pos))
    case Delete => s.(disk := s.disk.(files := s.disk.files - {s.importer.file}), importer := Pausing)
    case KeepFile => s.(importer := Pausing)
    case Unreadable(renamed) =>
      var f := s.importer.file;
      if renamed then
        s.(disk := s.disk.(files := s.disk.files - {f}, unreadable := s.disk.unreadable[f := s.disk.files[f]]),
           importer := Pausing)
      else s.(importer := Pausing)
    case Abandon => s.(importer := Pausing)
    case Resume => s.(importer := Scanning)
    case Shutdown => s.(running := false)
    case Restart => s.(running := true, writer := s.writer.(tracker := map[]), importer := Idle)
  }

  /** The action sequences that can happen, and where they lead. */
  ghost predicate Possible(c: Config, run: seq<Action>)
    decreases |run|, 0
  {
    run == [] || (var n := |run| - 1; Possible(c, run[..n]) && Enabled(c, Reach(c, run[..n]), run[n]))
  }

  ghost function Reach(c: Config, run: seq<Action>): State
    requires Possible(c, run)
    decreases |run|, 1
  {
    if run == [] then START else var n := |run| - 1; Do(c, Reach(c, run[..n]), run[n])
  }

  lemma Extend(c: Config, run: seq<Action>, a: Action)
    requires Possible(c, run) && Enabled(c, Reach(c, run), a)
    ensures Possible(c, run + [a]) && Reach(c, run + [a]) == Do(c, Reach(c, run), a)
  {
    assert (run + [a])[..|run|] == run;
  }
}
