/** The code of the batch writer, and the protocol steps that a batch stands for. */
module StagedWriter {
  import opened AisPackets
  import opened Tables
  import opened PositionTracking
  import opened OnlineWriter
  import opened Archiver

  /**
   * How the execution of a batch ends: normally, with a validation exception, or with any other exception, as a
   * time-out, when any of the statements may have been executed.
   */
  datatype Outcome = Executed | Invalid | Broken(landed: seq<nat>)

  /** The statements of a batch that the database executes. */
  function Effective(statements: seq<Insert>, outcome: Outcome): seq<Insert> {
    match outcome
    case Executed => statements
    case Invalid => []
    case Broken(landed) => Picked(statements, landed)
  }

  /** What handling the messages one after the other does to the tracker, and the statements it yields. */
  ghost function Prepare(lib: Library, cell10Enabled: bool, tracker: Tracker, items: seq<Item>): (Tracker, seq<Insert>)
    decreases |items|
  {
    if items == [] then (tracker, [])
    else
      var p := items[0].packet;
      var rest := Prepare(lib, cell10Enabled, Observe(tracker, p), items[1..]);
      (rest.0, Statements(lib, cell10Enabled, p, TargetPosition(tracker, p)) + rest.1)
  }

  lemma PrepareStep(lib: Library, cell10Enabled: bool, tracker: Tracker, items: seq<Item>, before: seq<Insert>)
    requires items != []
    ensures var p := items[0].packet;
            var one := Statements(lib, cell10Enabled, p, TargetPosition(tracker, p));
            var all, rest := Prepare(lib, cell10Enabled, tracker, items),
                             Prepare(lib, cell10Enabled, Observe(tracker, p), items[1..]);
            all.0 == rest.0 && before + all.1 == (before + one) + rest.1
  {
    var p := items[0].packet;
    Regroup(before, Statements(lib, cell10Enabled, p, TargetPosition(tracker, p)),
            Prepare(lib, cell10Enabled, Observe(tracker, p), items[1..]).1);
  }

  lemma Regroup(a: seq<Insert>, b: seq<Insert>, c: seq<Insert>)
    ensures a + (b + c) == (a + b) + c
  {
  }

  ghost function Arrivals(items: seq<Item>): seq<Event> {
    if items == [] then [] else [Received(items[0].packet)] + Arrivals(items[1..])
  }

  lemma PassGrows(lib: Library, cell10Enabled: bool, es: seq<Event>, p: Packet)
    ensures After(es + [Received(p)]) == Observe(After(es), p)
    ensures Online(lib, cell10Enabled, es + [Received(p)])
            == Online(lib, cell10Enabled, es) + Statements(lib, cell10Enabled, p, TargetPosition(After(es), p))
  {
    assert (es + [Received(p)])[..|es|] == es;
  }

  /** Batches do not show: preparing a batch continues the single pass over everything that arrived before. */
  lemma {:induction false} PrepareContinuesPass(lib: Library, cell10Enabled: bool, es: seq<Event>, items: seq<Item>,
                                                all: seq<Event>)
    requires all == es + Arrivals(items)
    ensures var prepared := Prepare(lib, cell10Enabled, After(es), items);
            After(all) == prepared.0 && Online(lib, cell10Enabled, all) == Online(lib, cell10Enabled, es) + prepared.1
    decreases |items|
  {
    if items == [] {
      assert all == es;
    } else {
      var p := items[0].packet;
      PassGrows(lib, cell10Enabled, es, p);
      assert es + [Received(p)] + Arrivals(items[1..]) == all;
      PrepareContinuesPass(lib, cell10Enabled, es + [Received(p)], items[1..], all);
      PrepareStep(lib, cell10Enabled, After(es), items, Online(lib, cell10Enabled, es));
    }
  }

  /** How many of n offers a queue with a capacity accepts when nobody else uses it. */
  function Accepts(capacity: nat, size: nat, n: nat): nat {
    if size + n <= capacity then n else if size <= capacity then capacity - size else 0
  }

  class BackupQueue {
    const capacity: nat
    var contents: seq<Item>

    constructor (capacity: nat)
      ensures this.capacity == capacity && contents == []
    {
      this.capacity, contents := capacity, [];
    }

    method Offer(item: Item) returns (accepted: bool)
      modifies this
      ensures accepted == (|old(contents)| < capacity)
      ensures contents == old(contents) + if accepted then [item] else []
    {
      accepted := |contents| < capacity;
      if accepted {
        contents := contents + [item];
      }
    }
  }

  class CassandraBatchedStagedWriter {
    const writer: DefaultAisStoreWriter
    const backup: BackupQueue
    var rows: Rows
    var persistedCount: nat
    /** What was reported as not persisted. */
    ghost var lost: seq<Item>

    constructor (writer: DefaultAisStoreWriter, backup: BackupQueue)
      ensures this.writer == writer && this.backup == backup && rows == map[] && persistedCount == 0 && lost == []
    {
      this.writer, this.backup := writer, backup;
      rows, persistedCount, lost := map[], 0, [];
    }

    method HandleMessages(messages: seq<Item>, outcome: Outcome)
      modifies this, writer, backup
      ensures writer.tracker == Prepare(writer.lib, writer.cell10Enabled, old(writer.tracker), messages).0
      ensures var statements := Prepare(writer.lib, writer.cell10Enabled, old(writer.tracker), messages).1;
              rows == Apply(old(rows), Effective(statements, outcome))
      ensures persistedCount == old(persistedCount) + if outcome.Executed? then |messages| else 0
      ensures var k := Accepts(backup.capacity, |old(backup.contents)|, |messages|);
              backup.contents == old(backup.contents) + if outcome.Broken? then messages[..k] else []
      ensures var k := Accepts(backup.capacity, |old(backup.contents)|, |messages|);
              lost == old(lost) + if outcome.Broken? then messages[k..] else []
    {
      var batch := PrepareBatch(messages);
      rows := Apply(rows, Effective(batch.statements, outcome));
      match outcome
      case Executed =>
        persistedCount := persistedCount + |messages|;
      case Invalid =>
      case Broken(_) => OnFailure(messages);
    }

    /** Handles the messages one by one; a message whose handling throws is logged and skipped. */
    method PrepareBatch(messages: seq<Item>) returns (batch: Batch)
      modifies writer
      ensures fresh(batch)
      ensures (writer.tracker, batch.statements)
              == Prepare(writer.lib, writer.cell10Enabled, old(writer.tracker), messages)
    {
      batch := new Batch();
      var i := 0;
      ghost var prepared := Prepare(writer.lib, writer.cell10Enabled, writer.tracker, messages);
      assert messages[0..] == messages && [] + prepared.1 == prepared.1;
      while i < |messages|
        invariant 0 <= i <= |messages| && fresh(batch)
        invariant var rest := Prepare(writer.lib, writer.cell10Enabled, writer.tracker, messages[i..]);
                  prepared == (rest.0, batch.statements + rest.1)
      {
        PrepareStep(writer.lib, writer.cell10Enabled, writer.tracker, messages[i..], batch.statements);
        assert messages[i..][1..] == messages[i + 1..];
        var ok := writer.HandleMessage(batch, messages[i].packet);
        i := i + 1;
      }
      assert messages[i..] == [] && batch.statements + [] == batch.statements;
    }

    /** Hands a failed batch to the backup service. */
    method OnFailure(messages: seq<Item>)
      modifies this`lost, backup
      ensures var k := Accepts(backup.capacity, |old(backup.contents)|, |messages|);
              backup.contents == old(backup.contents) + messages[..k] && lost == old(lost) + messages[k..]
    {
      ghost var k := Accepts(backup.capacity, |backup.contents|, |messages|);
      var i := 0;
      while i < |messages|
        invariant 0 <= i <= |messages|
        invariant backup.contents == old(backup.contents) + messages[..if i < k then i else k]
        invariant lost == old(lost) + if i < k then [] else messages[k..i]
      {
        var accepted := backup.Offer(messages[i]);
        if !accepted {
          lost := lost + [messages[i]];
        }
        i := i + 1;
      }
    }
  }

  // ---------- a batch in the protocol ----------

  ghost function Repeat(a: Action, n: nat): (actions: seq<Action>)
    ensures |actions| == n
  {
    if n == 0 then [] else [a] + Repeat(a, n - 1)
  }

  lemma RepeatOneMore(run: seq<Action>, a: Action, n: nat)
    requires n > 0
    ensures run + [a] + Repeat(a, n - 1) == run + Repeat(a, n)
  {
  }

  /** The state once the rest of the batch has been handled. */
  ghost function Prepared(c: Config, s: State): State
    requires s.writer.stage.Preparing? && s.writer.stage.done <= |s.writer.stage.items|
  {
    var Preparing(items, done, statements) := s.writer.stage;
    var prepared := Prepare(c.lib, c.cell10Enabled, s.writer.tracker, items[done..]);
    s.(writer := s.writer.(tracker := prepared.0, stage := Preparing(items, |items|, statements + prepared.1)))
  }

  lemma HandleOne(c: Config, s: State)
    requires s.writer.stage.Preparing? && s.writer.stage.done < |s.writer.stage.items|
    ensures var stage := Do(c, s, Handle).writer.stage;
            stage.Preparing? && stage.items == s.writer.stage.items && stage.done == s.writer.stage.done + 1
    ensures Prepared(c, Do(c, s, Handle)) == Prepared(c, s)
  {
    var Preparing(items, done, statements) := s.writer.stage;
    assert items[done..][0] == items[done] && items[done..][1..] == items[done + 1..];
    PrepareStep(c.lib, c.cell10Enabled, s.writer.tracker, items[done..], statements);
  }

  lemma AllHandled(c: Config, s: State)
    requires s.writer.stage.Preparing? && s.writer.stage.done == |s.writer.stage.items|
    ensures Prepared(c, s) == s
  {
    assert s.writer.stage.items[s.writer.stage.done..] == [];
    assert s.writer.stage.statements + [] == s.writer.stage.statements;
  }

  lemma HandleNext(c: Config, run: seq<Action>)
    requires Possible(c, run) && Reach(c, run).writer.stage.Preparing?
    requires Reach(c, run).writer.stage.done < |Reach(c, run).writer.stage.items|
    ensures Possible(c, run + [Handle])
    ensures var before, after := Reach(c, run), Reach(c, run + [Handle]);
            && after.writer.stage.Preparing? && after.writer.stage.items == before.writer.stage.items
            && after.writer.stage.done == before.writer.stage.done + 1
            && Prepared(c, after) == Prepared(c, before)
  {
    HandleOne(c, Reach(c, run));
    Extend(c, run, Handle);
  }

  /** Handling what is left of a batch, one message at a time. */
  lemma {:induction false} HandleRest(c: Config, run: seq<Action>, n: nat, end: seq<Action>)
    requires Possible(c, run) && Reach(c, run).writer.stage.Preparing? && end == run + Repeat(Handle, n)
    requires Reach(c, run).writer.stage.done + n == |Reach(c, run).writer.stage.items|
    ensures Possible(c, end) && Reach(c, end) == Prepared(c, Reach(c, run))
    decreases n
  {
    if n == 0 {
      AllHandled(c, Reach(c, run));
      assert end == run;
    } else {
      HandleNext(c, run);
      RepeatOneMore(run, Handle, n);
      HandleRest(c, run + [Handle], n - 1, end);
    }
  }

  /** The state once a failed batch has been offered to the backup queue. */
  ghost function Saved(c: Config, s: State): State
    requires s.writer.stage.Failing?
  {
    var rest := s.writer.stage.rest;
    var k := Accepts(c.backupCapacity, |s.disk.backup|, |rest|);
    s.(writer := s.writer.(stage := Waiting), disk := s.disk.(backup := s.disk.backup + rest[..k]),
       book := s.book.(lost := s.book.lost + Items(rest[k..])))
  }

  /** The first offer of a failed batch, and what the others then meet with. */
  lemma FirstOffer(capacity: nat, backup: seq<Item>, rest: seq<Item>, lost: set<Item>)
    requires rest != []
    ensures var k, roomy := Accepts(capacity, |backup|, |rest|), |backup| < capacity;
            var later := Accepts(capacity, if roomy then |backup| + 1 else |backup|, |rest| - 1);
            && (if roomy then backup + [rest[0]] else backup) + rest[1..][..later] == backup + rest[..k]
            && (if roomy then lost else lost + {rest[0]}) + Items(rest[1..][later..]) == lost + Items(rest[k..])
  {
    var k := Accepts(capacity, |backup|, |rest|);
    if |backup| < capacity {
      assert rest[..k] == [rest[0]] + rest[1..][..k - 1] && rest[k..] == rest[1..][k - 1..];
    } else {
      assert k == 0 && rest[k..] == [rest[0]] + rest[1..] && rest[1..][0..] == rest[1..];
      assert Items(rest[k..]) == {rest[0]} + Items(rest[1..]);
    }
  }

  lemma OfferedOne(c: Config, s: State)
    requires s.writer.stage.Failing? && |s.writer.stage.rest| > 1
    ensures var rest, roomy := s.writer.stage.rest, |s.disk.backup| < c.backupCapacity;
            Do(c, s, OfferFailed)
            == s.(writer := s.writer.(stage := Failing(rest[1..])),
                  disk := s.disk.(backup := if roomy then s.disk.backup + [rest[0]] else s.disk.backup),
                  book := s.book.(lost := if roomy then s.book.lost else s.book.lost + {rest[0]}))
  {
  }

  lemma SaveOne(c: Config, s: State)
    requires s.writer.stage.Failing? && |s.writer.stage.rest| > 1
    ensures Do(c, s, OfferFailed).writer.stage == Failing(s.writer.stage.rest[1..])
    ensures Saved(c, Do(c, s, OfferFailed)) == Saved(c, s)
  {
    OfferedOne(c, s);
    FirstOffer(c.backupCapacity, s.disk.backup, s.writer.stage.rest, s.book.lost);
  }

  lemma SaveLast(c: Config, s: State)
    requires s.writer.stage.Failing? && |s.writer.stage.rest| == 1
    ensures Do(c, s, OfferFailed) == Saved(c, s)
  {
    var rest := s.writer.stage.rest;
    assert rest == [rest[0]] && rest[..1] == rest && rest[1..] == [] && rest[..0] == [] && rest[0..] == rest;
    assert s.disk.backup + [] == s.disk.backup;
    assert Items([]) == {} && Items(rest) == {rest[0]};
  }

  lemma {:induction false} SaveRest(c: Config, run: seq<Action>, n: nat)
    requires Possible(c, run) && Reach(c, run).writer.stage.Failing? && n == |Reach(c, run).writer.stage.rest| > 0
    ensures Possible(c, run + Repeat(OfferFailed, n))
    ensures Reach(c, run + Repeat(OfferFailed, n)) == Saved(c, Reach(c, run))
    decreases n
  {
    Extend(c, run, OfferFailed);
    RepeatOneMore(run, OfferFailed, n);
    if n > 1 {
      SaveOne(c, Reach(c, run));
      SaveRest(c, run + [OfferFailed], n - 1);
    } else {
      SaveLast(c, Reach(c, run));
      assert run + [OfferFailed] + [] == run + [OfferFailed];
    }
  }

  /** The steps of one undisturbed batch. */
  ghost function BatchSteps(n: nat, outcome: Outcome): seq<Action> {
    [TakeBatch(n)] + Repeat(Handle, n)
    + match outcome
      case Executed => [Succeed]
      case Invalid => [FailValidation]
      case Broken(landed) => [Fail(landed)] + Repeat(OfferFailed, n)
  }

  lemma BatchStepsEnd(run: seq<Action>, n: nat, landed: seq<nat>)
    ensures var handled := run + [TakeBatch(n)] + Repeat(Handle, n);
            && run + BatchSteps(n, Executed) == handled + [Succeed]
            && run + BatchSteps(n, Invalid) == handled + [FailValidation]
            && run + BatchSteps(n, Broken(landed)) == handled + [Fail(landed)] + Repeat(OfferFailed, n)
  {
  }

  /** The batch has been taken from the queue and prepared. */
  ghost predicate InFlight(c: Config, s: State, n: nat, t: State)
    requires n <= |s.writer.queue|
  {
    var items := s.writer.queue[..n];
    var prepared := Prepare(c.lib, c.cell10Enabled, s.writer.tracker, items);
    t == s.(writer := s.writer.(queue := s.writer.queue[n..], tracker := prepared.0,
                                stage := Preparing(items, n, prepared.1)))
  }

  lemma TakeAndHandle(c: Config, run: seq<Action>, n: nat)
    requires Possible(c, run) && Enabled(c, Reach(c, run), TakeBatch(n))
    ensures Possible(c, run + [TakeBatch(n)] + Repeat(Handle, n))
    ensures InFlight(c, Reach(c, run), n, Reach(c, run + [TakeBatch(n)] + Repeat(Handle, n)))
  {
    var items := Reach(c, run).writer.queue[..n];
    var prepared := Prepare(c.lib, c.cell10Enabled, Reach(c, run).writer.tracker, items);
    Extend(c, run, TakeBatch(n));
    HandleRest(c, run + [TakeBatch(n)], n, run + [TakeBatch(n)] + Repeat(Handle, n));
    assert items[0..] == items && [] + prepared.1 == prepared.1;
  }

  /** The messages of a batch that are neither in the tables nor in the backup queue after it, where that took k. */
  ghost function LostBy(items: seq<Item>, k: nat, outcome: Outcome): set<Item>
    requires k <= |items|
  {
    match outcome
    case Executed => Thrown(items)
    case Invalid => Items(items)
    case Broken(_) => Items(items[k..])
  }

  /** What HandleMessages leaves behind, seen in the protocol. */
  ghost predicate BatchDone(c: Config, s: State, n: nat, outcome: Outcome, t: State)
    requires n <= |s.writer.queue|
  {
    var items := s.writer.queue[..n];
    var prepared := Prepare(c.lib, c.cell10Enabled, s.writer.tracker, items);
    var k := if outcome.Broken? then Accepts(c.backupCapacity, |s.disk.backup|, n) else 0;
    && t.writer.queue == s.writer.queue[n..] && t.writer.stage == Waiting && t.writer.tracker == prepared.0
    && t.writer.rows == Apply(s.writer.rows, Effective(prepared.1, outcome))
    && t.disk.backup == s.disk.backup + items[..k]
    && t.book.lost == s.book.lost + LostBy(items, k, outcome)
  }

  lemma SucceedEnds(c: Config, s: State, n: nat, t: State)
    requires n <= |s.writer.queue| && InFlight(c, s, n, t)
    ensures BatchDone(c, s, n, Executed, Do(c, t, Succeed))
  {
    assert s.disk.backup + s.writer.queue[..n][..0] == s.disk.backup;
  }

  lemma ValidationEnds(c: Config, s: State, n: nat, t: State)
    requires n <= |s.writer.queue| && InFlight(c, s, n, t)
    ensures BatchDone(c, s, n, Invalid, Do(c, t, FailValidation))
  {
    assert s.disk.backup + s.writer.queue[..n][..0] == s.disk.backup;
  }

  lemma FailEnds(c: Config, s: State, n: nat, landed: seq<nat>, t: State)
    requires 0 < n <= |s.writer.queue| && InFlight(c, s, n, t)
    ensures Do(c, t, Fail(landed)).writer.stage == Failing(s.writer.queue[..n])
    ensures BatchDone(c, s, n, Broken(landed), Saved(c, Do(c, t, Fail(landed))))
  {
  }

  /**
   * The code refines the protocol: an undisturbed batch is a run of protocol steps that ends with the tracker, rows and
   * backup queue that HandleMessages leaves behind, and with exactly the messages lost that are in neither.
   */
  lemma BatchRefinesProtocol(c: Config, run: seq<Action>, n: nat, outcome: Outcome)
    requires Possible(c, run) && Enabled(c, Reach(c, run), TakeBatch(n))
    ensures Possible(c, run + BatchSteps(n, outcome))
    ensures BatchDone(c, Reach(c, run), n, outcome, Reach(c, run + BatchSteps(n, outcome)))
  {
    var handled := run + [TakeBatch(n)] + Repeat(Handle, n);
    TakeAndHandle(c, run, n);
    BatchStepsEnd(run, n, if outcome.Broken? then outcome.landed else []);
    match outcome
    case Executed =>
      SucceedEnds(c, Reach(c, run), n, Reach(c, handled));
      Extend(c, handled, Succeed);
    case Invalid =>
      ValidationEnds(c, Reach(c, run), n, Reach(c, handled));
      Extend(c, handled, FailValidation);
    case Broken(landed) =>
      FailEnds(c, Reach(c, run), n, landed, Reach(c, handled));
      Extend(c, handled, Fail(landed));
      SaveRest(c, handled + [Fail(landed)], n);
  }
}
