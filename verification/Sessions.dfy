/** Sequences of download runs over the same stream, some of which crash. */
module Sessions {
  import opened Wrappers
  import opened AisPackets
  import opened FileExportRest
  import opened Resuming

  /** A run that is cut off after n packets, keeping a prefix of its buffer, or one that completes. */
  datatype Session = Crashed(force: bool, n: nat, keep: nat) | Completed(force: bool)

  ghost predicate CanHappen(ps: seq<Packet>, start: int, d: Disk, s: Session) {
    s.Crashed? ==> s.n <= |ps| && s.keep <= |Steps(Begin(d, s.force, start), ps[..s.n]).tail|
  }

  ghost function AfterSession(ps: seq<Packet>, start: int, d: Disk, s: Session): Disk
    requires CanHappen(ps, start, d, s)
  {
    var r := Begin(d, s.force, start);
    match s
    case Crashed(_, n, keep) => Crash(Steps(r, ps[..n]), keep)
    case Completed(_) => End(Steps(r, ps))
  }

  ghost predicate History(ps: seq<Packet>, start: int, ss: seq<Session>)
    decreases |ss|, 0
  {
    ss == [] || (var n := |ss| - 1;
                 History(ps, start, ss[..n]) && CanHappen(ps, start, DiskAfter(ps, start, ss[..n]), ss[n]))
  }

  ghost function DiskAfter(ps: seq<Packet>, start: int, ss: seq<Session>): Disk
    requires History(ps, start, ss)
    decreases |ss|, 1
  {
    if ss == [] then Disk([], None)
    else var n := |ss| - 1; AfterSession(ps, start, DiskAfter(ps, start, ss[..n]), ss[n])
  }

  ghost predicate DiskOk(ps: seq<Packet>, start: int, d: Disk) {
    d.meta.Some? ==> MetaOk(ps, start, d.data, d.meta.value)
  }

  lemma EndOk(ps: seq<Packet>, start: int, r: Progress)
    requires InOrder(ps) && RunOk(ps, start, |ps|, r)
    requires r.currentTimeStamp == if ps == [] then 0 else ps[|ps| - 1].time
    ensures DiskOk(ps, start, End(r))
  {
    var loaded, last := r.lastLoadedTimestamp, r.currentTimeStamp;
    assert ps[..|ps|] == ps;
    CountIsCountAfter(ps, start, last);
    CountSplit(ps, start, loaded);
    forall q | q in ps && Decodable(q) && start < q.time ensures Delivered(End(r).data, q) {
      DeliveredAppend(r.data, r.tail, q);
      DeliveredAppend(r.data + r.tail, [Footer(r.counter)], q);
    }
  }

  lemma CrashOk(ps: seq<Packet>, start: int, n: nat, r: Progress, keep: nat)
    requires n <= |ps| && RunOk(ps, start, n, r) && keep <= |r.tail|
    ensures DiskOk(ps, start, Crash(r, keep))
  {
    forall q | Delivered(r.data, q) ensures Delivered(Crash(r, keep).data, q) {
      DeliveredAppend(r.data, r.tail[..keep], q);
    }
  }

  lemma SessionOk(ps: seq<Packet>, start: int, d: Disk, s: Session)
    requires InOrder(ps) && TiesAreSafe(ps, start) && DiskOk(ps, start, d) && CanHappen(ps, start, d, s)
    ensures DiskOk(ps, start, AfterSession(ps, start, d, s))
  {
    var r := Begin(d, s.force, start);
    BeginOk(ps, start, d, s.force);
    match s
    case Crashed(_, n, keep) =>
      StepsOk(ps, start, n, r);
      CrashOk(ps, start, n, Steps(r, ps[..n]), keep);
    case Completed(_) =>
      assert ps[..|ps|] == ps;
      StepsOk(ps, start, |ps|, r);
      StepsDeliver(r, ps, Packet("", 0, None));
      EndOk(ps, start, Steps(r, ps));
  }

  /**
   * After every crash and every completed run, the meta file counts exactly the decodable packets after the start and
   * up to its timestamp, and each of them has a record in the data file.
   */
  lemma {:induction false} MetaIsAlwaysExact(ps: seq<Packet>, start: int, ss: seq<Session>)
    requires InOrder(ps) && TiesAreSafe(ps, start) && History(ps, start, ss)
    ensures DiskOk(ps, start, DiskAfter(ps, start, ss))
  {
    if ss != [] {
      var n := |ss| - 1;
      MetaIsAlwaysExact(ps, start, ss[..n]);
      SessionOk(ps, start, DiskAfter(ps, start, ss[..n]), ss[n]);
    }
  }

  /** However often the download crashed and was resumed: a completed run leaves a record of every packet it is due. */
  lemma AtLeastOnce(ps: seq<Packet>, start: int, ss: seq<Session>, p: Packet)
    requires InOrder(ps) && TiesAreSafe(ps, start)
    requires History(ps, start, ss) && ss != [] && ss[|ss| - 1].Completed?
    requires p in ps && Decodable(p) && p.time > start
    ensures Delivered(DiskAfter(ps, start, ss).data, p)
  {
    var n := |ss| - 1;
    var d := DiskAfter(ps, start, ss[..n]);
    MetaIsAlwaysExact(ps, start, ss[..n]);
    var r := Begin(d, ss[n].force, start);
    if ss[n].force {
      StepsDeliver(r, ps, p);
      DeliveredAppend(Steps(r, ps).data + Steps(r, ps).tail, [Footer(Steps(r, ps).counter)], p);
    } else {
      ResumedRunDelivers(d, ps, start, p);
    }
  }

  // ---------- running a completed download again ----------

  lemma {:induction false} NothingDue(r: Progress, ps: seq<Packet>)
    requires forall p :: p in ps && Decodable(p) ==> p.time <= r.lastLoadedTimestamp
    ensures Steps(r, ps) == r.(currentTimeStamp := if ps == [] then r.currentTimeStamp else ps[|ps| - 1].time)
  {
    if ps != [] {
      NothingDue(r, ps[..|ps| - 1]);
    }
  }

  ghost function LastTime(ps: seq<Packet>): int {
    if ps == [] then 0 else ps[|ps| - 1].time
  }

  /** When the meta file has the time of the last packet, a resumed run finds nothing due. */
  lemma ResumeAtEnd(ps: seq<Packet>, start: int, d: Disk, p: Packet)
    requires InOrder(ps) && d.meta.Some? && MetaOk(ps, start, d.data, d.meta.value)
    requires d.meta.value.timestamp == LastTime(ps) && p in ps && Decodable(p)
    ensures p.time <= Begin(d, false, start).lastLoadedTimestamp
  {
    CountIsCountAfter(ps, start, LastTime(ps));
    if d.meta.value.packageCount == 0 {
      NoneCounted(ps, start, p);
    }
  }

  lemma RerunFromEnd(ps: seq<Packet>, start: int, d: Disk)
    requires InOrder(ps) && d.meta.Some? && MetaOk(ps, start, d.data, d.meta.value)
    requires d.meta.value.timestamp == LastTime(ps)
    ensures var count := d.meta.value.packageCount;
            var rest := (if count == 0 then [] else [LineBreak]) + [Footer(count)];
            AfterSession(ps, start, d, Completed(false)) == Disk(d.data + rest, d.meta)
  {
    var r := Begin(d, false, start);
    forall p | p in ps && Decodable(p) ensures p.time <= r.lastLoadedTimestamp {
      ResumeAtEnd(ps, start, d, p);
    }
    NothingDue(r, ps);
    assert r.data + r.tail + [Footer(r.counter)] == r.data + (r.tail + [Footer(r.counter)]);
  }

  /** A completed download, run again over the same stream, appends no packet and leaves the meta file as it is. */
  lemma RerunChangesNothing(ps: seq<Packet>, start: int, d: Disk, force: bool)
    requires InOrder(ps) && TiesAreSafe(ps, start) && DiskOk(ps, start, d)
    ensures var done := AfterSession(ps, start, d, Completed(force));
            var again := AfterSession(ps, start, done, Completed(false));
            && again.meta == done.meta && |done.data| <= |again.data| && again.data[..|done.data|] == done.data
            && forall e :: e in again.data[|done.data|..] ==> !e.Record?
  {
    var done := AfterSession(ps, start, d, Completed(force));
    SessionOk(ps, start, d, Completed(force));
    StepsDeliver(Begin(d, force, start), ps, Packet("", 0, None));
    RerunFromEnd(ps, start, done);
  }

  // ---------- how much a crash can duplicate ----------

  lemma {:induction false} RecordsAppend(a: seq<Entry>, b: seq<Entry>)
    ensures Records(a + b) == Records(a) + Records(b)
  {
    if b == [] {
      assert a + b == a;
    } else {
      RecordsAppend(a, b[..|b| - 1]);
      assert (a + b)[..|a + b| - 1] == a + b[..|b| - 1];
    }
  }

  /** No packet of time zero calls for a checkpoint: the status variables use zero for "not flushed yet". */
  ghost predicate ZeroIsNoCheckpoint(ps: seq<Packet>, start: int) {
    forall i :: CalledFor(ps, start, i) ==> ps[i].time != 0
  }

  /** The packets in the buffer are those since the last multiple of the checkpoint interval, or fewer. */
  ghost predicate BufferOk(r: Progress) {
    Records(r.tail) <= r.counter % CHECKPOINT
  }

  /** What a step does to the number of buffered packets. */
  lemma StepTail(r: Progress, p: Packet)
    ensures var s, checkpoint := Step(r, p), p.time != r.lastFlushTimestamp && (r.counter + 1) % CHECKPOINT == 0;
            && s.lastLoadedTimestamp == r.lastLoadedTimestamp
            && s.counter == r.counter + (if Due(r, p) then 1 else 0)
            && s.lastFlushTimestamp == (if Due(r, p) && checkpoint then p.time else r.lastFlushTimestamp)
            && Records(s.tail) == if Due(r, p) then (if checkpoint then 0 else Records(r.tail) + 1) else Records(r.tail)
  {
    var e := Record(p, r.counter + 1);
    RecordsAppend(r.tail, [e]);
    assert [e][..0] == [];
  }

  /** A packet whose number calls for a checkpoint gets one. */
  lemma CheckpointNoticed(ps: seq<Packet>, start: int, n: nat, r: Progress)
    requires InOrder(ps) && TiesAreSafe(ps, start) && ZeroIsNoCheckpoint(ps, start)
    requires n < |ps| && RunOk(ps, start, n, r) && Due(r, ps[n]) && (r.counter + 1) % CHECKPOINT == 0
    ensures ps[n].time != r.lastFlushTimestamp
  {
    NumberOfDue(ps, start, n, r);
    assert CalledFor(ps, start, n);
  }

  /** The buffer grows by one packet, or is flushed. */
  lemma NextRemainder(buffered: nat, counter: nat)
    requires buffered <= counter % CHECKPOINT
    ensures (counter + 1) % CHECKPOINT != 0 ==> buffered + 1 <= (counter + 1) % CHECKPOINT
  {
  }

  lemma BufferAfterStep(r: Progress, p: Packet)
    requires BufferOk(r)
    requires Due(r, p) && (r.counter + 1) % CHECKPOINT == 0 ==> p.time != r.lastFlushTimestamp
    ensures BufferOk(Step(r, p))
  {
    StepTail(r, p);
    NextRemainder(Records(r.tail), r.counter);
  }

  lemma StepBuffers(ps: seq<Packet>, start: int, n: nat, r: Progress)
    requires InOrder(ps) && TiesAreSafe(ps, start) && ZeroIsNoCheckpoint(ps, start)
    requires n < |ps| && RunOk(ps, start, n, r) && BufferOk(r)
    ensures BufferOk(Step(r, ps[n]))
  {
    if Due(r, ps[n]) && (r.counter + 1) % CHECKPOINT == 0 {
      CheckpointNoticed(ps, start, n, r);
    }
    BufferAfterStep(r, ps[n]);
  }

  lemma {:induction false} StepsBuffer(ps: seq<Packet>, start: int, n: nat, r: Progress)
    requires InOrder(ps) && TiesAreSafe(ps, start) && ZeroIsNoCheckpoint(ps, start)
    requires n <= |ps| && RunOk(ps, start, 0, r) && BufferOk(r)
    ensures BufferOk(Steps(r, ps[..n]))
  {
    if n > 0 {
      var before := Steps(r, ps[..n - 1]);
      StepsBuffer(ps, start, n - 1, r);
      StepsOk(ps, start, n - 1, r);
      StepBuffers(ps, start, n - 1, before);
      assert ps[..n][..n - 1] == ps[..n - 1];
    } else {
      assert ps[..n] == [];
    }
  }

  /** At every point of a download at most 9999 packets are written and not yet covered by a checkpoint. */
  lemma BufferIsBounded(ps: seq<Packet>, start: int, d: Disk, force: bool, n: nat)
    requires InOrder(ps) && TiesAreSafe(ps, start) && ZeroIsNoCheckpoint(ps, start)
    requires n <= |ps| && DiskOk(ps, start, d)
    ensures Records(Steps(Begin(d, force, start), ps[..n]).tail) <= 9999
  {
    var r := Begin(d, force, start);
    BeginOk(ps, start, d, force);
    assert r.tail == [] || r.tail[..0] == [];
    StepsBuffer(ps, start, n, r);
  }

  /** What is flushed, and what is written at all, exceeds the counts by no more than earlier crashes left behind. */
  ghost predicate Excess(r: Progress, extra: nat) {
    Records(r.data) <= r.meta.packageCount + extra && Records(r.data + r.tail) <= r.counter + extra
  }

  lemma {:induction false} StepsExcess(r: Progress, ps: seq<Packet>, extra: nat)
    requires Excess(r, extra)
    ensures Excess(Steps(r, ps), extra)
  {
    if ps != [] {
      var n := |ps| - 1;
      StepsExcess(r, ps[..n], extra);
      StepRecords(Steps(r, ps[..n]), ps[n]);
    }
  }

  /** What a step does to the number of records, flushed or not. */
  lemma StepRecords(r: Progress, p: Packet)
    ensures var s := Step(r, p);
            && s.counter == r.counter + (if Due(r, p) then 1 else 0)
            && Records(s.data + s.tail) == Records(r.data + r.tail) + (if Due(r, p) then 1 else 0)
            && ((s.data == r.data && s.meta == r.meta)
                || (s.data == s.data + s.tail && s.meta.packageCount == s.counter))
  {
    var s := Step(r, p);
    if Due(r, p) {
      var e := Record(p, r.counter + 1);
      RecordsAppend(r.data + r.tail, [e]);
      assert [e][..0] == [];
      assert s.data + s.tail == r.data + r.tail + [e];
    }
  }

  ghost function Crashes(ss: seq<Session>): nat {
    if ss == [] then 0 else Crashes(ss[..|ss| - 1]) + if ss[|ss| - 1].Crashed? then 1 else 0
  }

  /** The records on disk exceed what the meta file counts by no more than this. */
  ghost predicate DiskExcess(d: Disk, extra: nat) {
    Records(d.data) <= (if d.meta.Some? then d.meta.value.packageCount else 0) + extra
  }

  lemma CrashExcess(r: Progress, keep: nat, extra: nat)
    requires Excess(r, extra) && keep <= |r.tail| && Records(r.tail) <= 9999
    ensures DiskExcess(Crash(r, keep), extra + 9999)
  {
    RecordsAppend(r.data, r.tail[..keep]);
    RecordsAppend(r.tail[..keep], r.tail[keep..]);
    assert r.tail == r.tail[..keep] + r.tail[keep..];
  }

  lemma EndExcess(r: Progress, extra: nat)
    requires Excess(r, extra)
    ensures DiskExcess(End(r), extra)
  {
    RecordsAppend(r.data + r.tail, [Footer(r.counter)]);
    assert [Footer(r.counter)][..0] == [];
  }

  /** Each crash leaves at most 9999 records that a later run writes again; these are all the duplicates there are. */
  lemma {:induction false} DuplicatesAreBounded(ps: seq<Packet>, start: int, ss: seq<Session>)
    requires InOrder(ps) && TiesAreSafe(ps, start) && ZeroIsNoCheckpoint(ps, start) && History(ps, start, ss)
    ensures DiskExcess(DiskAfter(ps, start, ss), 9999 * Crashes(ss))
  {
    if ss != [] {
      var m := |ss| - 1;
      var d, s, extra := DiskAfter(ps, start, ss[..m]), ss[m], 9999 * Crashes(ss[..m]);
      DuplicatesAreBounded(ps, start, ss[..m]);
      MetaIsAlwaysExact(ps, start, ss[..m]);
      var r := Begin(d, s.force, start);
      BeginExcess(d, s.force, start, extra);
      match s
      case Crashed(_, n, keep) =>
        StepsExcess(r, ps[..n], extra);
        BufferIsBounded(ps, start, d, s.force, n);
        CrashExcess(Steps(r, ps[..n]), keep, extra);
      case Completed(_) =>
        StepsExcess(r, ps, extra);
        EndExcess(Steps(r, ps), extra);
    }
  }

  lemma BeginExcess(d: Disk, force: bool, start: int, extra: nat)
    requires DiskExcess(d, extra)
    ensures Excess(Begin(d, force, start), extra)
  {
    RecordsAppend(d.data, [LineBreak]);
    assert [LineBreak][..0] == [] && d.data + [] == d.data;
  }

  // ---------- nothing is missing ----------

  /** The records on disk are no fewer than what the meta file counts. */
  ghost predicate DiskHas(d: Disk) {
    d.meta.Some? ==> d.meta.value.packageCount <= Records(d.data)
  }

  ghost predicate RunHas(r: Progress) {
    r.meta.packageCount <= Records(r.data) && r.counter <= Records(r.data + r.tail)
  }

  lemma BeginHas(d: Disk, force: bool, start: int)
    requires DiskHas(d)
    ensures RunHas(Begin(d, force, start))
  {
    RecordsAppend(d.data, [LineBreak]);
    assert [LineBreak][..0] == [] && d.data + [] == d.data;
  }

  lemma {:induction false} StepsHave(r: Progress, ps: seq<Packet>)
    requires RunHas(r)
    ensures RunHas(Steps(r, ps))
  {
    if ps != [] {
      var n := |ps| - 1;
      StepsHave(r, ps[..n]);
      StepHas(Steps(r, ps[..n]), ps[n]);
    }
  }

  lemma StepHas(r: Progress, p: Packet)
    requires RunHas(r)
    ensures RunHas(Step(r, p))
  {
    StepRecords(r, p);
  }

  lemma SessionHas(ps: seq<Packet>, start: int, d: Disk, s: Session)
    requires DiskHas(d) && CanHappen(ps, start, d, s)
    ensures DiskHas(AfterSession(ps, start, d, s))
  {
    var r := Begin(d, s.force, start);
    BeginHas(d, s.force, start);
    match s
    case Crashed(_, n, keep) =>
      StepsHave(r, ps[..n]);
      RecordsAppend(Steps(r, ps[..n]).data, Steps(r, ps[..n]).tail[..keep]);
    case Completed(_) =>
      StepsHave(r, ps);
      RecordsAppend(Steps(r, ps).data + Steps(r, ps).tail, [Footer(Steps(r, ps).counter)]);
  }

  lemma {:induction false} HistoryHas(ps: seq<Packet>, start: int, ss: seq<Session>)
    requires History(ps, start, ss)
    ensures DiskHas(DiskAfter(ps, start, ss))
  {
    if ss != [] {
      var n := |ss| - 1;
      HistoryHas(ps, start, ss[..n]);
      SessionHas(ps, start, DiskAfter(ps, start, ss[..n]), ss[n]);
    }
  }

  /** Every packet that is due has a record, and there are no fewer records than such packets. */
  ghost predicate Complete(ps: seq<Packet>, start: int, d: Disk) {
    && CountAfter(ps, start) <= Records(d.data)
    && forall p :: p in ps && Decodable(p) && start < p.time ==> Delivered(d.data, p)
  }

  /** However often the download crashed and was resumed, it is complete after a completed run. */
  lemma CompletedIsComplete(ps: seq<Packet>, start: int, ss: seq<Session>)
    requires InOrder(ps) && TiesAreSafe(ps, start)
    requires History(ps, start, ss) && ss != [] && ss[|ss| - 1].Completed?
    ensures Complete(ps, start, DiskAfter(ps, start, ss))
  {
    var n := |ss| - 1;
    var d := DiskAfter(ps, start, ss[..n]);
    forall p | p in ps && Decodable(p) && start < p.time ensures Delivered(DiskAfter(ps, start, ss).data, p) {
      AtLeastOnce(ps, start, ss, p);
    }
    MetaIsAlwaysExact(ps, start, ss);
    HistoryHas(ps, start, ss);
    StepsDeliver(Begin(d, ss[n].force, start), ps, Packet("", 0, None));
    CountIsCountAfter(ps, start, LastTime(ps));
  }
}
