/** What the resumable download promises across crashes and resumes. */
module Resuming {
  import opened AisPackets
  import opened FileExportRest

  ghost predicate Decodable(p: Packet) {
    p.message.Some?
  }

  /** A packet that has a record in the data file. */
  ghost predicate Delivered(data: seq<Entry>, p: Packet) {
    exists e :: e in data && e.Record? && e.packet == p
  }

  ghost function Records(data: seq<Entry>): nat {
    if data == [] then 0 else Records(data[..|data| - 1]) + if data[|data| - 1].Record? then 1 else 0
  }

  /** The decodable packets with lo < time, and with lo < time <= hi. */
  ghost function CountAfter(ps: seq<Packet>, lo: int): nat {
    if ps == [] then 0
    else
      var p := ps[|ps| - 1];
      CountAfter(ps[..|ps| - 1], lo) + if Decodable(p) && lo < p.time then 1 else 0
  }

  ghost function Count(ps: seq<Packet>, lo: int, hi: int): nat {
    if ps == [] then 0
    else
      var p := ps[|ps| - 1];
      Count(ps[..|ps| - 1], lo, hi) + if Decodable(p) && lo < p.time <= hi then 1 else 0
  }

  /** Packets arrive in order of time. */
  ghost predicate InOrder(ps: seq<Packet>) {
    forall i, j :: 0 <= i < j < |ps| ==> ps[i].time <= ps[j].time
  }

  // ---------- one run over any stream ----------

  lemma DeliveredAppend(a: seq<Entry>, b: seq<Entry>, p: Packet)
    ensures Delivered(a + b, p) <==> Delivered(a, p) || Delivered(b, p)
  {
    if Delivered(a, p) {
      var e :| e in a && e.Record? && e.packet == p;
      assert e in a + b;
    }
    if Delivered(b, p) {
      var e :| e in b && e.Record? && e.packet == p;
      assert e in a + b;
    }
  }

  lemma DeliveredOne(e: Entry, p: Packet)
    ensures Delivered([e], p) <==> e.Record? && e.packet == p
  {
    assert e in [e];
  }

  lemma StepDelivers(r: Progress, q: Packet, p: Packet)
    ensures var s := Step(r, q);
            Delivered(s.data + s.tail, p)
            <==> Delivered(r.data + r.tail, p) || (q == p && Decodable(q) && q.time > r.lastLoadedTimestamp)
  {
    var s := Step(r, q);
    if Decodable(q) && q.time > r.lastLoadedTimestamp {
      var e := Record(q, r.counter + 1);
      assert s.data + s.tail == (r.data + r.tail) + [e];
      DeliveredAppend(r.data + r.tail, [e], p);
      DeliveredOne(e, p);
    }
  }

  /** A run writes, on top of what is there, exactly the decodable packets later than the timestamp it loaded. */
  lemma {:induction false} StepsDeliver(r: Progress, ps: seq<Packet>, p: Packet)
    ensures var s := Steps(r, ps);
            && s.lastLoadedTimestamp == r.lastLoadedTimestamp
            && s.counter == r.counter + CountAfter(ps, r.lastLoadedTimestamp)
            && s.currentTimeStamp == (if ps == [] then r.currentTimeStamp else ps[|ps| - 1].time)
            && (Delivered(s.data + s.tail, p)
                <==> Delivered(r.data + r.tail, p) || (p in ps && Decodable(p) && p.time > r.lastLoadedTimestamp))
  {
    if ps != [] {
      var n := |ps| - 1;
      StepsDeliver(r, ps[..n], p);
      StepDelivers(Steps(r, ps[..n]), ps[n], p);
      assert ps == ps[..n] + [ps[n]];
    }
  }

  /**
   * For any stream, ordered or not: after a complete resumed run a decodable packet has a record if and only if it had
   * one before or is later than the loaded timestamp. What a meta file claims beyond the data file is never made good.
   */
  lemma ResumedRunDelivers(d: Disk, ps: seq<Packet>, start: int, p: Packet)
    requires p in ps && Decodable(p)
    ensures Delivered(End(Steps(Begin(d, false, start), ps)).data, p)
            <==> Delivered(d.data, p)
                 || p.time > if d.meta.Some? && d.meta.value.packageCount != 0 then d.meta.value.timestamp else start
  {
    var r := Begin(d, false, start);
    var s := Steps(r, ps);
    StepsDeliver(r, ps, p);
    DeliveredAppend(d.data, r.tail, p);
    DeliveredOne(LineBreak, p);
    DeliveredAppend(s.data + s.tail, [Footer(s.counter)], p);
    DeliveredOne(Footer(s.counter), p);
  }

  // ---------- counting ----------

  lemma {:induction false} CountSplit(ps: seq<Packet>, lo: int, mid: int)
    requires lo <= mid
    ensures CountAfter(ps, lo) == Count(ps, lo, mid) + CountAfter(ps, mid)
  {
    if ps != [] {
      CountSplit(ps[..|ps| - 1], lo, mid);
    }
  }

  lemma {:induction false} CountIsCountAfter(ps: seq<Packet>, lo: int, hi: int)
    requires forall i :: 0 <= i < |ps| ==> ps[i].time <= hi
    ensures Count(ps, lo, hi) == CountAfter(ps, lo)
  {
    if ps != [] {
      CountIsCountAfter(ps[..|ps| - 1], lo, hi);
    }
  }

  /** Nothing to count means no packet to count. */
  lemma {:induction false} NoneCounted(ps: seq<Packet>, lo: int, p: Packet)
    requires CountAfter(ps, lo) == 0 && p in ps && Decodable(p)
    ensures p.time <= lo
  {
    var n := |ps| - 1;
    assert ps == ps[..n] + [ps[n]];
    if p in ps[..n] {
      NoneCounted(ps[..n], lo, p);
    }
  }

  lemma {:induction false} EmptyRange(ps: seq<Packet>, lo: int, hi: int)
    requires hi <= lo
    ensures Count(ps, lo, hi) == 0
  {
    if ps != [] {
      EmptyRange(ps[..|ps| - 1], lo, hi);
    }
  }

  /** No decodable packet that follows has the same time. */
  ghost predicate LastOfTime(ps: seq<Packet>, n: nat)
    requires n < |ps|
  {
    forall j :: n < j < |ps| && Decodable(ps[j]) ==> ps[n].time < ps[j].time
  }

  /** Past the last decodable packet of a time nothing at or before that time is decodable. */
  lemma {:induction false} CountStops(ps: seq<Packet>, n: nat, m: nat, lo: int)
    requires InOrder(ps) && n < m <= |ps| && LastOfTime(ps, n)
    ensures Count(ps[..m], lo, ps[n].time) == CountAfter(ps[..n + 1], lo)
  {
    if m == n + 1 {
      CountIsCountAfter(ps[..m], lo, ps[n].time);
    } else {
      CountStops(ps, n, m - 1, lo);
      assert ps[..m][..m - 1] == ps[..m - 1];
    }
  }

  /** The packets counted up to the last of a time, split at an earlier time. */
  lemma CountUpTo(ps: seq<Packet>, n: nat, lo: int, mid: int)
    requires InOrder(ps) && n < |ps| && LastOfTime(ps, n) && lo <= mid < ps[n].time
    ensures Count(ps, lo, ps[n].time) == Count(ps, lo, mid) + CountAfter(ps[..n + 1], mid)
  {
    assert ps[..|ps|] == ps;
    CountStops(ps, n, |ps|, lo);
    CountStops(ps, n, |ps|, mid);
    CountSplit(ps, lo, mid);
    CountSplit(ps, lo, ps[n].time);
    CountSplit(ps, mid, ps[n].time);
  }

  /** Packets later than the range do not count. */
  lemma {:induction false} CountPrefix(ps: seq<Packet>, n: nat, m: nat, lo: int, hi: int)
    requires n <= m <= |ps| && forall j :: n <= j < m ==> hi < ps[j].time
    ensures Count(ps[..m], lo, hi) == Count(ps[..n], lo, hi)
  {
    if n < m {
      CountPrefix(ps, n, m - 1, lo, hi);
      assert ps[..m][..m - 1] == ps[..m - 1];
    }
  }

  // ---------- checkpoints ----------

  /** The place of a packet among the decodable ones after the start. */
  ghost function Ordinal(ps: seq<Packet>, start: int, n: int): nat
    requires 0 <= n < |ps|
  {
    CountAfter(ps[..n + 1], start)
  }

  /** The packet is due, and its place calls for a checkpoint. */
  ghost predicate CalledFor(ps: seq<Packet>, start: int, n: int) {
    0 <= n < |ps| && Decodable(ps[n]) && start < ps[n].time && Ordinal(ps, start, n) % CHECKPOINT == 0
  }

  /** The first checkpoint of all falls on time zero, which also stands for "not flushed yet": it is skipped. */
  ghost predicate Exempt(ps: seq<Packet>, start: int, n: int)
    requires 0 <= n < |ps|
  {
    ps[n].time == 0 && Count(ps, start, -1) < CHECKPOINT
  }

  /** No decodable packet has the time of an earlier one at which a checkpoint is made. */
  ghost predicate TiesAreSafe(ps: seq<Packet>, start: int) {
    forall i, j :: CalledFor(ps, start, i) && i < j < |ps| && Decodable(ps[j]) && ps[j].time == ps[i].time ==>
      Exempt(ps, start, i)
  }

  /** The last flush was at a packet whose place called for it. */
  ghost predicate FlushOk(ps: seq<Packet>, start: int, n: nat, lastFlush: int) {
    lastFlush == 0 || exists i :: i < n && CalledFor(ps, start, i) && ps[i].time == lastFlush
  }

  lemma NotExempt(ps: seq<Packet>, start: int, n: nat, lastFlush: int)
    requires InOrder(ps) && n < |ps| && FlushOk(ps, start, n, lastFlush) && lastFlush != ps[n].time
    ensures !Exempt(ps, start, n)
  {
    if ps[n].time == 0 {
      var i :| i < n && CalledFor(ps, start, i) && ps[i].time == lastFlush;
      CheckpointBeforeZero(ps, start, i);
    }
  }

  /** A checkpoint before time zero has a checkpoint's worth of packets before zero. */
  lemma CheckpointBeforeZero(ps: seq<Packet>, start: int, i: int)
    requires InOrder(ps) && CalledFor(ps, start, i) && ps[i].time < 0
    ensures Count(ps, start, -1) >= CHECKPOINT
  {
    CountIsCountAfter(ps[..i + 1], start, -1);
    CountGrows(ps, start, -1, i + 1, |ps|);
    assert ps[..|ps|] == ps && ps[..i + 1][..i] == ps[..i];
    PositiveMultiple(Ordinal(ps, start, i));
  }

  lemma PositiveMultiple(n: nat)
    requires n > 0 && n % CHECKPOINT == 0
    ensures n >= CHECKPOINT
  {
  }

  lemma {:induction false} CountGrows(ps: seq<Packet>, lo: int, hi: int, n: nat, m: nat)
    requires n <= m <= |ps|
    ensures Count(ps[..n], lo, hi) <= Count(ps[..m], lo, hi)
  {
    if n < m {
      CountGrows(ps, lo, hi, n, m - 1);
      assert ps[..m][..m - 1] == ps[..m - 1];
    }
  }

  // ---------- the invariant of a run ----------

  /** The meta file is right: it counts the packets up to its timestamp, and all of them are in the data file. */
  ghost predicate MetaOk(ps: seq<Packet>, start: int, data: seq<Entry>, m: Meta) {
    && m.packageCount == Count(ps, start, m.timestamp)
    && forall p :: p in ps && Decodable(p) && start < p.time <= m.timestamp ==> Delivered(data, p)
  }

  ghost predicate RunOk(ps: seq<Packet>, start: int, n: nat, r: Progress)
    requires n <= |ps|
  {
    var loaded := r.lastLoadedTimestamp;
    && MetaOk(ps, start, r.data, r.meta)
    && start <= loaded && r.counter == Count(ps, start, loaded) + CountAfter(ps[..n], loaded)
    && (forall p :: p in ps && Decodable(p) && start < p.time <= loaded ==> Delivered(r.data, p))
    && (forall p :: p in ps[..n] && Decodable(p) && loaded < p.time ==> Delivered(r.data + r.tail, p))
    && FlushOk(ps, start, n, r.lastFlushTimestamp)
  }

  ghost predicate Due(r: Progress, p: Packet) {
    Decodable(p) && r.lastLoadedTimestamp < p.time
  }

  /** The number in the record that a run writes for a packet is its place in the stream, wherever the run resumed. */
  lemma RecordOfDue(ps: seq<Packet>, start: int, n: nat, r: Progress)
    requires InOrder(ps) && n < |ps| && RunOk(ps, start, n, r) && Due(r, ps[n])
    ensures Step(r, ps[n]).data + Step(r, ps[n]).tail == r.data + r.tail + [Record(ps[n], Ordinal(ps, start, n))]
  {
    NumberOfDue(ps, start, n, r);
    StepAppends(r, ps[n]);
  }

  lemma NumberOfDue(ps: seq<Packet>, start: int, n: nat, r: Progress)
    requires InOrder(ps) && n < |ps| && RunOk(ps, start, n, r) && Due(r, ps[n])
    ensures r.counter + 1 == Ordinal(ps, start, n)
  {
    var loaded := r.lastLoadedTimestamp;
    assert ps[..n + 1][..n] == ps[..n] && ps[..|ps|] == ps;
    CountSplit(ps[..n + 1], start, loaded);
    CountPrefix(ps, n, |ps|, start, loaded);
    CountPrefix(ps, n, n + 1, start, loaded);
  }

  /** A checkpoint is made only at the last decodable packet of a time. */
  lemma CheckpointIsLast(ps: seq<Packet>, start: int, n: nat, r: Progress)
    requires InOrder(ps) && TiesAreSafe(ps, start) && n < |ps| && RunOk(ps, start, n, r) && Due(r, ps[n])
    requires (r.counter + 1) % CHECKPOINT == 0 && ps[n].time != r.lastFlushTimestamp
    ensures CalledFor(ps, start, n) && LastOfTime(ps, n)
  {
    NumberOfDue(ps, start, n, r);
    NotExempt(ps, start, n, r.lastFlushTimestamp);
    forall j | n < j < |ps| && Decodable(ps[j]) ensures ps[n].time < ps[j].time {
      assert CalledFor(ps, start, n);
    }
  }

  lemma BeginOk(ps: seq<Packet>, start: int, d: Disk, force: bool)
    requires d.meta.Some? ==> MetaOk(ps, start, d.data, d.meta.value)
    ensures RunOk(ps, start, 0, Begin(d, force, start))
  {
    EmptyRange(ps, start, start);
    if d.meta.Some? && d.meta.value.timestamp <= start {
      EmptyRange(ps, start, d.meta.value.timestamp);
    }
  }

  lemma StepOk(ps: seq<Packet>, start: int, n: nat, r: Progress)
    requires InOrder(ps) && TiesAreSafe(ps, start) && n < |ps| && RunOk(ps, start, n, r)
    ensures RunOk(ps, start, n + 1, Step(r, ps[n]))
  {
    StepCounts(ps, start, n, r);
    StepCovers(ps, start, n, r);
    StepMeta(ps, start, n, r);
    StepFlush(ps, start, n, r);
  }

  lemma StepCounts(ps: seq<Packet>, start: int, n: nat, r: Progress)
    requires n < |ps| && RunOk(ps, start, n, r)
    ensures var s, loaded := Step(r, ps[n]), r.lastLoadedTimestamp;
            && s.lastLoadedTimestamp == loaded
            && s.counter == Count(ps, start, loaded) + CountAfter(ps[..n + 1], loaded)
  {
    assert ps[..n + 1][..n] == ps[..n];
  }

  lemma StepCovers(ps: seq<Packet>, start: int, n: nat, r: Progress)
    requires n < |ps| && RunOk(ps, start, n, r)
    ensures var s, loaded := Step(r, ps[n]), r.lastLoadedTimestamp;
            && (forall q :: q in ps && Decodable(q) && start < q.time <= loaded ==> Delivered(s.data, q))
            && (forall q :: q in ps[..n + 1] && Decodable(q) && loaded < q.time ==> Delivered(s.data + s.tail, q))
  {
    var s := Step(r, ps[n]);
    StepKeepsData(r, ps[n]);
    assert ps[..n + 1] == ps[..n] + [ps[n]];
    forall q | q in ps[..n + 1] && Decodable(q) && r.lastLoadedTimestamp < q.time
      ensures Delivered(s.data + s.tail, q)
    {
      StepDelivers(r, ps[n], q);
    }
  }

  lemma StepMeta(ps: seq<Packet>, start: int, n: nat, r: Progress)
    requires InOrder(ps) && TiesAreSafe(ps, start) && n < |ps| && RunOk(ps, start, n, r)
    ensures MetaOk(ps, start, Step(r, ps[n]).data, Step(r, ps[n]).meta)
  {
    var s := Step(r, ps[n]);
    StepKeepsData(r, ps[n]);
    if Due(r, ps[n]) && (r.counter + 1) % CHECKPOINT == 0 && ps[n].time != r.lastFlushTimestamp {
      CheckpointIsLast(ps, start, n, r);
      StepCovers(ps, start, n, r);
      assert s.data + s.tail == s.data;
      CheckpointOk(ps, start, n, r);
    }
  }

  lemma StepFlush(ps: seq<Packet>, start: int, n: nat, r: Progress)
    requires InOrder(ps) && n < |ps| && RunOk(ps, start, n, r)
    ensures FlushOk(ps, start, n + 1, Step(r, ps[n]).lastFlushTimestamp)
  {
    if Due(r, ps[n]) && (r.counter + 1) % CHECKPOINT == 0 {
      NumberOfDue(ps, start, n, r);
      assert CalledFor(ps, start, n);
    }
  }

  /** What is on disk stays there; the meta file changes only together with it. */
  lemma StepKeepsData(r: Progress, p: Packet)
    ensures var s := Step(r, p);
            && (forall q :: Delivered(r.data, q) ==> Delivered(s.data, q))
            && (s.meta == r.meta || (s.tail == [] && s.meta == Meta(p.time, s.counter)))
  {
    forall q | Delivered(r.data, q) ensures Delivered(Step(r, p).data, q) {
      DeliveredAppend(r.data, r.tail + [Record(p, r.counter + 1)], q);
    }
  }

  /** At a checkpoint everything written is flushed, so the new meta file is right. */
  lemma CheckpointOk(ps: seq<Packet>, start: int, n: nat, r: Progress)
    requires InOrder(ps) && n < |ps| && LastOfTime(ps, n)
    requires start <= r.lastLoadedTimestamp < ps[n].time && Decodable(ps[n])
    requires var s := Step(r, ps[n]);
             && s.meta == Meta(ps[n].time, r.counter + 1)
             && r.counter == Count(ps, start, r.lastLoadedTimestamp) + CountAfter(ps[..n], r.lastLoadedTimestamp)
             && (forall q ::
                   q in ps && Decodable(q) && start < q.time <= r.lastLoadedTimestamp ==> Delivered(s.data, q))
             && (forall q ::
                   q in ps[..n + 1] && Decodable(q) && r.lastLoadedTimestamp < q.time ==> Delivered(s.data, q))
    ensures MetaOk(ps, start, Step(r, ps[n]).data, Step(r, ps[n]).meta)
  {
    var p, s := ps[n], Step(r, ps[n]);
    CountUpTo(ps, n, start, r.lastLoadedTimestamp);
    assert ps[..n + 1][..n] == ps[..n];
    forall q | q in ps && Decodable(q) && start < q.time <= p.time ensures Delivered(s.data, q) {
      if r.lastLoadedTimestamp < q.time {
        var i :| 0 <= i < |ps| && ps[i] == q;
        assert i <= n;
        assert q == ps[..n + 1][i];
      }
    }
  }

  lemma {:induction false} StepsOk(ps: seq<Packet>, start: int, n: nat, r: Progress)
    requires InOrder(ps) && TiesAreSafe(ps, start) && n <= |ps| && RunOk(ps, start, 0, r)
    ensures RunOk(ps, start, n, Steps(r, ps[..n]))
  {
    if n > 0 {
      StepsOk(ps, start, n - 1, r);
      StepOk(ps, start, n - 1, Steps(r, ps[..n - 1]));
      assert ps[..n][..n - 1] == ps[..n - 1];
    } else {
      assert ps[..n] == [];
    }
  }
}
