/** Where checkpoints go wrong: exactly which streams lose packets or outgrow the buffer. */
module CheckpointLimits {
  import opened Wrappers
  import opened AisPackets
  import opened FileExportRest
  import opened Resuming
  import opened Sessions

  /** The first packet of a time that calls for a checkpoint. */
  lemma FirstCalledFor(ps: seq<Packet>, start: int, i: int) returns (m: int)
    requires CalledFor(ps, start, i)
    ensures m <= i && CalledFor(ps, start, m) && ps[m].time == ps[i].time
    ensures forall k :: k < m && CalledFor(ps, start, k) ==> ps[k].time != ps[i].time
    decreases i
  {
    if k :| k < i && CalledFor(ps, start, k) && ps[k].time == ps[i].time {
      m := FirstCalledFor(ps, start, k);
    } else {
      m := i;
    }
  }

  lemma {:induction false} CountAfterGrows(ps: seq<Packet>, lo: int, n: nat, m: nat)
    requires n <= m <= |ps|
    ensures CountAfter(ps[..n], lo) <= CountAfter(ps[..m], lo)
  {
    if n < m {
      CountAfterGrows(ps, lo, n, m - 1);
      assert ps[..m][..m - 1] == ps[..m - 1];
    }
  }

  // ---------- packets that share the time of a checkpoint ----------

  const NOTHING := Disk([], None)

  /** An uninterrupted run: its last flush, and that it had one if it got past the first checkpoint. */
  lemma {:induction false} FreshFlush(ps: seq<Packet>, start: int, n: nat)
    requires n <= |ps|
    ensures var s := Steps(Begin(NOTHING, false, start), ps[..n]);
            && s.lastLoadedTimestamp == start && s.counter == CountAfter(ps[..n], start)
            && FlushOk(ps, start, n, s.lastFlushTimestamp)
            && (s.counter >= CHECKPOINT && (forall i :: i < n && CalledFor(ps, start, i) ==> ps[i].time != 0) ==>
                  s.lastFlushTimestamp != 0)
  {
    if n > 0 {
      FreshFlush(ps, start, n - 1);
      assert ps[..n][..n - 1] == ps[..n - 1];
      FreshFlushStep(ps, start, n - 1, Steps(Begin(NOTHING, false, start), ps[..n - 1]));
    } else {
      assert ps[..n] == [];
    }
  }

  lemma FreshFlushStep(ps: seq<Packet>, start: int, n: nat, r: Progress)
    requires n < |ps| && r.lastLoadedTimestamp == start && r.counter == CountAfter(ps[..n], start)
    requires FlushOk(ps, start, n, r.lastFlushTimestamp)
    ensures var s := Step(r, ps[n]);
            && s.lastLoadedTimestamp == start && s.counter == CountAfter(ps[..n + 1], start)
            && FlushOk(ps, start, n + 1, s.lastFlushTimestamp)
    ensures (r.counter >= CHECKPOINT ==> r.lastFlushTimestamp != 0) && (CalledFor(ps, start, n) ==> ps[n].time != 0) ==>
              Step(r, ps[n]).counter >= CHECKPOINT ==> Step(r, ps[n]).lastFlushTimestamp != 0
  {
    assert ps[..n + 1][..n] == ps[..n];
    StepTail(r, ps[n]);
    if Due(r, ps[n]) && (r.counter + 1) % CHECKPOINT == 0 {
      assert CalledFor(ps, start, n);
    }
  }

  /** At the first packet of its time that calls for a checkpoint the last flush was at another time, unless exempt. */
  lemma NotYetFlushedThen(ps: seq<Packet>, start: int, m: int, s: Progress)
    requires InOrder(ps) && CalledFor(ps, start, m) && !Exempt(ps, start, m)
    requires forall k :: k < m && CalledFor(ps, start, k) ==> ps[k].time != ps[m].time
    requires FlushOk(ps, start, m, s.lastFlushTimestamp) && s.counter == CountAfter(ps[..m], start)
    requires s.counter >= CHECKPOINT && (forall i :: i < m && CalledFor(ps, start, i) ==> ps[i].time != 0) ==>
               s.lastFlushTimestamp != 0
    ensures s.lastFlushTimestamp != ps[m].time
  {
    if ps[m].time == 0 {
      PastFirstCheckpoint(ps, start, m);
    }
  }

  /** Before a packet of time zero that is not exempt there was a checkpoint's worth of packets. */
  lemma PastFirstCheckpoint(ps: seq<Packet>, start: int, m: int)
    requires InOrder(ps) && CalledFor(ps, start, m) && !Exempt(ps, start, m) && ps[m].time == 0
    ensures CountAfter(ps[..m], start) >= CHECKPOINT
  {
    assert ps[..|ps|] == ps;
    CountPrefix(ps, m, |ps|, start, -1);
    CountSplit(ps[..m], start, -1);
  }

  /** The first packet of its time that calls for a checkpoint gets one in an uninterrupted run, unless exempt. */
  lemma FreshCheckpoint(ps: seq<Packet>, start: int, m: int)
    requires InOrder(ps) && CalledFor(ps, start, m) && !Exempt(ps, start, m)
    requires forall k :: k < m && CalledFor(ps, start, k) ==> ps[k].time != ps[m].time
    ensures var s := Steps(Begin(NOTHING, false, start), ps[..m + 1]);
            s.meta == Meta(ps[m].time, Ordinal(ps, start, m)) && s.tail == []
  {
    FreshFlush(ps, start, m);
    NotYetFlushedThen(ps, start, m, Steps(Begin(NOTHING, false, start), ps[..m]));
    assert ps[..m + 1][..m] == ps[..m];
  }

  /** More packets are due up to the time of a checkpoint than its place says, if another one shares that time. */
  lemma TieIsUncounted(ps: seq<Packet>, start: int, m: int, j: int)
    requires InOrder(ps) && CalledFor(ps, start, m) && m < j < |ps| && Decodable(ps[j]) && ps[j].time == ps[m].time
    ensures Ordinal(ps, start, m) + CountAfter(ps, ps[m].time) < CountAfter(ps, start)
  {
    CountAfterGrows(ps, start, m + 1, j);
    assert ps[..j + 1][..j] == ps[..j] && ps[..|ps|] == ps;
    CountIsCountAfter(ps[..j + 1], start, ps[m].time);
    CountGrows(ps, start, ps[m].time, j + 1, |ps|);
    CountSplit(ps, start, ps[m].time);
  }

  lemma TwoSessions(ps: seq<Packet>, start: int, a: Session, b: Session)
    requires CanHappen(ps, start, NOTHING, a) && CanHappen(ps, start, AfterSession(ps, start, NOTHING, a), b)
    ensures History(ps, start, [a, b])
    ensures DiskAfter(ps, start, [a, b]) == AfterSession(ps, start, AfterSession(ps, start, NOTHING, a), b)
  {
    assert [a, b][..1] == [a] && [a][..0] == [];
    assert History(ps, start, [a][..0]) && DiskAfter(ps, start, [a][..0]) == NOTHING;
    assert History(ps, start, [a, b][..1]);
  }

  /** What an uninterrupted run has written by its checkpoint at packet m. */
  lemma FreshData(ps: seq<Packet>, start: int, m: int, p: Packet)
    requires 0 <= m < |ps|
    ensures var s := Steps(Begin(NOTHING, false, start), ps[..m + 1]);
            && Records(s.data) <= s.meta.packageCount
            && (p !in ps[..m + 1] ==> !Delivered(s.data + s.tail, p))
  {
    StepsExcess(Begin(NOTHING, false, start), ps[..m + 1], 0);
    StepsDeliver(Begin(NOTHING, false, start), ps[..m + 1], p);
  }

  /**
   * A decodable packet with the time of an earlier checkpoint packet is lost if the download crashes right after that
   * checkpoint and is resumed: the data file ends up with too few records, and without that packet if that is no
   * repetition.
   */
  lemma TieIsLost(ps: seq<Packet>, start: int, i: int, j: int) returns (ss: seq<Session>)
    requires InOrder(ps) && CalledFor(ps, start, i) && !Exempt(ps, start, i)
    requires i < j < |ps| && Decodable(ps[j]) && ps[j].time == ps[i].time
    ensures History(ps, start, ss) && ss != [] && ss[|ss| - 1].Completed?
    ensures Records(DiskAfter(ps, start, ss).data) < CountAfter(ps, start)
    ensures ps[j] !in ps[..i + 1] ==> !Delivered(DiskAfter(ps, start, ss).data, ps[j])
  {
    var m := FirstCalledFor(ps, start, i);
    FreshCheckpoint(ps, start, m);
    FreshData(ps, start, m, ps[j]);
    TieIsUncounted(ps, start, m, j);
    var s := Steps(Begin(NOTHING, false, start), ps[..m + 1]);
    var d := Crash(s, 0);
    assert d.data == s.data && s.data + s.tail == s.data;
    TwoSessions(ps, start, Crashed(false, m + 1, 0), Completed(false));
    ss := [Crashed(false, m + 1, 0), Completed(false)];
    ResumedTooShort(ps, start, d, ps[j]);
    assert ps[j] in ps[..m + 1] ==> ps[j] in ps[..i + 1];
  }

  /** A resumed run adds the packets later than the checkpoint, and no others. */
  lemma ResumedTooShort(ps: seq<Packet>, start: int, d: Disk, p: Packet)
    requires d.meta.Some? && d.meta.value.packageCount > 0 && Records(d.data) <= d.meta.value.packageCount
    requires p in ps && Decodable(p) && p.time <= d.meta.value.timestamp
    ensures var e := End(Steps(Begin(d, false, start), ps));
            && Records(e.data) <= d.meta.value.packageCount + CountAfter(ps, d.meta.value.timestamp)
            && (Delivered(e.data, p) <==> Delivered(d.data, p))
  {
    var r := Begin(d, false, start);
    BeginExcess(d, false, start, 0);
    StepsExcess(r, ps, 0);
    EndExcess(Steps(r, ps), 0);
    StepsDeliver(r, ps, p);
    ResumedRunDelivers(d, ps, start, p);
  }

  /**
   * For a stream in order of time: every history that ends with a completed run leaves a complete data file if and only
   * if no decodable packet has the time of an earlier one at which a checkpoint is made.
   */
  lemma NothingIsLostExactly(ps: seq<Packet>, start: int)
    requires InOrder(ps)
    ensures (forall ss: seq<Session> :: History(ps, start, ss) && ss != [] && ss[|ss| - 1].Completed? ==>
               Complete(ps, start, DiskAfter(ps, start, ss)))
            <==> TiesAreSafe(ps, start)
  {
    if TiesAreSafe(ps, start) {
      forall ss: seq<Session> | History(ps, start, ss) && ss != [] && ss[|ss| - 1].Completed?
        ensures Complete(ps, start, DiskAfter(ps, start, ss))
      {
        CompletedIsComplete(ps, start, ss);
      }
    } else {
      var i, j :| CalledFor(ps, start, i) && i < j < |ps| && Decodable(ps[j]) && ps[j].time == ps[i].time
              && !Exempt(ps, start, i);
      var ss := TieIsLost(ps, start, i, j);
    }
  }

  // ---------- a checkpoint that is missed at time zero ----------

  /** Every smaller place is that of some packet. */
  lemma {:induction false} IndexOfOrdinal(ps: seq<Packet>, start: int, n: nat, place: nat) returns (i: int)
    requires n <= |ps| && 0 < place <= CountAfter(ps[..n], start)
    ensures 0 <= i < n && Decodable(ps[i]) && start < ps[i].time && Ordinal(ps, start, i) == place
  {
    assert ps[..n][..n - 1] == ps[..n - 1];
    if place <= CountAfter(ps[..n - 1], start) {
      i := IndexOfOrdinal(ps, start, n - 1, place);
    } else {
      i := n - 1;
    }
  }

  /** A run that started at r, without a flush yet, has buffered this many packets. */
  ghost predicate AllBuffered(r: Progress, s: Progress, count: nat) {
    && s.lastFlushTimestamp == 0 && s.lastLoadedTimestamp == r.lastLoadedTimestamp
    && s.counter == r.counter + count && Records(s.tail) == count
  }

  lemma BufferOneMore(r: Progress, s: Progress, p: Packet, count: nat)
    requires AllBuffered(r, s, count) && r.counter % CHECKPOINT == 0
    requires Due(r, p) ==> count + 1 < CHECKPOINT || p.time == 0
    ensures AllBuffered(r, Step(s, p), count + if Due(r, p) then 1 else 0)
  {
    StepTail(s, p);
    assert 0 < count + 1 < CHECKPOINT ==> (r.counter + count + 1) % CHECKPOINT != 0;
  }

  /** Up to and over a packet m of time zero nothing is flushed, if its number is the first due for a checkpoint. */
  lemma {:induction false} NothingFlushed(ps: seq<Packet>, r: Progress, m: nat, n: nat)
    requires n <= m + 1 <= |ps| && Due(r, ps[m]) && ps[m].time == 0 && r.counter % CHECKPOINT == 0
    requires CountAfter(ps[..m + 1], r.lastLoadedTimestamp) == CHECKPOINT && AllBuffered(r, r, 0)
    ensures AllBuffered(r, Steps(r, ps[..n]), CountAfter(ps[..n], r.lastLoadedTimestamp))
  {
    if n > 0 {
      NothingFlushed(ps, r, m, n - 1);
      assert ps[..n][..n - 1] == ps[..n - 1] && ps[..m + 1][..m] == ps[..m];
      if n <= m {
        CountAfterGrows(ps, r.lastLoadedTimestamp, n, m);
      }
      BufferOneMore(r, Steps(r, ps[..n - 1]), ps[n - 1], CountAfter(ps[..n - 1], r.lastLoadedTimestamp));
    } else {
      assert ps[..n] == [];
    }
  }

  /** The packet at which the checkpoint before that of packet m, the first to call for one at time zero, is made. */
  lemma CheckpointBefore(ps: seq<Packet>, start: int, m: int) returns (i: int)
    requires InOrder(ps) && TiesAreSafe(ps, start) && CalledFor(ps, start, m) && ps[m].time == 0
    requires forall k :: k < m && CalledFor(ps, start, k) ==> ps[k].time != 0
    requires Ordinal(ps, start, m) > CHECKPOINT
    ensures CalledFor(ps, start, i) && ps[i].time < 0 && Ordinal(ps, start, i) == Ordinal(ps, start, m) - CHECKPOINT
    ensures forall k :: k < i && CalledFor(ps, start, k) ==> ps[k].time != ps[i].time
    ensures CountAfter(ps[..m + 1], ps[i].time) == CHECKPOINT
  {
    assert ps[..m + 1][..m] == ps[..m];
    i := IndexOfOrdinal(ps, start, m, Ordinal(ps, start, m) - CHECKPOINT);
    assert CalledFor(ps, start, i);
    forall k | k < i && CalledFor(ps, start, k) ensures ps[k].time != ps[i].time {
      assert ps[i].time != 0;
    }
    assert LastOfTime(ps, i);
    CountBetween(ps, start, i, m);
  }

  /** The packets due between two places of a stream, if the first is the last of its time. */
  lemma CountBetween(ps: seq<Packet>, start: int, i: int, m: int)
    requires InOrder(ps) && 0 <= i < m < |ps| && LastOfTime(ps, i) && start < ps[i].time < ps[m].time
    ensures Ordinal(ps, start, m) == Ordinal(ps, start, i) + CountAfter(ps[..m + 1], ps[i].time)
  {
    CountStops(ps, i, m + 1, start);
    CountSplit(ps[..m + 1], start, ps[i].time);
  }

  /** A first run that stops right after its checkpoint at packet i. */
  lemma StoppedAtCheckpoint(ps: seq<Packet>, start: int, i: int) returns (ss: seq<Session>)
    requires InOrder(ps) && CalledFor(ps, start, i) && !Exempt(ps, start, i)
    requires forall k :: k < i && CalledFor(ps, start, k) ==> ps[k].time != ps[i].time
    ensures History(ps, start, ss)
    ensures DiskAfter(ps, start, ss).meta == Some(Meta(ps[i].time, Ordinal(ps, start, i)))
  {
    FreshCheckpoint(ps, start, i);
    ss := [Crashed(false, i + 1, 0)];
    assert ss[..0] == [] && History(ps, start, ss[..0]) && DiskAfter(ps, start, ss[..0]) == NOTHING;
  }

  /**
   * A history after which the download, resumed 10000 packets before the first packet of time zero that calls for a
   * checkpoint, buffers them all.
   */
  lemma MissedCheckpoint(ps: seq<Packet>, start: int, z: int) returns (ss: seq<Session>, n: nat)
    requires InOrder(ps) && TiesAreSafe(ps, start) && CalledFor(ps, start, z) && ps[z].time == 0
    ensures History(ps, start, ss) && n <= |ps|
    ensures Records(Steps(Begin(DiskAfter(ps, start, ss), false, start), ps[..n]).tail) == CHECKPOINT
  {
    var m := FirstCalledFor(ps, start, z);
    n := m + 1;
    PositiveOrdinal(ps, start, m);
    if Ordinal(ps, start, m) == CHECKPOINT {
      ss := [];
    } else {
      var i := CheckpointBefore(ps, start, m);
      PositiveOrdinal(ps, start, i);
      ss := StoppedAtCheckpoint(ps, start, i);
    }
    var r := Begin(DiskAfter(ps, start, ss), false, start);
    assert r.tail == [] || r.tail[..0] == [];
    NothingFlushed(ps, r, m, n);
  }

  lemma PositiveOrdinal(ps: seq<Packet>, start: int, n: int)
    requires CalledFor(ps, start, n)
    ensures Ordinal(ps, start, n) >= CHECKPOINT
  {
    assert ps[..n + 1][..n] == ps[..n];
    PositiveMultiple(Ordinal(ps, start, n));
  }

  /**
   * The bound of 9999 holds at every point of every run of every history if and only if no packet of time zero calls
   * for a checkpoint.
   */
  lemma BoundHoldsExactly(ps: seq<Packet>, start: int)
    requires InOrder(ps) && TiesAreSafe(ps, start)
    ensures (forall ss, force, n :: History(ps, start, ss) && 0 <= n <= |ps| ==>
               Records(Steps(Begin(DiskAfter(ps, start, ss), force, start), ps[..n]).tail) <= 9999)
            <==> ZeroIsNoCheckpoint(ps, start)
  {
    if ZeroIsNoCheckpoint(ps, start) {
      forall ss, force, n | History(ps, start, ss) && 0 <= n <= |ps|
        ensures Records(Steps(Begin(DiskAfter(ps, start, ss), force, start), ps[..n]).tail) <= 9999
      {
        MetaIsAlwaysExact(ps, start, ss);
        BufferIsBounded(ps, start, DiskAfter(ps, start, ss), force, n);
      }
    } else {
      var z :| CalledFor(ps, start, z) && ps[z].time == 0;
      var ss, n := MissedCheckpoint(ps, start, z);
    }
  }

  // ---------- two streams that go wrong ----------

  ghost function Stream(first: int, n: nat): (ps: seq<Packet>)
    ensures |ps| == n
    ensures forall i :: 0 <= i < n ==> ps[i] == Packet("", first + i, Some(Message(1, None)))
  {
    seq(n, i => Packet("", first + i, Some(Message(1, None))))
  }

  lemma {:induction false} AllOfStreamCount(first: int, n: nat, lo: int)
    requires lo < first
    ensures CountAfter(Stream(first, n), lo) == n
  {
    if n > 0 {
      AllOfStreamCount(first, n - 1, lo);
      assert Stream(first, n)[..n - 1] == Stream(first, n - 1);
    }
  }

  /** Ten thousand packets, the last of them at time zero: the first run of a download buffers them all. */
  lemma ZeroExample()
    ensures var ps := Stream(-9999, 10000);
            && InOrder(ps) && TiesAreSafe(ps, -10000) && !ZeroIsNoCheckpoint(ps, -10000)
            && Records(Steps(Begin(DiskAfter(ps, -10000, []), false, -10000), ps).tail) == 10000
  {
    var ps := Stream(-9999, 10000);
    AllOfStreamCount(-9999, 10000, -10000);
    assert ps[..9999 + 1] == ps;
    assert CalledFor(ps, -10000, 9999);
    NothingFlushed(ps, Begin(NOTHING, false, -10000), 9999, 10000);
  }

  /** Ten thousand packets, and one more at the time of the last: a crash after the checkpoint between them loses it. */
  lemma TieExample() returns (ss: seq<Session>)
    ensures var late := Packet("late", 10000, Some(Message(1, None)));
            var ps := Stream(1, 10000) + [late];
            && InOrder(ps) && !TiesAreSafe(ps, 0)
            && History(ps, 0, ss) && ss != [] && ss[|ss| - 1].Completed? && !Delivered(DiskAfter(ps, 0, ss).data, late)
  {
    var late := Packet("late", 10000, Some(Message(1, None)));
    var ps := Stream(1, 10000) + [late];
    AllOfStreamCount(1, 10000, 0);
    assert ps[..9999 + 1] == Stream(1, 10000);
    assert CalledFor(ps, 0, 9999) && ps[10000].time == ps[9999].time;
    assert late !in ps[..9999 + 1];
    ss := TieIsLost(ps, 0, 9999, 10000);
  }
}
