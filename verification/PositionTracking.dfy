/** The per-MMSI position tracker kept by the online writer and by each bulk area writer. */
module PositionTracking {
  import opened Wrappers
  import opened AisPackets

  datatype PositionTime = PositionTime(position: Position, time: int)

  type Tracker = map<int, PositionTime>

  /** What a writer goes through: packets arrive, and the cache may drop entries at any moment. */
  datatype Event = Received(packet: Packet) | Expired(mmsis: set<int>)

  /** The merge function of the cache: the older entry stays only if its time is strictly greater. */
  function Better(older: PositionTime, newer: PositionTime): PositionTime {
    if older.time > newer.time then older else newer
  }

  function Report(p: Packet): PositionTime
    requires HasPosition(p)
  {
    PositionTime(p.message.value.position.value, p.time)
  }

  function Observe(tracker: Tracker, p: Packet): Tracker {
    if !HasPosition(p) then tracker
    else
      var mmsi := Mmsi(p);
      tracker[mmsi := if mmsi in tracker then Better(tracker[mmsi], Report(p)) else Report(p)]
  }

  /** The position a packet is stored under: its own, else the tracked one of its MMSI. */
  function TargetPosition(tracker: Tracker, p: Packet): Option<Position> {
    if p.message.None? then None
    else if p.message.value.position.Some? then p.message.value.position
    else if p.message.value.userId in tracker then Some(tracker[p.message.value.userId].position)
    else None
  }

  function Step(tracker: Tracker, e: Event): Tracker {
    match e
    case Received(p) => Observe(tracker, p)
    case Expired(mmsis) => tracker - mmsis
  }

  /** The tracker after a run that starts with an empty one. */
  function After(es: seq<Event>): Tracker {
    if es == [] then map[] else Step(After(es[..|es| - 1]), es[|es| - 1])
  }

  ghost predicate Reports(e: Event, mmsi: int) {
    e.Received? && HasPosition(e.packet) && Mmsi(e.packet) == mmsi
  }

  ghost predicate Drops(e: Event, mmsi: int) {
    e.Expired? && mmsi in e.mmsis
  }

  /** The first index from which no entry of the MMSI is dropped. */
  ghost function Since(es: seq<Event>, mmsi: int): (n: nat)
    ensures n <= |es|
    ensures forall i :: n <= i < |es| ==> !Drops(es[i], mmsi)
    ensures n > 0 ==> Drops(es[n - 1], mmsi)
  {
    if es == [] then 0
    else if Drops(es[|es| - 1], mmsi) then |es|
    else Since(es[..|es| - 1], mmsi)
  }

  /** Event j is the report of greatest time from index n on, the last of them among equals. */
  ghost predicate IsLatest(es: seq<Event>, n: nat, mmsi: int, j: int) {
    && n <= j < |es| && Reports(es[j], mmsi)
    && (forall i :: n <= i < j && Reports(es[i], mmsi) ==> es[i].packet.time <= es[j].packet.time)
    && (forall i :: j < i < |es| && Reports(es[i], mmsi) ==> es[i].packet.time < es[j].packet.time)
  }

  /** The latest report after one more event that drops nothing: the new event, if it is a report at least as recent. */
  lemma LatestOfOneMore(es: seq<Event>, n: nat, mmsi: int, j: int)
    requires n < |es| && IsLatest(es[..|es| - 1], n, mmsi, j)
    ensures var m := |es| - 1;
            IsLatest(es, n, mmsi, if Reports(es[m], mmsi) && es[m].packet.time >= es[j].packet.time then m else j)
  {
    var m := |es| - 1;
    var front := es[..m];
    assert forall i :: n <= i < m ==> es[i] == front[i];
  }

  /** What a tracker should hold for an MMSI whose reports count from index n on. */
  ghost predicate HoldsLatest(tracker: Tracker, es: seq<Event>, n: nat, mmsi: int) {
    if mmsi in tracker then exists j :: IsLatest(es, n, mmsi, j) && tracker[mmsi] == Report(es[j].packet)
    else forall i :: n <= i < |es| ==> !Reports(es[i], mmsi)
  }

  /** The MMSI is not tracked, and the new event does not change that. */
  lemma StillAbsent(tracker: Tracker, es: seq<Event>, n: nat, mmsi: int)
    requires n < |es| && mmsi !in tracker && HoldsLatest(tracker, es[..|es| - 1], n, mmsi)
    requires !Drops(es[|es| - 1], mmsi) && !Reports(es[|es| - 1], mmsi)
    ensures HoldsLatest(Step(tracker, es[|es| - 1]), es, n, mmsi)
  {
    assert mmsi !in Step(tracker, es[|es| - 1]);
    forall i | n <= i < |es| ensures !Reports(es[i], mmsi) {
      assert i < |es| - 1 ==> es[i] == es[..|es| - 1][i];
    }
  }

  /** The MMSI is not tracked, and reports. */
  lemma FirstReport(tracker: Tracker, es: seq<Event>, n: nat, mmsi: int)
    requires n < |es| && mmsi !in tracker && HoldsLatest(tracker, es[..|es| - 1], n, mmsi)
    requires Reports(es[|es| - 1], mmsi)
    ensures HoldsLatest(Step(tracker, es[|es| - 1]), es, n, mmsi)
  {
    var m := |es| - 1;
    forall i | n <= i < m ensures !Reports(es[i], mmsi) {
      assert es[i] == es[..m][i];
    }
    assert IsLatest(es, n, mmsi, m);
  }

  /** The MMSI is tracked: its entry stays or is replaced by a report at least as recent. */
  lemma StillTracked(tracker: Tracker, es: seq<Event>, n: nat, mmsi: int, j: int)
    requires n < |es| && mmsi in tracker && !Drops(es[|es| - 1], mmsi)
    requires IsLatest(es[..|es| - 1], n, mmsi, j) && tracker[mmsi] == Report(es[j].packet)
    ensures HoldsLatest(Step(tracker, es[|es| - 1]), es, n, mmsi)
  {
    var m := |es| - 1;
    LatestOfOneMore(es, n, mmsi, j);
    var latest := if Reports(es[m], mmsi) && es[m].packet.time >= es[j].packet.time then m else j;
    EntryAfterOneMore(tracker, es[m], mmsi, es[j].packet);
    assert IsLatest(es, n, mmsi, latest);
    assert Step(tracker, es[m])[mmsi] == Report(es[latest].packet);
  }

  /** The entry after one more event, seen from the packet whose report it was. */
  lemma EntryAfterOneMore(tracker: Tracker, e: Event, mmsi: int, p: Packet)
    requires mmsi in tracker && !Drops(e, mmsi) && HasPosition(p) && tracker[mmsi] == Report(p)
    ensures mmsi in Step(tracker, e)
    ensures Step(tracker, e)[mmsi]
            == Report(if Reports(e, mmsi) && e.packet.time >= p.time then e.packet else p)
  {
  }

  lemma HoldsAfterOneMore(tracker: Tracker, es: seq<Event>, n: nat, mmsi: int)
    requires n < |es| && !Drops(es[|es| - 1], mmsi)
    requires HoldsLatest(tracker, es[..|es| - 1], n, mmsi)
    ensures HoldsLatest(Step(tracker, es[|es| - 1]), es, n, mmsi)
  {
    if mmsi in tracker {
      var front := es[..|es| - 1];
      var j :| IsLatest(front, n, mmsi, j) && tracker[mmsi] == Report(front[j].packet);
      StillTracked(tracker, es, n, mmsi, j);
    } else if Reports(es[|es| - 1], mmsi) {
      FirstReport(tracker, es, n, mmsi);
    } else {
      StillAbsent(tracker, es, n, mmsi);
    }
  }

  lemma {:induction false} AlwaysHoldsLatest(es: seq<Event>, mmsi: int)
    ensures HoldsLatest(After(es), es, Since(es, mmsi), mmsi)
  {
    if es != [] && !Drops(es[|es| - 1], mmsi) {
      AlwaysHoldsLatest(es[..|es| - 1], mmsi);
      HoldsAfterOneMore(After(es[..|es| - 1]), es, Since(es, mmsi), mmsi);
    }
  }

  /**
   * The tracker holds, for each MMSI that has reported since its entry was last dropped, the report of greatest time,
   * and nothing for any other MMSI.
   */
  lemma TrackerHoldsLatest(es: seq<Event>, mmsi: int)
    ensures mmsi in After(es) <==> exists i :: Since(es, mmsi) <= i < |es| && Reports(es[i], mmsi)
    ensures mmsi in After(es) ==>
              exists j :: IsLatest(es, Since(es, mmsi), mmsi, j)
                          && After(es)[mmsi]
                             == PositionTime(es[j].packet.message.value.position.value, es[j].packet.time)
  {
    AlwaysHoldsLatest(es, mmsi);
    if mmsi in After(es) {
      var j :| IsLatest(es, Since(es, mmsi), mmsi, j) && After(es)[mmsi] == Report(es[j].packet);
      assert Report(es[j].packet) == PositionTime(es[j].packet.message.value.position.value, es[j].packet.time);
    }
  }

  /** As long as its entry is not dropped, the tracked time of an MMSI never moves back, however old the packets. */
  lemma {:induction false} TrackerNeverMovesBack(es: seq<Event>, n: nat, mmsi: int)
    requires n <= |es| && mmsi in After(es[..n])
    requires forall i :: n <= i < |es| ==> !Drops(es[i], mmsi)
    ensures mmsi in After(es) && After(es[..n])[mmsi].time <= After(es)[mmsi].time
  {
    if n == |es| {
      assert es[..n] == es;
    } else {
      assert es[..|es| - 1][..n] == es[..n];
      TrackerNeverMovesBack(es[..|es| - 1], n, mmsi);
    }
  }

  ghost predicate NothingDropped(es: seq<Event>) {
    forall i :: 0 <= i < |es| ==> es[i].Received?
  }

  ghost predicate DistinctReportTimes(es: seq<Event>) {
    forall i, j, mmsi :: 0 <= i < j < |es| && Reports(es[i], mmsi) && Reports(es[j], mmsi) ==>
      es[i].packet.time != es[j].packet.time
  }

  /** The final tracker does not depend on the order of arrival when the reports of an MMSI have distinct times. */
  lemma TrackerIgnoresOrder(es: seq<Event>, fs: seq<Event>)
    requires multiset(es) == multiset(fs)
    requires NothingDropped(es) && DistinctReportTimes(es)
    ensures After(es) == After(fs)
  {
    forall e ensures e in es <==> e in fs {
      assert e in multiset(es) <==> e in multiset(fs);
    }
    forall i | 0 <= i < |fs| ensures fs[i].Received? {
      assert fs[i] in es;
    }
    forall mmsi
      ensures mmsi in After(es) <==> mmsi in After(fs)
      ensures mmsi in After(es) ==> After(es)[mmsi] == After(fs)[mmsi]
    {
      TrackerHoldsLatest(es, mmsi);
      TrackerHoldsLatest(fs, mmsi);
      if mmsi in After(es) {
        var i :| 0 <= i < |es| && Reports(es[i], mmsi);
        assert es[i] in fs;
      }
      if mmsi in After(fs) {
        var i :| 0 <= i < |fs| && Reports(fs[i], mmsi);
        assert fs[i] in es;
      }
      if mmsi in After(es) && mmsi in After(fs) {
        LatestAgree(es, fs, mmsi);
      }
    }
  }

  lemma LatestAgree(es: seq<Event>, fs: seq<Event>, mmsi: int)
    requires NothingDropped(es) && NothingDropped(fs) && DistinctReportTimes(es)
    requires forall e :: e in es <==> e in fs
    requires mmsi in After(es) && mmsi in After(fs)
    ensures After(es)[mmsi] == After(fs)[mmsi]
  {
    TrackerHoldsLatest(es, mmsi);
    TrackerHoldsLatest(fs, mmsi);
    assert Since(es, mmsi) == 0 == Since(fs, mmsi);
    var j :| IsLatest(es, 0, mmsi, j)
             && After(es)[mmsi] == PositionTime(es[j].packet.message.value.position.value, es[j].packet.time);
    var k :| IsLatest(fs, 0, mmsi, k)
             && After(fs)[mmsi] == PositionTime(fs[k].packet.message.value.position.value, fs[k].packet.time);
    assert es[j] in fs && fs[k] in es;
    var j' :| 0 <= j' < |fs| && fs[j'] == es[j];
    var k' :| 0 <= k' < |es| && es[k'] == fs[k];
    LatestIsGreatest(es, mmsi, j, k');
    LatestIsGreatest(fs, mmsi, k, j');
    assert j == k';
  }

  lemma LatestIsGreatest(es: seq<Event>, mmsi: int, j: int, i: int)
    requires IsLatest(es, 0, mmsi, j) && 0 <= i < |es| && Reports(es[i], mmsi)
    ensures es[i].packet.time <= es[j].packet.time
  {
  }
}
