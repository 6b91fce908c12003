/** The resumable download: packets are appended to a data file, and a meta file records how far the download got. */
module FileExportRest {
  import opened Wrappers
  import opened AisPackets

  /** What a run appends to the data file: the line break of a resume, a packet with its number, the footer. */
  datatype Entry = LineBreak | Record(packet: Packet, number: nat) | Footer(number: nat)

  datatype Meta = Meta(timestamp: int, packageCount: nat)

  /** What a run finds on disk. */
  datatype Disk = Disk(data: seq<Entry>, meta: Option<Meta>)

  /** A run under way: what is on disk, what is still in the output buffer, and the status variables. */
  datatype Progress = Progress(data: seq<Entry>, tail: seq<Entry>, meta: Meta,
                               currentTimeStamp: int, lastLoadedTimestamp: int, lastFlushTimestamp: int, counter: nat)

  const CHECKPOINT := 10000

  /** The start of a run: it resumes unless it is forced or the meta file counts no packet. */
  function Begin(d: Disk, force: bool, start: int): Progress {
    if !force && d.meta.Some? && d.meta.value.packageCount != 0 then
      Progress(d.data, [LineBreak], d.meta.value, 0, d.meta.value.timestamp, 0, d.meta.value.packageCount)
    else
      Progress(if force then [] else d.data, [], Meta(start, 0), 0, start, 0, 0)
  }

  function Step(r: Progress, p: Packet): Progress {
    var seen := r.(currentTimeStamp := p.time);
    if r.lastLoadedTimestamp >= p.time || p.message.None? then seen
    else
      var number := r.counter + 1;
      var tail := r.tail + [Record(p, number)];
      if p.time != r.lastFlushTimestamp && number % CHECKPOINT == 0 then
        seen.(counter := number, data := r.data + tail, tail := [], meta := Meta(p.time, number),
              lastFlushTimestamp := p.time)
      else
        seen.(counter := number, tail := tail)
  }

  function Steps(r: Progress, ps: seq<Packet>): Progress {
    if ps == [] then r else Step(Steps(r, ps[..|ps| - 1]), ps[|ps| - 1])
  }

  function End(r: Progress): Disk {
    Disk(r.data + r.tail + [Footer(r.counter)], Some(Meta(r.currentTimeStamp, r.counter)))
  }

  /** A crash keeps what was flushed and any prefix of the buffer. */
  function Crash(r: Progress, keep: nat): Disk
    requires keep <= |r.tail|
  {
    Disk(r.data + r.tail[..keep], Some(r.meta))
  }

  // ---------- what a run writes ----------

  /** The packets of a stream that a run writes: the decodable ones later than the timestamp it loaded, in order. */
  function DueOf(ps: seq<Packet>, loaded: int): seq<Packet> {
    if ps == [] then []
    else
      var p := ps[|ps| - 1];
      DueOf(ps[..|ps| - 1], loaded) + if p.message.Some? && p.time > loaded then [p] else []
  }

  /** The records of packets numbered consecutively after a count. */
  function Numbered(ps: seq<Packet>, count: nat): (entries: seq<Entry>)
    ensures |entries| == |ps|
    ensures forall i :: 0 <= i < |ps| ==> entries[i] == Record(ps[i], count + 1 + i)
  {
    seq(|ps|, i requires 0 <= i < |ps| => Record(ps[i], count + 1 + i))
  }

  /** A run appends the records of the packets that are due, in stream order and numbered on from the loaded count. */
  lemma {:induction false} StepsAppend(r: Progress, ps: seq<Packet>)
    ensures var s, due := Steps(r, ps), DueOf(ps, r.lastLoadedTimestamp);
            && s.data + s.tail == r.data + r.tail + Numbered(due, r.counter)
            && r.data <= s.data
            && s.counter == r.counter + |due| && s.lastLoadedTimestamp == r.lastLoadedTimestamp
  {
    var due := DueOf(ps, r.lastLoadedTimestamp);
    if ps == [] {
      assert Numbered(due, r.counter) == [];
    } else {
      var n := |ps| - 1;
      var front := DueOf(ps[..n], r.lastLoadedTimestamp);
      StepsAppend(r, ps[..n]);
      StepAppends(Steps(r, ps[..n]), ps[n]);
      if ps[n].message.Some? && ps[n].time > r.lastLoadedTimestamp {
        assert Numbered(due, r.counter) == Numbered(front, r.counter) + [Record(ps[n], r.counter + |front| + 1)];
      }
    }
  }

  lemma StepAppends(r: Progress, p: Packet)
    ensures var s := Step(r, p);
            && s.data + s.tail == r.data + r.tail + (if p.message.Some? && p.time > r.lastLoadedTimestamp
                                                     then [Record(p, r.counter + 1)] else [])
            && r.data <= s.data && s.lastLoadedTimestamp == r.lastLoadedTimestamp
            && s.counter == r.counter + if p.message.Some? && p.time > r.lastLoadedTimestamp then 1 else 0
  {
  }

  /** Whether a run resumes, the timestamp from which it goes on, and the number of packets it counts before. */
  predicate Resumes(d: Disk, force: bool) {
    !force && d.meta.Some? && d.meta.value.packageCount > 0
  }

  function LoadedTime(d: Disk, force: bool, start: int): int {
    if Resumes(d, force) then d.meta.value.timestamp else start
  }

  function LoadedCount(d: Disk, force: bool): nat {
    if Resumes(d, force) then d.meta.value.packageCount else 0
  }

  /** The data file a run starts from, and the line break it adds if it resumes. */
  function OldData(d: Disk, force: bool): seq<Entry> {
    (if force then [] else d.data) + if Resumes(d, force) then [LineBreak] else []
  }

  /** A complete run: the old data, the packets that are due in stream order with consecutive numbers, the footer. */
  lemma CompletedFile(d: Disk, force: bool, start: int, ps: seq<Packet>)
    ensures var due, count := DueOf(ps, LoadedTime(d, force, start)), LoadedCount(d, force);
            End(Steps(Begin(d, force, start), ps))
            == Disk(OldData(d, force) + Numbered(due, count) + [Footer(count + |due|)],
                    Some(Meta(if ps == [] then 0 else ps[|ps| - 1].time, count + |due|)))
  {
    StepsAppend(Begin(d, force, start), ps);
    LastSeen(Begin(d, force, start), ps);
  }

  lemma LastSeen(r: Progress, ps: seq<Packet>)
    ensures Steps(r, ps).currentTimeStamp == if ps == [] then r.currentTimeStamp else ps[|ps| - 1].time
  {
  }

  /** A crashed run: any prefix of what the run would have written that keeps the old data and all that was flushed. */
  lemma CrashedFile(d: Disk, force: bool, start: int, ps: seq<Packet>, n: nat, keep: nat)
    requires n <= |ps| && keep <= |Steps(Begin(d, force, start), ps[..n]).tail|
    ensures var file := Crash(Steps(Begin(d, force, start), ps[..n]), keep).data;
            && (if force then [] else d.data) <= file
            && |file| == |Steps(Begin(d, force, start), ps[..n]).data| + keep
            && file <= OldData(d, force) + Numbered(DueOf(ps, LoadedTime(d, force, start)), LoadedCount(d, force))
  {
    var r := Begin(d, force, start);
    var s := Steps(r, ps[..n]);
    StepsAppend(r, ps[..n]);
    assert s.data + s.tail[..keep] <= s.data + s.tail;
    NumberedGrows(ps, r.lastLoadedTimestamp, n, r.counter);
  }

  lemma NumberedGrows(ps: seq<Packet>, loaded: int, n: nat, count: nat)
    requires n <= |ps|
    ensures Numbered(DueOf(ps[..n], loaded), count) <= Numbered(DueOf(ps, loaded), count)
  {
    DueGrows(ps, loaded, n);
  }

  lemma {:induction false} DueGrows(ps: seq<Packet>, loaded: int, n: nat)
    requires n <= |ps|
    ensures DueOf(ps[..n], loaded) <= DueOf(ps, loaded)
  {
    if n == |ps| {
      assert ps[..n] == ps;
    } else {
      DueGrows(ps[..|ps| - 1], loaded, n);
      assert ps[..|ps| - 1][..n] == ps[..n];
    }
  }

  class FileExportRest {
    const intervalStartTime: int
    const forceDownload: bool
    /** The data file, what is buffered for it, and the meta file. */
    var data: seq<Entry>
    var tail: seq<Entry>
    var metaFile: Option<Meta>
    var currentTimeStamp: int
    var lastLoadedTimestamp: int
    var lastFlushTimestamp: int
    var packageCount: nat
    var counter: nat

    constructor (d: Disk, force: bool, start: int)
      ensures intervalStartTime == start && forceDownload == force
      ensures data == d.data && tail == [] && metaFile == d.meta
      ensures currentTimeStamp == lastLoadedTimestamp == lastFlushTimestamp == 0 && packageCount == 0 == counter
    {
      intervalStartTime, forceDownload := start, force;
      data, tail, metaFile := d.data, [], d.meta;
      currentTimeStamp, lastLoadedTimestamp, lastFlushTimestamp, packageCount, counter := 0, 0, 0, 0, 0;
    }

    function View(): Progress
      requires metaFile.Some?
      reads this
    {
      Progress(data, tail, metaFile.value, currentTimeStamp, lastLoadedTimestamp, lastFlushTimestamp, counter)
    }

    method ReadMeta()
      modifies this
      ensures data == old(data) && tail == old(tail) && metaFile == old(metaFile)
      ensures currentTimeStamp == old(currentTimeStamp) && lastFlushTimestamp == old(lastFlushTimestamp)
      ensures counter == old(counter)
      ensures lastLoadedTimestamp == if metaFile.Some? then metaFile.value.timestamp else old(lastLoadedTimestamp)
      ensures packageCount == if metaFile.Some? then metaFile.value.packageCount else old(packageCount)
    {
      if metaFile.Some? {
        lastLoadedTimestamp := metaFile.value.timestamp;
        packageCount := metaFile.value.packageCount;
      }
    }

    /** The part of run that precedes the request. */
    method Start()
      requires tail == [] && currentTimeStamp == lastFlushTimestamp == 0 && packageCount == 0
      modifies this
      ensures metaFile.Some? && View() == Begin(Disk(old(data), old(metaFile)), forceDownload, intervalStartTime)
    {
      if forceDownload {
        data := [];
      }
      if !forceDownload {
        ReadMeta();
        if packageCount != 0 {
          tail := tail + [LineBreak];
        } else {
          metaFile := Some(Meta(intervalStartTime, packageCount));
          lastLoadedTimestamp := intervalStartTime;
        }
      } else {
        metaFile := Some(Meta(intervalStartTime, packageCount));
        lastLoadedTimestamp := intervalStartTime;
      }
      counter := packageCount;
    }

    /** The packet handler. The meta file is written and the buffer flushed in one step. */
    method Accept(t: Packet)
      requires metaFile.Some?
      modifies this
      ensures metaFile.Some? && View() == Step(old(View()), t)
    {
      var message := t.message;
      currentTimeStamp := t.time;
      if lastLoadedTimestamp >= currentTimeStamp {
        return;
      }
      if message.None? {
        return;
      }
      counter := counter + 1;
      tail := tail + [Record(t, counter)];
      if currentTimeStamp != lastFlushTimestamp && counter % CHECKPOINT == 0 {
        lastFlushTimestamp := currentTimeStamp;
        metaFile := Some(Meta(lastFlushTimestamp, counter));
        data, tail := data + tail, [];
      }
    }

    /** A run over the packets of the server's answer. */
    method Run(ps: seq<Packet>)
      requires tail == [] && currentTimeStamp == lastFlushTimestamp == 0 && packageCount == 0
      modifies this
      ensures tail == [] && Disk(data, metaFile)
                            == End(Steps(Begin(Disk(old(data), old(metaFile)), forceDownload, intervalStartTime), ps))
      ensures var d := Disk(old(data), old(metaFile));
              var due := DueOf(ps, LoadedTime(d, forceDownload, intervalStartTime));
              data == OldData(d, forceDownload) + Numbered(due, LoadedCount(d, forceDownload))
                      + [Footer(LoadedCount(d, forceDownload) + |due|)]
    {
      Start();
      ghost var begun := View();
      var i := 0;
      while i < |ps|
        invariant 0 <= i <= |ps|
        invariant metaFile.Some? && View() == Steps(begun, ps[..i])
      {
        Accept(ps[i]);
        assert ps[..i + 1][..i] == ps[..i];
        i := i + 1;
      }
      assert ps[..i] == ps;
      metaFile := Some(Meta(currentTimeStamp, counter));
      data, tail := data + tail + [Footer(counter)], [];
      CompletedFile(Disk(old(data), old(metaFile)), forceDownload, intervalStartTime, ps);
    }
  }
}
