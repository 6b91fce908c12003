/** Builds a query: chooses the table and the sub-queries, and runs them against the store. */
module AisStoreQueryBuilder {
  import opened Wrappers
  import opened AisStoreSchema
  import opened Tables
  import opened PartitionReads
  import opened AisStoreQuery
  import opened Merging
  import opened AisStoreQueryResult

  /** What is asked for; an area is given by the 1-degree and 10-degree cells the grid finds, as they are iterated. */
  datatype Selection = Area(cells1: seq<int>, cells10: seq<int>) | ByMmsi(mmsi: seq<int>) | ByTime

  /** The multiplicity of every row in an answer: once for each sub-query whose part it is filed under. */
  ghost function Expected(rows: Rows, table: Table, parts: seq<int>, start: int, stop: int, k: Key): nat {
    if k in rows && k.table == table && start < k.time < stop then multiset(parts)[k.part] else 0
  }

  lemma OrderedOnce(ks: seq<Key>, k: Key)
    requires Ordered(ks)
    ensures multiset(ks)[k] == if k in ks then 1 else 0
  {
    if k in ks {
      var i :| 0 <= i < |ks| && ks[i] == k;
      assert ks == ks[..i] + [k] + ks[i + 1..];
      assert k !in ks[..i] && k !in ks[i + 1..];
    }
  }

  /** One scan for each part. */
  ghost function Scans(rows: Rows, table: Table, parts: seq<int>, start: int, stop: int): (ss: seq<seq<Key>>)
    requires WellFiled(rows)
    ensures |ss| == |parts|
  {
    if parts == [] then []
    else
      var n := |parts| - 1;
      Scans(rows, table, parts[..n], start, stop) + [Scan(rows, table, parts[n], start, stop)]
  }

  /** A scan holds a row once if it is one of its part. */
  lemma ScanOnce(rows: Rows, table: Table, part: int, start: int, stop: int, k: Key)
    requires WellFiled(rows)
    ensures multiset(Scan(rows, table, part, start, stop))[k] == Expected(rows, table, [part], start, stop, k)
  {
    ScanIsOrdered(rows, table, part, start, stop);
    OrderedOnce(Scan(rows, table, part, start, stop), k);
  }

  lemma ExpectedSnoc(rows: Rows, table: Table, parts: seq<int>, start: int, stop: int, k: Key)
    requires parts != []
    ensures var n := |parts| - 1;
            Expected(rows, table, parts, start, stop, k)
            == Expected(rows, table, parts[..n], start, stop, k) + Expected(rows, table, [parts[n]], start, stop, k)
  {
    var n := |parts| - 1;
    assert parts == parts[..n] + [parts[n]];
  }

  /** The rows of all sub-queries together. */
  lemma {:induction false} SumOfScans(rows: Rows, table: Table, parts: seq<int>, start: int, stop: int, k: Key)
    requires WellFiled(rows)
    ensures SumAll(Scans(rows, table, parts, start, stop))[k] == Expected(rows, table, parts, start, stop, k)
  {
    if parts != [] {
      var n := |parts| - 1;
      SumOfScans(rows, table, parts[..n], start, stop, k);
      ScanOnce(rows, table, parts[n], start, stop, k);
      ExpectedSnoc(rows, table, parts, start, stop, k);
      SumAllSnoc(Scans(rows, table, parts[..n], start, stop), Scan(rows, table, parts[n], start, stop));
    }
  }

  lemma {:induction false} ScansAt(rows: Rows, table: Table, parts: seq<int>, start: int, stop: int, i: nat)
    requires WellFiled(rows) && i < |parts|
    ensures Scans(rows, table, parts, start, stop)[i] == Scan(rows, table, parts[i], start, stop)
  {
    if i < |parts| - 1 {
      ScansAt(rows, table, parts[..|parts| - 1], start, stop, i);
    }
  }

  /** The first and last time block of a query by time; None where computing them throws. */
  method TimeRows(start: int, stop: int) returns (ends: Option<(int, int)>)
    ensures ends.Some? <==> Fits(PacketsTime, start) && Fits(PacketsTime, stop - 1)
    ensures ends.Some? ==> ends.value == (Block(PacketsTime, start), Block(PacketsTime, stop - 1))
  {
    var first := TimeBlock(PacketsTime, start);
    var last := TimeBlock(PacketsTime, stop - 1);
    ends := if first.Some? && last.Some? then Some((first.value, last.value)) else None;
  }

  /** What the store answers to the sub-queries: a scan for each part; None where computing the time blocks throws. */
  method AnswerAll(rows: Rows, table: Table, parts: seq<int>, start: int, stop: int)
    returns (answers: Option<seq<seq<Key>>>)
    requires WellFiled(rows)
    ensures BlockList(table, start, stop).Some? ==> answers.Some?
    ensures answers.Some? ==> answers.value == Scans(rows, table, parts, start, stop)
    ensures answers.Some? && parts != [] ==> BlockList(table, start, stop).Some?
  {
    var list: seq<seq<Key>> := [];
    while |list| < |parts|
      invariant |list| <= |parts| && list == Scans(rows, table, parts[..|list|], start, stop)
      invariant list != [] ==> BlockList(table, start, stop).Some?
      decreases |parts| - |list|
    {
      assert parts[..|list| + 1][..|list|] == parts[..|list|];
      var answer := Execute(rows, table, parts[|list|], start, stop);
      if answer.None? {
        return None;
      }
      list := list + [answer.value];
    }
    assert parts[..|list|] == parts;
    answers := Some(list);
  }

  /** The iterator of sub-query i walks through rows that reach its whole answer. */
  ghost predicate Walks(table: Table, parts: seq<int>, ends: Option<(int, int)>, answers: seq<seq<Key>>) {
    |answers| == |parts| && forall i :: 0 <= i < |answers| ==>
      TimeSorted(answers[i]) && (ends.Some? ==> Reachable(table, ends.value.0, ends.value.1, answers[i]))
  }

  /** What the iterators show of the answers: nothing when they ask for no rows at a time. */
  ghost function Visible(batchLimit: int, answers: seq<seq<Key>>): (shown: seq<seq<Key>>)
    ensures |shown| == |answers|
    ensures forall i :: 0 <= i < |shown| ==> shown[i] == if batchLimit >= 1 then answers[i] else []
  {
    if batchLimit >= 1 then answers else seq(|answers|, _ => [])
  }

  method SendNext(inner: AisStoreQueryInnerContext, batchLimit: int, table: Table, rowStart: int, rowStop: int,
                  answer: seq<Key>, qs: seq<AisStoreQuery>, ghost shown: seq<seq<Key>>)
    returns (q: AisStoreQuery)
    requires AllSent(qs, inner, shown) && |qs| < |shown| && shown[|qs|] == if batchLimit >= 1 then answer else []
    requires Reachable(table, rowStart, rowStop, answer)
    modifies inner
    ensures fresh(q) && inner.inner == old(inner.inner) && AllSent(qs + [q], inner, shown)
  {
    q := new AisStoreQuery(inner, batchLimit, table, rowStart, rowStop, answer, |qs|);
    forall i | 0 <= i < |qs| ensures Sent(qs[i], inner, shown[i]) && qs[i] != q {
      assert old(Sent(qs[i], inner, shown[i]));
    }
  }

  /** The iterators of the answered sub-queries. */
  method IteratorsOf(inner: AisStoreQueryInnerContext, batchLimit: int, table: Table, parts: seq<int>,
                     ends: Option<(int, int)>, answers: seq<seq<Key>>, ghost shown: seq<seq<Key>>)
    returns (qs: seq<AisStoreQuery>)
    requires Walks(table, parts, ends, answers) && inner.queries == {} && shown == Visible(batchLimit, answers)
    modifies inner
    ensures AllSent(qs, inner, shown) && |qs| == |parts| && inner.inner == old(inner.inner)
    ensures fresh(qs)
  {
    qs := [];
    while |qs| < |parts|
      invariant AllSent(qs, inner, shown) && |qs| <= |parts| && inner.inner == old(inner.inner)
      invariant fresh(qs)
      decreases |parts| - |qs|
    {
      var rows := if ends.Some? then ends.value else (parts[|qs|], parts[|qs|]);
      var q := SendNext(inner, batchLimit, table, rows.0, rows.1, answers[|qs|], qs, shown);
      qs := qs + [q];
    }
  }

  lemma ScansWalk(rows: Rows, table: Table, parts: seq<int>, start: int, stop: int, ends: Option<(int, int)>)
    requires WellFiled(rows) && (parts != [] ==> BlockList(table, start, stop).Some?)
    requires ends.Some? ==> ends.value == (Block(table, start), Block(table, stop - 1))
    ensures Walks(table, parts, ends, Scans(rows, table, parts, start, stop))
  {
    forall i | 0 <= i < |parts|
      ensures TimeSorted(Scans(rows, table, parts, start, stop)[i])
      ensures ends.Some? ==> Reachable(table, ends.value.0, ends.value.1, Scans(rows, table, parts, start, stop)[i])
    {
      ScansAt(rows, table, parts, start, stop, i);
      ScanIsOrdered(rows, table, parts[i], start, stop);
      ScanInReach(rows, table, parts[i], start, stop);
    }
  }

  /** The settings of a builder at the moment it is executed. */
  datatype Query = Query(selection: Selection, batchLimit: int, start: int, stop: int, cell10Enabled: bool) {
    /** The 10-degree table is read when it saves at least nine in ten sub-queries. */
    predicate UsesCell10() {
      selection.Area? && cell10Enabled && |selection.cells10| * 10 <= |selection.cells1|
    }

    function TableRead(): Table {
      match selection
      case Area(_, _) => if UsesCell10() then PacketsAreaCell10 else PacketsAreaCell1
      case ByMmsi(_) => PacketsMmsi
      case ByTime => PacketsTime
    }

    /** The cells or MMSIs the sub-queries are for. */
    function PartsRead(): seq<int> {
      match selection
      case Area(cells1, cells10) => if UsesCell10() then cells10 else cells1
      case ByMmsi(mmsi) => mmsi
      case ByTime => [0]
    }

    /** Whether the time blocks of the interval can be computed without an exception. */
    ghost predicate Answerable() {
      BlockList(TableRead(), start, stop).Some? && (selection.ByTime? ==> Fits(PacketsTime, stop - 1))
    }

    /** What the sub-queries are to deliver. */
    ghost function Delivered(rows: Rows): seq<seq<Key>>
      requires WellFiled(rows)
    {
      Visible(batchLimit, Scans(rows, TableRead(), PartsRead(), start, stop))
    }
  }

  /** Sends the sub-queries of a query; None where the source throws. */
  method Open(q: Query, rows: Rows, inner: AisStoreQueryInnerContext) returns (queries: Option<seq<AisStoreQuery>>)
    requires WellFiled(rows) && inner.queries == {}
    modifies inner
    ensures q.Answerable() ==> queries.Some?
    ensures queries.Some? ==> AllSent(queries.value, inner, q.Delivered(rows)) && |queries.value| == |q.PartsRead()|
    ensures queries.Some? ==> fresh(queries.value)
    ensures inner.inner == old(inner.inner)
  {
    var table, parts := q.TableRead(), q.PartsRead();
    var ends: Option<(int, int)> := None;
    if q.selection.ByTime? {
      ends := TimeRows(q.start, q.stop);
      if ends.None? {
        return None;
      }
    }
    var answers := AnswerAll(rows, table, parts, q.start, q.stop);
    if answers.None? {
      return None;
    }
    ScansWalk(rows, table, parts, q.start, q.stop, ends);
    var qs := IteratorsOf(inner, q.batchLimit, table, parts, ends, answers.value, q.Delivered(rows));
    queries := Some(qs);
  }

  lemma DeliveredIsSorted(q: Query, rows: Rows)
    requires WellFiled(rows)
    ensures |q.Delivered(rows)| == |q.PartsRead()|
    ensures forall i :: 0 <= i < |q.Delivered(rows)| ==> TimeSorted(q.Delivered(rows)[i])
  {
    forall i | 0 <= i < |q.PartsRead()| ensures TimeSorted(q.Delivered(rows)[i]) {
      ScansAt(rows, q.TableRead(), q.PartsRead(), q.start, q.stop, i);
      ScanIsOrdered(rows, q.TableRead(), q.PartsRead()[i], q.start, q.stop);
    }
  }

  /** The result of a query whose sub-queries have been sent. */
  method Wrap(q: Query, rows: Rows, inner: AisStoreQueryInnerContext, queries: seq<AisStoreQuery>)
    returns (result: AisStoreQueryResult)
    requires WellFiled(rows) && AllSent(queries, inner, q.Delivered(rows)) && |queries| == |q.PartsRead()|
    requires inner.inner == Running
    ensures fresh(result) && result.context == inner && result.queries == queries
    ensures result.Valid() && result.delivered == [] && result.results == q.Delivered(rows)
  {
    DeliveredIsSorted(q, rows);
    result := new AisStoreQueryResult(inner, queries, q.Delivered(rows));
  }

  class AisStoreQueryBuilder {
    const selection: Selection
    var batchLimit: int
    var startTimeInclusive: int
    var stopTimeExclusive: int
    var cell10Enabled: bool

    constructor (selection: Selection, cell10Enabled: bool)
      ensures this.selection == selection && this.cell10Enabled == cell10Enabled && batchLimit == 3000
      ensures startTimeInclusive == 0 == stopTimeExclusive
    {
      this.selection, this.cell10Enabled := selection, cell10Enabled;
      batchLimit, startTimeInclusive, stopTimeExclusive := 3000, 0, 0;
    }

    method SetFetchSize(limit: int)
      modifies this`batchLimit
      ensures batchLimit == limit
    {
      batchLimit := limit;
    }

    method SetCell10Enabled(enabled: bool)
      modifies this`cell10Enabled
      ensures cell10Enabled == enabled
    {
      cell10Enabled := enabled;
    }

    method SetInterval(start: int, stop: int)
      modifies this`startTimeInclusive, this`stopTimeExclusive
      ensures startTimeInclusive == start && stopTimeExclusive == stop
    {
      startTimeInclusive, stopTimeExclusive := start, stop;
    }

    function Settings(): Query
      reads this
    {
      Query(selection, batchLimit, startTimeInclusive, stopTimeExclusive, cell10Enabled)
    }

    /** Executes the query; None where the source throws. */
    method Execute(rows: Rows) returns (result: Option<AisStoreQueryResult>)
      requires WellFiled(rows)
      ensures Settings().Answerable() ==> result.Some?
      ensures result.Some? ==> fresh(result.value) && fresh(result.value.context)
      ensures result.Some? ==> fresh(result.value.queries)
      ensures result.Some? ==> result.value.Valid() && result.value.delivered == []
      ensures result.Some? ==> result.value.context.inner == Running
      ensures result.Some? ==> result.value.results == Settings().Delivered(rows)
    {
      var inner := new AisStoreQueryInnerContext();
      var q := Settings();
      var queries := Open(q, rows, inner);
      if queries.None? {
        return None;
      }
      var r := Wrap(q, rows, inner, queries.value);
      result := Some(r);
    }
  }

  /** The outcome of a query: every row that matches, in time order, once for each sub-query it belongs to. */
  ghost predicate Answer(q: Query, rows: Rows, ks: seq<Key>)
    requires WellFiled(rows)
  {
    && TimeSorted(ks)
    && (q.batchLimit >= 1 ==>
          && (forall k :: multiset(ks)[k] == Expected(rows, q.TableRead(), q.PartsRead(), q.start, q.stop, k))
          && (|q.PartsRead()| == 1 ==> ks == Scan(rows, q.TableRead(), q.PartsRead()[0], q.start, q.stop)))
    && (q.batchLimit < 1 ==> ks == [])
  }

  /** The rows of one table under the given parts with start < time < stop, in time order, once for each mention. */
  ghost predicate Returned(rows: Rows, table: Table, parts: seq<int>, start: int, stop: int, ks: seq<Key>) {
    && TimeSorted(ks)
    && forall k :: multiset(ks)[k]
                   == if k in rows && k.table == table && start < k.time < stop then multiset(parts)[k.part] else 0
  }

  /** Which table is read under which parts: 10-degree cells if switched on and saving nine in ten sub-queries. */
  ghost predicate ReturnedFor(selection: Selection, cell10Enabled: bool, start: int, stop: int, rows: Rows,
                              ks: seq<Key>)
  {
    match selection
    case ByTime => Returned(rows, PacketsTime, [0], start, stop, ks)
    case ByMmsi(mmsi) => Returned(rows, PacketsMmsi, mmsi, start, stop, ks)
    case Area(cells1, cells10) =>
      if cell10Enabled && 10 * |cells10| <= |cells1| then Returned(rows, PacketsAreaCell10, cells10, start, stop, ks)
      else Returned(rows, PacketsAreaCell1, cells1, start, stop, ks)
  }

  lemma AnswerIsReturned(q: Query, rows: Rows, ks: seq<Key>)
    requires WellFiled(rows) && Answer(q, rows, ks) && q.batchLimit >= 1
    ensures ReturnedFor(q.selection, q.cell10Enabled, q.start, q.stop, rows, ks)
  {
    assert forall k :: multiset(ks)[k] == Expected(rows, q.TableRead(), q.PartsRead(), q.start, q.stop, k);
  }

  /** An interval of instants that all have a ten-minute block can be asked for. */
  lemma OrdinaryIsAnswerable(q: Query)
    requires -2147483649 * 600000 + 1000 <= q.start <= q.stop < 2147483648 * 600000
    requires q.selection.ByTime? ==> q.start < q.stop
    ensures q.Answerable()
  {
    BlockMonotone(q.TableRead(), q.start, q.stop);
    var t := q.TableRead();
    if t.PacketsMmsi? || t.PacketsAreaUnknown? {
      ThirtyDayRange(t, q.start);
      ThirtyDayRange(t, q.stop);
    } else {
      TenMinuteRange(t, q.start);
      TenMinuteRange(t, q.stop);
      TenMinuteRange(PacketsTime, q.stop - 1);
    }
  }

  /** The rows of one cell, one ship or all by time come in the order of time, those of one instant by digest. */
  lemma OneReadInOrder(q: Query, rows: Rows, ks: seq<Key>)
    requires WellFiled(rows) && Answer(q, rows, ks) && q.batchLimit >= 1 && |q.PartsRead()| == 1
    ensures forall i, j :: 0 <= i < j < |ks| ==>
              ks[i].time < ks[j].time || (ks[i].time == ks[j].time && ks[i].digest < ks[j].digest)
  {
    ScanIsOrdered(rows, q.TableRead(), q.PartsRead()[0], q.start, q.stop);
  }

  lemma DeliveredIsAnswer(q: Query, rows: Rows, ks: seq<Key>)
    requires WellFiled(rows) && TimeSorted(ks) && multiset(ks) == SumAll(q.Delivered(rows))
    requires |q.Delivered(rows)| == 1 ==> ks == q.Delivered(rows)[0]
    ensures Answer(q, rows, ks)
  {
    if q.batchLimit >= 1 {
      forall k ensures multiset(ks)[k] == Expected(rows, q.TableRead(), q.PartsRead(), q.start, q.stop, k) {
        SumOfScans(rows, q.TableRead(), q.PartsRead(), q.start, q.stop, k);
      }
      if |q.PartsRead()| == 1 {
        ScansAt(rows, q.TableRead(), q.PartsRead(), q.start, q.stop, 0);
      }
    } else {
      SumAllEmpty(q.Delivered(rows));
      assert |multiset(ks)| == |ks|;
    }
  }

  /** Executes a query and reads its whole result. */
  method Run(builder: AisStoreQueryBuilder, rows: Rows) returns (ks: Option<seq<Key>>)
    requires WellFiled(rows)
    ensures builder.Settings().Answerable() ==> ks.Some?
    ensures ks.Some? ==> Answer(builder.Settings(), rows, ks.value)
    ensures ks.Some? && builder.batchLimit < 1 ==> ks.value == []
    ensures ks.Some? && builder.batchLimit >= 1 ==>
              ReturnedFor(builder.selection, builder.cell10Enabled, builder.startTimeInclusive,
                          builder.stopTimeExclusive, rows, ks.value)
  {
    ghost var q := builder.Settings();
    var result := builder.Execute(rows);
    if result.None? {
      return None;
    }
    var all := result.value.ReadAll();
    DeliveredIsAnswer(q, rows, all);
    if q.batchLimit >= 1 {
      AnswerIsReturned(q, rows, all);
    }
    ks := Some(all);
  }
}
