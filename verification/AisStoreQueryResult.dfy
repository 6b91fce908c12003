/** The result of a query: one sub-query's rows, or the rows of several merged by time. */
module AisStoreQueryResult {
  import opened Wrappers
  import opened Tables
  import opened AisStoreQuery
  import opened Merging

  /** The iterator of a sub-query that has not begun to deliver its answer. */
  ghost predicate Sent(q: AisStoreQuery, inner: AisStoreQueryInnerContext, answer: seq<Key>)
    reads q
  {
    q.inner == inner && q.Valid() && !q.ended && q.Pending() == answer
  }

  /** The first iterators, one for each answer, all registered with the context. */
  ghost predicate AllSent(qs: seq<AisStoreQuery>, inner: AisStoreQueryInnerContext, answers: seq<seq<Key>>)
    reads qs, inner
  {
    && |qs| <= |answers|
    && (forall i :: 0 <= i < |qs| ==> Sent(qs[i], inner, answers[i]) && qs[i].id == i && qs[i] in inner.queries)
    && (forall q :: q in inner.queries ==> q.id < |qs| && qs[q.id] == q)
  }

  class AisStoreQueryResult {
    const context: AisStoreQueryInnerContext
    const queries: seq<AisStoreQuery>
    /** What each sub-query has to deliver. */
    ghost const results: seq<seq<Key>>
    /** Whether the iterator was asked for; in the merging case, the sub-queries in its priority queue. */
    var started: bool
    var active: set<nat>
    var releasedPackets: nat
    ghost var delivered: seq<Key>
    ghost var pendings: seq<seq<Key>>

    ghost predicate QueryCore(i: int)
      requires 0 <= i < |queries| == |pendings|
      reads this`pendings, queries
    {
      var q := queries[i];
      q.id == i && q.inner == context && q.Valid() && q.Pending() == pendings[i] && (q.ended ==> pendings[i] == [])
    }

    /** A sub-query is in the priority queue exactly when it has a row to show; otherwise it has reported its end. */
    ghost predicate HeadKnown(i: nat)
      requires i < |queries|
      reads this`active, queries
    {
      if i in active then queries[i].peeked.Some? else queries[i].peeked.None? && queries[i].ended
    }

    /** The context lists the sub-queries that have not reported their end. */
    ghost predicate Listed()
      reads queries, context
    {
      && (forall i :: 0 <= i < |queries| ==> (queries[i] in context.queries <==> !queries[i].ended))
      && (forall q :: q in context.queries ==> q.id < |queries| && queries[q.id] == q)
    }

    /** Unless cancelled, the future is done exactly when there are sub-queries and all have reported their end. */
    ghost predicate Completion()
      reads context
    {
      context.inner != Cancelled ==> (context.inner == Done <==> context.queries == {} && queries != [])
    }

    ghost predicate Core()
      reads this`pendings, queries, context
    {
      && |pendings| == |queries| == |results| && (forall i :: 0 <= i < |queries| ==> QueryCore(i))
      && Listed() && Completion()
    }

    ghost predicate Valid()
      reads this, queries, context
    {
      && Core() && Merged(results, delivered, pendings) && releasedPackets == |delivered|
      && (forall i :: i in active ==> i < |queries|)
      && (started && |queries| != 1 ==> forall i: nat :: i < |queries| ==> HeadKnown(i))
    }

    ghost predicate SomePending()
      reads this`pendings
    {
      exists i :: 0 <= i < |pendings| && pendings[i] != []
    }

    ghost predicate AllEnded()
      reads queries
    {
      forall i :: 0 <= i < |queries| ==> queries[i].ended
    }

    constructor (context: AisStoreQueryInnerContext, queries: seq<AisStoreQuery>, ghost answers: seq<seq<Key>>)
      requires AllSent(queries, context, answers) && |queries| == |answers| && context.inner == Running
      requires forall i :: 0 <= i < |answers| ==> TimeSorted(answers[i])
      ensures Valid() && delivered == [] && results == answers && this.context == context && this.queries == queries
    {
      this.context, this.queries := context, queries;
      started, active, releasedPackets := false, {}, 0;
      delivered, pendings, results := [], answers, answers;
      new;
      assert queries != [] ==> queries[0] in context.queries;
      forall i | 0 <= i < |queries| ensures QueryCore(i) {
        assert Sent(queries[i], context, answers[i]);
      }
    }

    method Cancel()
      requires Valid()
      modifies context
      ensures Valid() && context.inner == if old(context.inner) == Running then Cancelled else old(context.inner)
    {
      context.Cancel();
    }

    lemma Distinct(i: nat)
      requires i < |queries| == |pendings| && forall j :: 0 <= j < |queries| ==> QueryCore(j)
      ensures forall j :: 0 <= j < |queries| && j != i ==> queries[j] != queries[i]
    {
      assert QueryCore(i);
      forall j | 0 <= j < |queries| && j != i ensures queries[j] != queries[i] {
        assert QueryCore(j);
      }
    }

    /** Lets sub-query i compute its next row; the last sub-query to find none completes the future. */
    method Ask(i: nat) returns (has: bool)
      requires Core() && i < |queries|
      modifies queries[i], context
      ensures Core()
      ensures has == (pendings[i] != []) && (has ==> queries[i].peeked == Some(pendings[i][0]))
      ensures !has ==> queries[i].ended && queries[i].peeked.None?
    {
      assert QueryCore(i);
      Distinct(i);
      has := queries[i].HasNext();
      CoreKept(i);
    }

    /** A sub-query that looks ahead, and tells the context if it finds the end, keeps the rest in order. */
    twostate lemma CoreKept(i: nat)
      requires old(Core()) && i < |queries| == |pendings| && QueryCore(i)
      requires unchanged(this) && forall j :: 0 <= j < |queries| && j != i ==> unchanged(queries[j])
      requires old(queries[i].ended) ==> queries[i].ended
      requires context.queries
               == old(context.queries) - if queries[i].ended && !old(queries[i].ended) then {queries[i]} else {}
      requires context.inner == if queries[i].ended && !old(queries[i].ended) && context.queries == {}
                                   && old(context.inner) == Running then Done else old(context.inner)
      ensures Core()
    {
      forall j | 0 <= j < |queries| && j != i ensures QueryCore(j) {
        assert old(QueryCore(j));
      }
      assert Listed() by {
        assert old(Listed());
      }
      assert Completion() by {
        assert old(queries[i] in context.queries <==> !queries[i].ended);
      }
    }

    /** Delivers the row sub-query i shows, an earliest one. */
    method Take(i: nat) returns (k: Key)
      requires Core() && Merged(results, delivered, pendings) && releasedPackets == |delivered|
      requires i < |queries| && queries[i].peeked.Some? && Earliest(pendings, i)
      modifies this`delivered, this`pendings, this`releasedPackets, queries[i]
      ensures Core() && Merged(results, delivered, pendings) && releasedPackets == |delivered|
      ensures delivered == old(delivered) + [k] && queries[i].peeked.None?
    {
      assert QueryCore(i);
      Distinct(i);
      ghost var head, tail := pendings[i][0], pendings[i][1..];
      assert [head] + tail == pendings[i];
      k := queries[i].Next();
      assert k == ([k] + queries[i].Pending())[0] == head;
      assert queries[i].Pending() == ([k] + queries[i].Pending())[1..] == tail;
      NoteDelivery(i);
      releasedPackets := releasedPackets + 1;
      CoreKeptByDelivery(i);
    }

    /** Giving away a row of one sub-query leaves the others as they are. */
    twostate lemma CoreKeptByDelivery(i: nat)
      requires old(Core()) && i < |queries| == |pendings| == |old(pendings)| && QueryCore(i)
      requires forall j :: 0 <= j < |queries| && j != i ==> unchanged(queries[j]) && pendings[j] == old(pendings)[j]
      requires unchanged(context) && queries[i].ended == old(queries[i].ended)
      ensures Core()
    {
      forall j | 0 <= j < |queries| && j != i ensures QueryCore(j) {
        assert old(QueryCore(j));
      }
      assert Listed() by {
        assert old(Listed());
      }
      assert Completion() by {
        assert old(Completion());
      }
    }

    /** Books the delivery of the head of sequence i. */
    ghost method NoteDelivery(i: nat)
      requires Merged(results, delivered, pendings) && Earliest(pendings, i)
      modifies this`delivered, this`pendings
      ensures delivered == old(delivered) + [old(pendings)[i][0]]
      ensures pendings == old(pendings)[i := old(pendings)[i][1..]]
      ensures Merged(results, delivered, pendings)
    {
      MergeStep(results, delivered, pendings, i);
      delivered, pendings := delivered + [pendings[i][0]], pendings[i := pendings[i][1..]];
    }

    /** Asks for the iterator. With several sub-queries each is asked for its first row. */
    method Iterator()
      requires Valid()
      modifies this`started, this`active, queries, context
      ensures Valid() && started
      ensures old(started) ==> unchanged(this) && unchanged(context)
      ensures old(started) ==> forall i :: 0 <= i < |queries| ==> unchanged(queries[i])
    {
      if started {
        return;
      }
      active := {};
      if |queries| != 1 {
        var i := 0;
        while i < |queries|
          invariant 0 <= i <= |queries| && Core()
          invariant forall j :: j in active ==> j < i
          invariant forall j: nat :: j < i ==> HeadKnown(j)
        {
          Distinct(i);
          label before:
          var has := Ask(i);
          if has {
            active := active + {i};
          }
          forall j: nat | j < i ensures HeadKnown(j) {
            assert old@before(HeadKnown(j));
          }
          i := i + 1;
        }
      }
      started := true;
    }

    method HasNext() returns (has: bool)
      requires Valid() && started
      modifies queries, context
      ensures Valid() && started
      ensures has <==> SomePending()
      ensures !has ==> AllEnded()
    {
      if |queries| == 1 {
        has := Ask(0);
        assert has <==> pendings[0] != [];
      } else {
        has := active != {};
        if has {
          var i :| i in active;
          assert HeadKnown(i) && QueryCore(i) && pendings[i] != [];
        } else {
          forall i | 0 <= i < |queries| ensures pendings[i] == [] && queries[i].ended {
            assert HeadKnown(i) && QueryCore(i);
          }
        }
      }
    }

    /** The sub-query at the head of the priority queue: one whose next row is earliest. */
    method Head() returns (i: nat)
      requires Core() && (forall j: nat :: j < |queries| ==> HeadKnown(j))
      requires active != {} && forall j :: j in active ==> j < |queries|
      ensures i in active && Earliest(pendings, i)
    {
      forall j | j in active ensures j < |queries| && queries[j].peeked.Some? {
        assert HeadKnown(j);
      }
      ghost var times := seq(|queries|, j requires 0 <= j < |queries| reads queries =>
                                          if queries[j].peeked.Some? then queries[j].peeked.value.time else 0);
      EarliestExists(times, active);
      ghost var m: nat :| EarliestIn(times, active, m);
      assert forall j :: j in active ==> queries[m].peeked.value.time <= queries[j].peeked.value.time;
      i :| i in active && forall j :: j in active ==> queries[i].peeked.value.time <= queries[j].peeked.value.time;
      assert QueryCore(i);
      forall j | 0 <= j < |pendings| && pendings[j] != [] ensures pendings[i][0].time <= pendings[j][0].time {
        assert HeadKnown(j) && QueryCore(j);
      }
    }

    method Next() returns (k: Key)
      requires Valid() && started && SomePending()
      modifies this`delivered, this`pendings, this`releasedPackets, this`active, queries, context
      ensures Valid() && started && delivered == old(delivered) + [k]
    {
      if |queries| == 1 {
        var has := Ask(0);
        k := Take(0);
      } else {
        k := NextMerged();
      }
    }

    /** Takes the head of the priority queue, and puts its sub-query back if that has another row. */
    method NextMerged() returns (k: Key)
      requires Valid() && started && |queries| != 1 && SomePending()
      modifies this`delivered, this`pendings, this`releasedPackets, this`active, queries, context
      ensures Valid() && started && delivered == old(delivered) + [k]
    {
      assert active != {} by {
        var j :| 0 <= j < |pendings| && pendings[j] != [];
        assert HeadKnown(j) && QueryCore(j);
      }
      var i := Head();
      assert HeadKnown(i);
      Distinct(i);
      k := Take(i);
      var has := Ask(i);
      if !has {
        active := active - {i};
      }
      forall j: nat | j < |queries| ensures HeadKnown(j) {
        assert old(HeadKnown(j));
      }
    }

    /** At every moment: unless it was cancelled, the future is done when all sub-queries have ended, and not before. */
    lemma DoneExactlyWhenAllEnded()
      requires Valid() && context.inner != Cancelled
      ensures context.inner == Done <==> queries != [] && forall i :: 0 <= i < |queries| ==> queries[i].ended
    {
      if queries != [] && context.queries != {} {
        var q :| q in context.queries;
        assert queries[q.id] == q && !queries[q.id].ended;
      }
    }

    /** Once every sub-query has reported its end, the future is done, unless it was cancelled or there were none. */
    lemma NoneListed()
      requires Core() && AllEnded()
      ensures context.inner != Cancelled ==> (context.inner == Done <==> queries != [])
    {
      assert context.queries == {};
    }

    /** Iterates over the whole result. */
    method ReadAll() returns (ks: seq<Key>)
      requires Valid() && delivered == []
      modifies this`started, this`delivered, this`pendings, this`releasedPackets, this`active, queries, context
      ensures Valid() && TimeSorted(ks) && multiset(ks) == SumAll(results) && releasedPackets == |ks|
      ensures |queries| == 1 ==> ks == results[0]
      ensures AllEnded()
      ensures context.inner != Cancelled ==> (context.inner == Done <==> queries != [])
    {
      Iterator();
      ks := ReadRest();
      AllDelivered(results, delivered, pendings);
      NoneListed();
    }

    /** Takes rows from the iterator as long as there are any. */
    method ReadRest() returns (ks: seq<Key>)
      requires Valid() && started && delivered == []
      modifies this`delivered, this`pendings, this`releasedPackets, this`active, queries, context
      ensures Valid() && ks == delivered && !SomePending() && AllEnded()
    {
      ks := [];
      var more := HasNext();
      while more
        invariant Valid() && started && ks == delivered
        invariant (more <==> SomePending()) && (!more ==> AllEnded())
        decreases |SumAll(results)| - |delivered|, more
      {
        var k := Next();
        ks := ks + [k];
        DeliveredIsBounded(results, delivered, pendings);
        more := HasNext();
      }
    }
  }
}
