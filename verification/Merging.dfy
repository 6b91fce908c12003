/** Merging sequences that are each sorted by time. */
module Merging {
  import opened Tables

  ghost predicate TimeSorted(ks: seq<Key>) {
    forall i, j :: 0 <= i < j < |ks| ==> ks[i].time <= ks[j].time
  }

  /** All rows of all sequences, with their multiplicities. */
  ghost function SumAll(ss: seq<seq<Key>>): multiset<Key> {
    if ss == [] then multiset{} else SumAll(ss[..|ss| - 1]) + multiset(ss[|ss| - 1])
  }

  /** No row that was delivered is later than one still to come. */
  ghost predicate NoneLater(delivered: seq<Key>, ss: seq<seq<Key>>) {
    forall d, i, k :: d in delivered && 0 <= i < |ss| && k in ss[i] ==> d.time <= k.time
  }

  /**
   * The merge so far: what was delivered is sorted, is complete, and leaves nothing earlier behind; the rows of a
   * single sequence keep their order.
   */
  ghost predicate Merged(results: seq<seq<Key>>, delivered: seq<Key>, pendings: seq<seq<Key>>) {
    && (forall i :: 0 <= i < |pendings| ==> TimeSorted(pendings[i]))
    && TimeSorted(delivered) && NoneLater(delivered, pendings)
    && multiset(delivered) + SumAll(pendings) == SumAll(results)
    && (|pendings| == 1 == |results| ==> delivered + pendings[0] == results[0])
  }

  lemma {:induction false} SumAllUpdate(ss: seq<seq<Key>>, i: int, s: seq<Key>)
    requires 0 <= i < |ss|
    ensures SumAll(ss[i := s]) + multiset(ss[i]) == SumAll(ss) + multiset(s)
  {
    var n := |ss| - 1;
    if i < n {
      SumAllUpdate(ss[..n], i, s);
      assert ss[i := s][..n] == ss[..n][i := s];
      var before, after, last := SumAll(ss[..n]), SumAll(ss[..n][i := s]), multiset(ss[n]);
      assert after + last + multiset(ss[i]) == (after + multiset(ss[i])) + last;
      assert before + last + multiset(s) == (before + multiset(s)) + last;
    } else {
      assert ss[i := s][..n] == ss[..n];
    }
  }

  lemma SumAllSnoc(ss: seq<seq<Key>>, s: seq<Key>)
    ensures SumAll(ss + [s]) == SumAll(ss) + multiset(s)
  {
    assert (ss + [s])[..|ss|] == ss;
  }

  lemma {:induction false} SumAllEmpty(ss: seq<seq<Key>>)
    requires forall i :: 0 <= i < |ss| ==> ss[i] == []
    ensures SumAll(ss) == multiset{}
  {
    if ss != [] {
      SumAllEmpty(ss[..|ss| - 1]);
    }
  }

  /** The heads of the sequences that are not exhausted. */
  ghost predicate Earliest(pendings: seq<seq<Key>>, i: int) {
    && 0 <= i < |pendings| && pendings[i] != []
    && forall j :: 0 <= j < |pendings| && pendings[j] != [] ==> pendings[i][0].time <= pendings[j][0].time
  }

  lemma NothingIsEarlier(pendings: seq<seq<Key>>, i: int, j: int, l: Key)
    requires Earliest(pendings, i) && 0 <= j < |pendings| && TimeSorted(pendings[j]) && l in pendings[j]
    ensures pendings[i][0].time <= l.time
  {
    var n :| 0 <= n < |pendings[j]| && pendings[j][n] == l;
    assert pendings[j][0].time <= l.time;
  }

  lemma SumStep(delivered: seq<Key>, pendings: seq<seq<Key>>, i: int)
    requires 0 <= i < |pendings| && pendings[i] != []
    ensures multiset(delivered + [pendings[i][0]]) + SumAll(pendings[i := pendings[i][1..]])
            == multiset(delivered) + SumAll(pendings)
  {
    var k, tail := pendings[i][0], pendings[i][1..];
    SumAllUpdate(pendings, i, tail);
    assert pendings[i] == [k] + tail;
    var before, after := SumAll(pendings), SumAll(pendings[i := tail]);
    assert after + multiset{k} == before by {
      forall x ensures (after + multiset{k})[x] == before[x] {
        assert (after + multiset(pendings[i]))[x] == (before + multiset(tail))[x];
      }
    }
  }

  lemma NoneLaterStep(delivered: seq<Key>, pendings: seq<seq<Key>>, i: int)
    requires Earliest(pendings, i) && NoneLater(delivered, pendings)
    requires forall j :: 0 <= j < |pendings| ==> TimeSorted(pendings[j])
    ensures NoneLater(delivered + [pendings[i][0]], pendings[i := pendings[i][1..]])
  {
    var k := pendings[i][0];
    var rest := pendings[i := pendings[i][1..]];
    forall d: Key, j, l: Key | d in delivered + [k] && 0 <= j < |rest| && l in rest[j] ensures d.time <= l.time {
      assert l in pendings[j];
      NothingIsEarlier(pendings, i, j, l);
    }
  }

  lemma SortedStep(delivered: seq<Key>, pendings: seq<seq<Key>>, i: int)
    requires 0 <= i < |pendings| && pendings[i] != [] && TimeSorted(delivered) && NoneLater(delivered, pendings)
    requires forall j :: 0 <= j < |pendings| ==> TimeSorted(pendings[j])
    ensures TimeSorted(delivered + [pendings[i][0]])
    ensures var rest := pendings[i := pendings[i][1..]];
            forall j :: 0 <= j < |rest| ==> TimeSorted(rest[j])
  {
    assert pendings[i][0] in pendings[i];
  }

  lemma OrderStep(delivered: seq<Key>, pending: seq<Key>)
    requires pending != []
    ensures delivered + [pending[0]] + pending[1..] == delivered + pending
  {
    assert [pending[0]] + pending[1..] == pending;
  }

  /** Delivering the earliest head keeps the merge. */
  lemma MergeStep(results: seq<seq<Key>>, delivered: seq<Key>, pendings: seq<seq<Key>>, i: int)
    requires Merged(results, delivered, pendings) && Earliest(pendings, i)
    ensures Merged(results, delivered + [pendings[i][0]], pendings[i := pendings[i][1..]])
  {
    SumStep(delivered, pendings, i);
    NoneLaterStep(delivered, pendings, i);
    SortedStep(delivered, pendings, i);
    OrderStep(delivered, pendings[i]);
  }

  lemma DeliveredIsBounded(results: seq<seq<Key>>, delivered: seq<Key>, pendings: seq<seq<Key>>)
    requires Merged(results, delivered, pendings)
    ensures |delivered| <= |SumAll(results)|
  {
    assert |multiset(delivered)| == |delivered|;
  }

  /** When nothing is pending the merge is complete. */
  lemma AllDelivered(results: seq<seq<Key>>, delivered: seq<Key>, pendings: seq<seq<Key>>)
    requires Merged(results, delivered, pendings) && forall i :: 0 <= i < |pendings| ==> pendings[i] == []
    ensures TimeSorted(delivered) && multiset(delivered) == SumAll(results)
    ensures |pendings| == 1 == |results| ==> delivered == results[0]
  {
    SumAllEmpty(pendings);
  }

  ghost predicate EarliestIn(times: seq<int>, active: set<nat>, i: nat)
    requires forall j :: j in active ==> j < |times|
  {
    i in active && forall j :: j in active ==> times[i] <= times[j]
  }

  /** Some head is the earliest. */
  lemma {:induction false} EarliestExists(times: seq<int>, active: set<nat>)
    requires active != {} && forall i :: i in active ==> i < |times|
    ensures exists i: nat :: EarliestIn(times, active, i)
  {
    var x :| x in active;
    var rest := active - {x};
    if rest == {} {
      assert forall j :: j in active ==> j == x || j in rest;
      assert EarliestIn(times, active, x);
    } else {
      EarliestExists(times, rest);
      var i: nat :| EarliestIn(times, rest, i);
      var m := if times[x] <= times[i] then x else i;
      assert forall j :: j in active ==> j == x || j in rest;
      assert EarliestIn(times, active, m);
    }
  }
}
