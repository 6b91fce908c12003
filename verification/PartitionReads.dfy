/**
 * What the store answers to a query: for each time block of the list, in list order, the rows of that partition inside
 * the open time interval, in clustering order. A row is named by its primary key.
 */
module PartitionReads {
  import opened AisStoreSchema
  import opened Tables

  /** The clustering order within a partition: by time, then digest. */
  predicate Before(k: Key, l: Key) {
    k.time < l.time || (k.time == l.time && k.digest < l.digest)
  }

  ghost predicate Ordered(ks: seq<Key>) {
    forall i, j :: 0 <= i < j < |ks| ==> Before(ks[i], ks[j])
  }

  /** The clustering columns tell the keys apart. */
  ghost predicate Comparable(keys: set<Key>) {
    forall k, l :: k in keys && l in keys && k != l ==> Before(k, l) || Before(l, k)
  }

  predicate First(m: Key, keys: set<Key>) {
    m in keys && forall k :: k in keys && k != m ==> Before(m, k)
  }

  lemma {:induction false} FirstExists(keys: set<Key>)
    requires keys != {} && Comparable(keys)
    ensures exists m :: First(m, keys)
  {
    var x :| x in keys;
    if keys == {x} {
      assert First(x, keys);
    } else {
      FirstExists(keys - {x});
      var m :| First(m, keys - {x});
      if Before(m, x) {
        assert First(m, keys);
      } else {
        forall k | k in keys && k != x ensures Before(x, k) {
          assert k in keys - {x};
        }
        assert First(x, keys);
      }
    }
  }

  /** The keys in clustering order. */
  function Sorted(keys: set<Key>): seq<Key>
    requires Comparable(keys)
  {
    if keys == {} then []
    else
      FirstExists(keys);
      var m :| First(m, keys);
      [m] + Sorted(keys - {m})
  }

  lemma {:induction false} SortedIsOrdered(keys: set<Key>)
    requires Comparable(keys)
    ensures Ordered(Sorted(keys)) && forall k :: k in Sorted(keys) <==> k in keys
  {
    if keys != {} {
      FirstExists(keys);
      var m :| First(m, keys);
      SortedIsOrdered(keys - {m});
      assert Sorted(keys) == [m] + Sorted(keys - {m});
    }
  }

  lemma RestOfOrdered(ks: seq<Key>)
    requires Ordered(ks) && ks != []
    ensures Ordered(ks[1..]) && forall k :: k in ks[1..] <==> k in ks && k != ks[0]
  {
    forall k | k in ks && k != ks[0] ensures k in ks[1..] {
      var i :| 0 <= i < |ks| && ks[i] == k;
      assert k == ks[1..][i - 1];
    }
    forall k | k in ks[1..] ensures k != ks[0] {
      var i :| 0 <= i < |ks[1..]| && ks[1..][i] == k;
      assert Before(ks[0], ks[i + 1]);
    }
  }

  lemma EmptyOrNot(ls: seq<Key>)
    ensures ls == [] || exists k :: k in ls
  {
    if ls != [] {
      assert ls[0] in ls;
    }
  }

  /** There is only one way to list a set of keys in clustering order. */
  lemma {:induction false} OrderedIsUnique(ks: seq<Key>, ls: seq<Key>)
    requires Ordered(ks) && Ordered(ls) && forall k :: k in ks <==> k in ls
    ensures ks == ls
  {
    if ks == [] {
      EmptyOrNot(ls);
    } else {
      assert ks[0] in ls && ls[0] in ks;
      SameFirst(ks, ls);
      RestOfOrdered(ks);
      RestOfOrdered(ls);
      OrderedIsUnique(ks[1..], ls[1..]);
    }
  }

  lemma SameFirst(ks: seq<Key>, ls: seq<Key>)
    requires Ordered(ks) && Ordered(ls) && ks != [] && ls != []
    requires ks[0] in ls && ls[0] in ks
    ensures ks[0] == ls[0]
  {
    var i :| 0 <= i < |ls| && ls[i] == ks[0];
    var j :| 0 <= j < |ks| && ks[j] == ls[0];
    assert i > 0 ==> Before(ls[0], ls[i]);
    assert j > 0 ==> Before(ks[0], ks[j]);
  }

  /** Every row is filed under the block of its time. */
  ghost predicate WellFiled(rows: Rows) {
    forall k :: k in rows ==> k.block == Block(k.table, k.time)
  }

  /** The rows of one table and part with lo < time < hi: a linear scan of everything stored. */
  function Matching(rows: Rows, table: Table, part: int, lo: int, hi: int): set<Key> {
    set k | k in rows && k.table == table && k.part == part && lo < k.time < hi
  }

  function MatchingIn(rows: Rows, table: Table, part: int, block: int, lo: int, hi: int): set<Key> {
    set k | k in Matching(rows, table, part, lo, hi) && k.block == block
  }

  lemma MatchingIsComparable(rows: Rows, table: Table, part: int, lo: int, hi: int)
    requires WellFiled(rows)
    ensures Comparable(Matching(rows, table, part, lo, hi))
    ensures forall block :: Comparable(MatchingIn(rows, table, part, block, lo, hi))
  {
  }

  /** The answer to SELECT ... WHERE part = p AND timeblock IN blocks AND time > lo AND time < hi. */
  function Select(rows: Rows, table: Table, part: int, blocks: seq<int>, lo: int, hi: int): seq<Key>
    requires WellFiled(rows)
  {
    if blocks == [] then []
    else
      var n := |blocks| - 1;
      MatchingIsComparable(rows, table, part, lo, hi);
      Select(rows, table, part, blocks[..n], lo, hi) + Sorted(MatchingIn(rows, table, part, blocks[n], lo, hi))
  }

  lemma JoinOrdered(front: seq<Key>, tail: seq<Key>)
    requires Ordered(front) && Ordered(tail)
    requires forall k, l :: k in front && l in tail ==> Before(k, l)
    ensures Ordered(front + tail)
  {
  }

  /** Partitions read block after block come out in time order, and hold what is filed under those blocks. */
  lemma {:induction false} SelectIsOrdered(rows: Rows, table: Table, part: int, first: int, last: int, lo: int, hi: int)
    requires WellFiled(rows)
    ensures Ordered(Select(rows, table, part, Consecutive(first, last), lo, hi))
    ensures forall k :: k in Select(rows, table, part, Consecutive(first, last), lo, hi) <==>
                        k in Matching(rows, table, part, lo, hi) && first <= k.block <= last
    decreases last - first + 1
  {
    if first <= last {
      var blocks := Consecutive(first, last);
      assert blocks[..|blocks| - 1] == Consecutive(first, last - 1);
      SelectIsOrdered(rows, table, part, first, last - 1, lo, hi);
      MatchingIsComparable(rows, table, part, lo, hi);
      var front := Select(rows, table, part, Consecutive(first, last - 1), lo, hi);
      var tail := Sorted(MatchingIn(rows, table, part, last, lo, hi));
      SortedIsOrdered(MatchingIn(rows, table, part, last, lo, hi));
      forall k, l | k in front && l in tail ensures Before(k, l) {
        BlocksKeepOrder(rows, table, k, l);
      }
      JoinOrdered(front, tail);
      assert Select(rows, table, part, blocks, lo, hi) == front + tail;
      forall k ensures k in front + tail <==> k in Matching(rows, table, part, lo, hi) && first <= k.block <= last {
        assert k in tail <==> k in Matching(rows, table, part, lo, hi) && k.block == last;
      }
    }
  }

  /** A row of an earlier block comes before a row of a later one. */
  lemma BlocksKeepOrder(rows: Rows, table: Table, k: Key, l: Key)
    requires WellFiled(rows) && k in rows && l in rows && k.table == l.table == table && k.block < l.block
    ensures Before(k, l)
  {
    if l.time <= k.time {
      BlockMonotone(table, l.time, k.time);
    }
  }

  /** The blocks of timeBlocks are enough: reading them in order is a scan of the whole table sorted by time. */
  lemma SelectIsScan(rows: Rows, table: Table, part: int, start: int, stop: int)
    requires WellFiled(rows) && BlockList(table, start, stop).Some?
    ensures Comparable(Matching(rows, table, part, start, stop))
    ensures Select(rows, table, part, BlockList(table, start, stop).value, start, stop)
            == Sorted(Matching(rows, table, part, start, stop))
  {
    var first, last := Block(table, start), Block(table, stop);
    var ks := Select(rows, table, part, Consecutive(first, last), start, stop);
    MatchingIsComparable(rows, table, part, start, stop);
    SelectIsOrdered(rows, table, part, first, last, start, stop);
    forall k | k in Matching(rows, table, part, start, stop) ensures first <= k.block <= last {
      BlockMonotone(table, start, k.time);
      BlockMonotone(table, k.time, stop);
    }
    SortedIsOrdered(Matching(rows, table, part, start, stop));
    OrderedIsUnique(ks, Sorted(Matching(rows, table, part, start, stop)));
  }
}
