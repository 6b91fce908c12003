/** The contents of the store: one map from primary key to raw message, written by upserts. */
module Tables {
  import opened AisStoreSchema

  /** A primary key. The part is the MMSI or cell id, and zero for packets_time, which has none. */
  datatype Key = Key(table: Table, part: int, block: int, time: int, digest: int)

  datatype Insert = Insert(key: Key, aisdata: string)

  type Rows = map<Key, string>

  /** Writes the inserts in order; a later insert with the same key replaces the row. */
  function Apply(rows: Rows, inserts: seq<Insert>): Rows {
    if inserts == [] then rows
    else
      var last := inserts[|inserts| - 1];
      Apply(rows, inserts[..|inserts| - 1])[last.key := last.aisdata]
  }

  /** Some of the inserts, in any order: those at the given indices. */
  function Picked(inserts: seq<Insert>, picks: seq<nat>): (some: seq<Insert>)
    ensures forall ins :: ins in some ==> ins in inserts
  {
    if picks == [] then []
    else
      var front, last := picks[..|picks| - 1], picks[|picks| - 1];
      Picked(inserts, front) + if last < |inserts| then [inserts[last]] else []
  }

  ghost function OfTable(rows: Rows, table: Table): Rows {
    map k | k in rows && k.table == table :: rows[k]
  }

  ghost function InsertsOf(inserts: seq<Insert>, table: Table): seq<Insert> {
    if inserts == [] then []
    else
      var last := inserts[|inserts| - 1];
      InsertsOf(inserts[..|inserts| - 1], table) + if last.key.table == table then [last] else []
  }

  lemma {:induction false} ApplyAppend(rows: Rows, a: seq<Insert>, b: seq<Insert>)
    ensures Apply(rows, a + b) == Apply(Apply(rows, a), b)
  {
    if b == [] {
      assert a + b == a;
    } else {
      ApplyAppend(rows, a, b[..|b| - 1]);
      assert (a + b)[..|a + b| - 1] == a + b[..|b| - 1];
    }
  }

  lemma {:induction false} InsertsOfAppend(a: seq<Insert>, b: seq<Insert>, table: Table)
    ensures InsertsOf(a + b, table) == InsertsOf(a, table) + InsertsOf(b, table)
  {
    if b == [] {
      assert a + b == a;
    } else {
      InsertsOfAppend(a, b[..|b| - 1], table);
      assert (a + b)[..|a + b| - 1] == a + b[..|b| - 1];
    }
  }

  /** A table's rows depend on that table's inserts alone. */
  lemma {:induction false} ApplyOfTable(rows: Rows, inserts: seq<Insert>, table: Table)
    ensures OfTable(Apply(rows, inserts), table) == Apply(OfTable(rows, table), InsertsOf(inserts, table))
  {
    if inserts != [] {
      var n := |inserts| - 1;
      var front, last := inserts[..n], inserts[n];
      ApplyOfTable(rows, front, table);
      OneInsertOfTable(Apply(rows, front), last, table);
      if last.key.table == table {
        var mine := InsertsOf(front, table);
        assert InsertsOf(inserts, table) == mine + [last];
        assert (mine + [last])[..|mine|] == mine;
      } else {
        assert InsertsOf(inserts, table) == InsertsOf(front, table);
      }
    }
  }

  lemma OneInsertOfTable(rows: Rows, ins: Insert, table: Table)
    ensures OfTable(rows[ins.key := ins.aisdata], table)
            == if ins.key.table == table then OfTable(rows, table)[ins.key := ins.aisdata] else OfTable(rows, table)
  {
  }

  /** A key is present exactly when it was there before or is inserted. */
  lemma {:induction false} ApplyKeys(rows: Rows, inserts: seq<Insert>, k: Key)
    ensures k in Apply(rows, inserts) <==> k in rows || exists i :: 0 <= i < |inserts| && inserts[i].key == k
  {
    if inserts != [] {
      var n := |inserts| - 1;
      ApplyKeys(rows, inserts[..n], k);
      assert inserts == inserts[..n] + [inserts[n]];
    }
  }

  /** A row's value is that of the last insert with its key; without such an insert it is untouched. */
  lemma {:induction false} ApplyValue(rows: Rows, inserts: seq<Insert>, k: Key)
    requires k in Apply(rows, inserts)
    ensures (k in rows && Apply(rows, inserts)[k] == rows[k] && NoneHas(inserts, 0, k))
            || exists i :: 0 <= i < |inserts| && inserts[i] == Insert(k, Apply(rows, inserts)[k])
                           && NoneHas(inserts, i + 1, k)
  {
    if inserts != [] {
      var n := |inserts| - 1;
      var front := inserts[..n];
      if inserts[n].key != k {
        ApplyValue(rows, front, k);
        NoneHasOneMore(inserts, k);
        if i :| 0 <= i < n && front[i] == Insert(k, Apply(rows, front)[k]) && NoneHas(front, i + 1, k) {
          assert inserts[i] == Insert(k, Apply(rows, inserts)[k]) && NoneHas(inserts, i + 1, k);
        }
      } else {
        assert inserts[n] == Insert(k, Apply(rows, inserts)[k]) && NoneHas(inserts, n + 1, k);
      }
    }
  }

  /** No insert from index n on has the key. */
  ghost predicate NoneHas(inserts: seq<Insert>, n: nat, k: Key) {
    forall j :: n <= j < |inserts| ==> inserts[j].key != k
  }

  lemma NoneHasOneMore(inserts: seq<Insert>, k: Key)
    requires inserts != [] && inserts[|inserts| - 1].key != k
    ensures forall n: nat :: NoneHas(inserts[..|inserts| - 1], n, k) ==> NoneHas(inserts, n, k)
  {
    assert forall j :: 0 <= j < |inserts| - 1 ==> inserts[j] == inserts[..|inserts| - 1][j];
  }

  /** Every selection in every order can be picked. */
  lemma {:induction false} AnySelectionCanBePicked(inserts: seq<Insert>, some: seq<Insert>) returns (picks: seq<nat>)
    requires forall ins :: ins in some ==> ins in inserts
    ensures Picked(inserts, picks) == some
  {
    if some == [] {
      picks := [];
    } else {
      var n := |some| - 1;
      var front := AnySelectionCanBePicked(inserts, some[..n]);
      assert some[n] in inserts;
      var i: nat :| i < |inserts| && inserts[i] == some[n];
      picks := front + [i];
      assert picks[..|picks| - 1] == front;
    }
  }
}
