/**
`merge_csv` of bin/solver-usage-backfill.py: rows are put into the existing file under their
(env, call_id) key, so that pulling the same window again changes nothing.
The file is a map from keys to stored rows of any type `V`; `csv` is how a row is stored.
*/
module UsageCsv {
  import opened Wrappers
  import opened Sorting
  import opened SolverCalls
  import opened SolverCallLaws

  type Key = (string, string)

  function RowKey(r: Row): Key {
    (r.env, r.callId)
  }

  function Absent<V>(existing: map<Key, V>): Row -> bool {
    (r: Row) => RowKey(r) !in existing
  }

  function Upsert<V>(existing: map<Key, V>, rows: seq<Row>, csv: Row -> V): map<Key, V> {
    if rows == [] then existing
    else
      var r := rows[|rows| - 1];
      Upsert(existing, rows[..|rows| - 1], csv)[RowKey(r) := csv(r)]
  }

  method MergeCsv<V(!new)>(existing: map<Key, V>, rows: seq<Row>, csv: Row -> V)
    returns (merged: map<Key, V>, added: nat, total: nat)
    ensures merged == Upsert(existing, rows, csv)
    ensures added == |Filter(Absent(existing), rows)| && total == |merged|
    ensures StoresLatest(existing, rows, csv, merged)
  {
    added := 0;
    for i := 0 to |rows|
      invariant added == |Filter(Absent(existing), rows[..i])|
    {
      assert rows[..i + 1] == rows[..i] + [rows[i]];
      FilterAppend(Absent(existing), rows[..i], [rows[i]]);
      if RowKey(rows[i]) !in existing {
        added := added + 1;
      }
    }
    assert rows[..|rows|] == rows;
    merged := existing;
    for i := 0 to |rows|
      invariant merged == Upsert(existing, rows[..i], csv)
    {
      assert rows[..i + 1][..i] == rows[..i];
      merged := merged[RowKey(rows[i]) := csv(rows[i])];
    }
    total := |merged|;
    assert rows[..|rows|] == rows;
    UpsertStoresLatest(existing, rows, csv);
  }

  /** No later row has row `i`'s environment and call id. */
  ghost predicate Latest(rows: seq<Row>, i: nat)
    requires i < |rows|
  {
    forall j | i < j < |rows| :: !(rows[j].env == rows[i].env && rows[j].callId == rows[i].callId)
  }

  /** The environments and call ids of the rows. */
  function RowKeys(rows: seq<Row>): set<Key> {
    set r | r in rows :: (r.env, r.callId)
  }

  /**
  What the merged file holds, key by key: the latest new row of the key, or else the row that was
  there; and no other keys.
  */
  ghost predicate StoresLatest<V(!new)>(existing: map<Key, V>, rows: seq<Row>, csv: Row -> V, merged: map<Key, V>) {
    && (forall i | 0 <= i < |rows| && Latest(rows, i) ::
          var k := (rows[i].env, rows[i].callId); k in merged && merged[k] == csv(rows[i]))
    && (forall k | k in existing && k !in RowKeys(rows) :: k in merged && merged[k] == existing[k])
    && merged.Keys == existing.Keys + RowKeys(rows)
  }

  lemma {:induction false} UpsertStoresLatest<V(!new)>(existing: map<Key, V>, rows: seq<Row>, csv: Row -> V)
    ensures StoresLatest(existing, rows, csv, Upsert(existing, rows, csv))
  {
    if rows != [] {
      var before, last := rows[..|rows| - 1], rows[|rows| - 1];
      assert rows == before + [last];
      UpsertStoresLatest(existing, before, csv);
      LatestBefore(before, last);
    }
  }

  lemma LatestBefore(before: seq<Row>, last: Row)
    ensures var rows := before + [last];
      && RowKeys(rows) == RowKeys(before) + {(last.env, last.callId)}
      && Latest(rows, |before|)
      && forall i | 0 <= i < |before| ::
           Latest(rows, i) <==> Latest(before, i) && !(before[i].env == last.env && before[i].callId == last.callId)
  {
    var rows := before + [last];
    forall i | 0 <= i < |before|
      ensures Latest(rows, i) <==>
              Latest(before, i) && !(before[i].env == last.env && before[i].callId == last.callId)
    {
      assert forall j | i < j < |before| :: rows[j] == before[j];
      assert rows[|before|] == last && rows[i] == before[i];
    }
  }

  lemma {:induction false} UpsertKeys<V>(existing: map<Key, V>, rows: seq<Row>, csv: Row -> V)
    ensures forall k :: k in Upsert(existing, rows, csv) <==> k in existing || exists r :: r in rows && RowKey(r) == k
  {
    if rows != [] {
      var before, last := rows[..|rows| - 1], rows[|rows| - 1];
      assert rows == before + [last];
      UpsertKeys(existing, before, csv);
      forall k ensures k in Upsert(existing, rows, csv) <==> k in existing || exists r :: r in rows && RowKey(r) == k {
        if k == RowKey(last) {
          assert last in rows;
        } else if r :| r in before && RowKey(r) == k {
          assert r in rows;
        }
      }
    }
  }

  /** Nothing that was in the file is lost, and a key that no row has keeps its stored row. */
  lemma {:induction false} UpsertKeepsOthers<V>(existing: map<Key, V>, rows: seq<Row>, csv: Row -> V, k: Key)
    requires k in existing && forall r | r in rows :: RowKey(r) != k
    ensures k in Upsert(existing, rows, csv) && Upsert(existing, rows, csv)[k] == existing[k]
  {
    if rows != [] {
      var before, last := rows[..|rows| - 1], rows[|rows| - 1];
      assert rows == before + [last];
      assert last in rows;
      UpsertKeepsOthers(existing, before, csv, k);
    }
  }

  /** The stored row of a key is that of the last row with the key, whatever the file held. */
  lemma {:induction false} UpsertStoresLast<V>(a: map<Key, V>, b: map<Key, V>, rows: seq<Row>, csv: Row -> V, k: Key)
    requires exists r :: r in rows && RowKey(r) == k
    ensures k in Upsert(a, rows, csv) && k in Upsert(b, rows, csv)
    ensures Upsert(a, rows, csv)[k] == Upsert(b, rows, csv)[k]
  {
    var before, last := rows[..|rows| - 1], rows[|rows| - 1];
    assert rows == before + [last];
    if RowKey(last) != k {
      var r :| r in rows && RowKey(r) == k;
      assert r in before;
      UpsertStoresLast(a, b, before, csv, k);
    }
  }

  /** Merging the same rows again changes nothing and counts nothing as new. */
  lemma MergeIdempotent<V>(existing: map<Key, V>, rows: seq<Row>, csv: Row -> V)
    ensures var once := Upsert(existing, rows, csv);
      Upsert(once, rows, csv) == once && Filter(Absent(once), rows) == []
  {
    var once := Upsert(existing, rows, csv);
    var twice := Upsert(once, rows, csv);
    UpsertKeys(existing, rows, csv);
    UpsertKeys(once, rows, csv);
    forall k | k in once ensures twice[k] == once[k] {
      if exists r :: r in rows && RowKey(r) == k {
        UpsertStoresLast(existing, once, rows, csv, k);
      } else {
        UpsertKeepsOthers(once, rows, csv, k);
      }
    }
    assert forall k :: k in twice <==> k in once;
    var absent := Filter(Absent(once), rows);
    FilterElements(Absent(once), rows);
    forall r | r in rows ensures RowKey(r) in once {}
    FirstRow(absent);
  }

  lemma FirstRow(rows: seq<Row>)
    ensures rows == [] || rows[0] in rows
  {
  }

  /** A row whose key is new to the file adds one to the total iff no earlier new row had its key. */
  lemma NewRow<V>(existing: map<Key, V>, before: seq<Row>, last: Row, csv: Row -> V)
    requires RowKey(last) !in existing
    ensures var added, m := Filter(Absent(existing), before), Upsert(existing, before, csv);
      DistinctBy(RowKey, added + [last]) <==> DistinctBy(RowKey, added) && RowKey(last) !in m
  {
    var added := Filter(Absent(existing), before);
    UpsertKeys(existing, before, csv);
    FilterElements(Absent(existing), before);
    LastDistinct(RowKey, added, last);
    if r :| r in before && RowKey(r) == RowKey(last) {
      assert r in added;
    } else {
      forall x | x in added ensures RowKey(x) != RowKey(last) { assert x in before; }
    }
  }

  /** new + old == total exactly when the rows counted as new have distinct keys; otherwise it is too large. */
  lemma {:induction false} NewPlusOldIsTotalIff<V>(existing: map<Key, V>, rows: seq<Row>, csv: Row -> V)
    ensures |Filter(Absent(existing), rows)| + |existing| >= |Upsert(existing, rows, csv)|
    ensures |Filter(Absent(existing), rows)| + |existing| == |Upsert(existing, rows, csv)| <==>
            DistinctBy(RowKey, Filter(Absent(existing), rows))
  {
    if rows != [] {
      var before, last := rows[..|rows| - 1], rows[|rows| - 1];
      assert rows == before + [last];
      NewPlusOldIsTotalIff(existing, before, csv);
      FilterAppend(Absent(existing), before, [last]);
      UpsertKeys(existing, before, csv);
      var m := Upsert(existing, before, csv);
      UpdateSize(m, RowKey(last), csv(last));
      if RowKey(last) !in existing {
        NewRow(existing, before, last, csv);
        assert Filter(Absent(existing), rows) == Filter(Absent(existing), before) + [last];
      } else {
        assert Filter(Absent(existing), rows) == Filter(Absent(existing), before);
        assert RowKey(last) in m;
      }
    }
  }

  lemma UpdateSize<K, V>(m: map<K, V>, k: K, v: V)
    ensures |m[k := v]| == |m| + if k in m then 0 else 1
  {
    assert m[k := v].Keys == m.Keys + {k};
    assert |m[k := v]| == |m[k := v].Keys| && |m| == |m.Keys|;
  }

  /** What is printed as new, and what was there, make up the total. */
  predicate CountRight<V(!new)>(existing: map<Key, V>, rows: seq<Row>, csv: Row -> V) {
    |Filter(Absent(existing), rows)| + |existing| == |Upsert(existing, rows, csv)|
  }

  lemma {:induction false} EnvOfRows(f: Option<string> -> seq<Row>, rids: seq<Option<string>>, env: string)
    requires forall rid :: forall r | r in f(rid) :: r.env == env
    ensures forall r | r in Concat(f, rids) :: r.env == env
  {
    if rids != [] {
      EnvOfRows(f, rids[..|rids| - 1], env);
    }
  }

  lemma EnvOfRequest(env: string, iso: nat -> string, rid: Option<string>, calls: seq<Solve>)
    ensures Opened(calls) ==> forall r | r in RowsOf(env, iso, rid, calls) :: r.env == env
  {
  }

  /** Paired rows all carry the environment they were paired for. */
  lemma EnvOfPaired(events: seq<Event>, env: string, iso: nat -> string)
    ensures forall r | r in Paired(events, env, iso) :: r.env == env
  {
    var recorded := Recorded(events);
    var f, rids := RequestRows(recorded, env, iso), Requests(recorded);
    forall rid ensures forall r | r in f(rid) :: r.env == env {
      EnvOfRequest(env, iso, rid, Split(Filter(HasRequest(rid), recorded)));
    }
    EnvOfRows(f, rids, env);
    SortElements(AtLe, Concat(f, rids));
  }

  lemma KeysLikeCallIds(rows: seq<Row>, env: string)
    requires forall r | r in rows :: r.env == env
    ensures DistinctBy(RowKey, rows) <==> DistinctBy(CallIdOf, rows)
  {
    forall i, j | 0 <= i < j < |rows|
      ensures RowKey(rows[i]) == RowKey(rows[j]) <==> CallIdOf(rows[i]) == CallIdOf(rows[j])
    {
      assert rows[i] in rows && rows[j] in rows;
    }
  }

  lemma {:induction false} AllAbsent<V>(empty: map<Key, V>, rows: seq<Row>)
    requires empty == map[]
    ensures Filter(Absent(empty), rows) == rows
  {
    if rows != [] {
      AllAbsent(empty, rows[1..]);
    }
  }

  /** For paired rows the printed count is right, whatever the file held, exactly if call ids do not clash. */
  lemma PairedRowsCountRightIff<V(!new)>(events: seq<Event>, env: string, iso: nat -> string, csv: Row -> V)
    ensures (forall existing: map<Key, V> :: CountRight(existing, Paired(events, env, iso), csv)) <==>
            !NoneClash(Recorded(events))
  {
    var rows := Paired(events, env, iso);
    CallIdsDistinctIff(events, env, iso);
    EnvOfPaired(events, env, iso);
    KeysLikeCallIds(rows, env);
    forall existing: map<Key, V> | DistinctBy(RowKey, rows) ensures CountRight(existing, rows, csv) {
      FilterDistinct(Absent(existing), RowKey, rows);
      NewPlusOldIsTotalIff(existing, rows, csv);
    }
    var empty: map<Key, V> := map[];
    AllAbsent(empty, rows);
    NewPlusOldIsTotalIff(empty, rows, csv);
    assert CountRight(empty, rows, csv) <==> DistinctBy(RowKey, rows);
  }
}
