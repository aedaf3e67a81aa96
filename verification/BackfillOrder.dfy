/**
The order of the plan of bin/backfill-occurrence-date.py: planning again gives the same stamps, and
gives them in the same order exactly if survivors come in the order of their groups' first rows.
*/
module BackfillOrder {
  import opened Wrappers
  import opened Sorting
  import opened Text
  import opened OccurrenceBackfill

  /** The groups in the order of their survivors. */
  function SurvivorKeys(z: Zones, all: seq<Task>, rows: seq<Task>): seq<Key>
    requires forall r | r in rows :: r in all
  {
    if rows == [] then []
    else
      var before, r := SurvivorKeys(z, all, rows[..|rows| - 1]), rows[|rows| - 1];
      if OccurrenceOf(z, r).Some? && SurvivorOf(z, all, r) == r then before + [KeyOf(z, r)] else before
  }

  /** Survivors come in the order of their groups' first rows. */
  predicate InStep(z: Zones, rows: seq<Task>) {
    SurvivorKeys(z, rows, rows) == Keys(z, rows)
  }

  // ----- The groups after the backfill

  lemma SurvivorKeysStep(z: Zones, all: seq<Task>, rows: seq<Task>, r: Task)
    requires r in all && forall x | x in rows :: x in all
    ensures (forall x | x in rows + [r] :: x in all)
    ensures SurvivorKeys(z, all, rows + [r]) ==
      SurvivorKeys(z, all, rows) + if Survives(z, all, r) then [KeyOf(z, r)] else []
  {
    assert (rows + [r])[..|rows|] == rows;
  }

  lemma KeysStep(z: Zones, rows: seq<Task>, r: Task)
    ensures Keys(z, rows + [r]) == Keys(z, rows) +
      if OccurrenceOf(z, r).None? || KeyOf(z, r) in Keys(z, rows) then [] else [KeyOf(z, r)]
  {
    assert (rows + [r])[..|rows|] == rows;
  }

  lemma {:induction false} AppliedStep(plan: Plan, rows: seq<Task>, r: Task)
    ensures Applied(plan, rows + [r]) == Applied(plan, rows) + if r.id in plan.deletes then [] else [Stamp(plan, r)]
  {
    if rows == [] {
      assert rows + [r] == [r];
    } else {
      assert (rows + [r])[1..] == rows[1..] + [r];
      AppliedStep(plan, rows[1..], r);
    }
  }

  /** A key of survivors among `rows` is the key of some survivor there. */
  lemma {:induction false} SurvivorKeysElements(z: Zones, all: seq<Task>, rows: seq<Task>, k: Key)
    requires forall x | x in rows :: x in all
    ensures k in SurvivorKeys(z, all, rows) <==> exists r :: r in rows && Survives(z, all, r) && KeyOf(z, r) == k
  {
    if rows != [] {
      var before, r := rows[..|rows| - 1], rows[|rows| - 1];
      assert rows == before + [r];
      SurvivorKeysElements(z, all, before, k);
      SurvivorKeysStep(z, all, before, r);
    }
  }

  /** What the backfill leaves of a row: nothing, the survivor with its date, or the row as it was. */
  ghost function Left(z: Zones, all: seq<Task>, r: Task): seq<Task> {
    if Survives(z, all, r) then [r.(occurrence := OccurrenceOf(z, r))]
    else if Loses(z, all, r) then []
    else [r]
  }

  lemma AppliedLeaves(z: Zones, all: seq<Task>, rows: seq<Task>, r: Task)
    requires UniqueIds(all) && r in all
    ensures Applied(Planned(z, all), rows + [r]) == Applied(Planned(z, all), rows) + Left(z, all, r)
  {
    AppliedStep(Planned(z, all), rows, r);
    EachRowOnce(z, all, r);
    StampForElements(Planned(z, all).stamps, r.id);
  }

  lemma KeysOfLeft(z: Zones, all: seq<Task>, kept: seq<Task>, r: Task)
    requires r in all && (Survives(z, all, r) ==> KeyOf(z, r) !in Keys(z, kept))
    ensures Keys(z, kept + Left(z, all, r)) == Keys(z, kept) + if Survives(z, all, r) then [KeyOf(z, r)] else []
  {
    if Survives(z, all, r) {
      KeysStep(z, kept, r.(occurrence := OccurrenceOf(z, r)));
    } else if Loses(z, all, r) {
      assert kept + [] == kept;
    } else {
      KeysStep(z, kept, r);
    }
  }

  /** One more row among distinct ones: if it survives, no survivor before it has its key. */
  lemma NewKey(z: Zones, all: seq<Task>, before: seq<Task>, r: Task)
    requires DistinctBy(IdOf, all) && before + [r] <= all && Survives(z, all, r)
    ensures (forall x | x in before :: x in all) && KeyOf(z, r) !in SurvivorKeys(z, all, before)
  {
    assert all[|before|] == (before + [r])[|before|] == r;
    forall i | 0 <= i < |before| ensures before[i] == all[i] { assert (before + [r])[i] == all[i]; }
    SurvivorKeysElements(z, all, before, KeyOf(z, r));
    if q :| q in before && Survives(z, all, q) && KeyOf(z, q) == KeyOf(z, r) {
      assert false;
    }
  }

  lemma KeysAfterStep(z: Zones, all: seq<Task>, before: seq<Task>, r: Task)
    requires DistinctBy(IdOf, all) && before + [r] <= all && r in all && forall x | x in before :: x in all
    requires Keys(z, Applied(Planned(z, all), before)) == SurvivorKeys(z, all, before)
    ensures Keys(z, Applied(Planned(z, all), before + [r])) ==
      SurvivorKeys(z, all, before) + if Survives(z, all, r) then [KeyOf(z, r)] else []
  {
    DistinctIdsUnique(all);
    AppliedLeaves(z, all, before, r);
    if Survives(z, all, r) {
      NewKey(z, all, before, r);
    }
    KeysOfLeft(z, all, Applied(Planned(z, all), before), r);
  }

  /** After the backfill the groups come in the order of the survivors. */
  lemma {:induction false} KeysAfter(z: Zones, all: seq<Task>, rows: seq<Task>)
    requires DistinctBy(IdOf, all) && rows <= all
    ensures (forall x | x in rows :: x in all) && Keys(z, Applied(Planned(z, all), rows)) == SurvivorKeys(z, all, rows)
  {
    if rows != [] {
      var before, r := rows[..|rows| - 1], rows[|rows| - 1];
      assert rows == before + [r] && r == all[|before|];
      KeysAfter(z, all, before);
      KeysAfterStep(z, all, before, r);
      SurvivorKeysStep(z, all, before, r);
    }
  }

  // ----- The order of the stamps

  /** The stamps are those of the groups, one each, in order. */
  lemma {:induction false} StampsInOrder(z: Zones, rows: seq<Task>, ks: seq<Key>)
    requires forall k | k in ks :: Group(z, rows, k) != []
    ensures var stamps := PlanFor(z, rows, ks).stamps;
      |stamps| == |ks| && forall n | 0 <= n < |ks| :: stamps[n] == (PickSurvivor(Group(z, rows, ks[n])).id, ks[n].2)
  {
    if ks != [] {
      StampsInOrder(z, rows, ks[..|ks| - 1]);
    }
  }

  /** A group's survivor is the same row before and after, but for its date. */
  lemma SameSurvivor(z: Zones, rows: seq<Task>, k: Key)
    requires UniqueIds(rows) && Group(z, rows, k) != []
    ensures var after := AfterBackfill(z, rows);
      Group(z, after, k) != [] && PickSurvivor(Group(z, after, k)).id == PickSurvivor(Group(z, rows, k)).id
  {
    var after := AfterBackfill(z, rows);
    GroupElements(z, rows, k);
    GroupElements(z, after, k);
    var s := PickSurvivor(Group(z, rows, k));
    var x := s.(occurrence := OccurrenceOf(z, s));
    assert KeyOf(z, s) == k && KeyOf(z, x) == k && Survives(z, rows, s);
    Remaining(z, rows, x);
    AloneAfter(z, rows, x);
    assert x in Group(z, after, k);
  }

  /** A survivor's id tells its group. */
  lemma SurvivorTellsGroup(z: Zones, rows: seq<Task>, k: Key, l: Key)
    requires UniqueIds(rows) && Group(z, rows, k) != [] && Group(z, rows, l) != []
    requires PickSurvivor(Group(z, rows, k)).id == PickSurvivor(Group(z, rows, l)).id
    ensures k == l
  {
    GroupElements(z, rows, k);
    GroupElements(z, rows, l);
    var s, t := PickSurvivor(Group(z, rows, k)), PickSurvivor(Group(z, rows, l));
    assert KeyOf(z, s) == k && KeyOf(z, t) == l;
  }

  lemma GroupsOf(z: Zones, rows: seq<Task>, k: Key)
    requires k in Keys(z, rows)
    ensures Group(z, rows, k) != []
  {
    KeysElements(z, rows);
  }

  /** Planning again lists the same stamps in the same order exactly if the survivors are in step. */
  lemma SameOrderIff(z: Zones, rows: seq<Task>)
    requires DistinctBy(IdOf, rows)
    ensures Planned(z, AfterBackfill(z, rows)).stamps == Planned(z, rows).stamps <==> InStep(z, rows)
  {
    var after := AfterBackfill(z, rows);
    var ks, again := Keys(z, rows), Keys(z, after);
    DistinctIdsUnique(rows);
    KeysAfter(z, rows, rows);
    forall k | k in ks ensures Group(z, rows, k) != [] && Group(z, after, k) != [] {
      GroupsOf(z, rows, k);
      SameSurvivor(z, rows, k);
    }
    forall k | k in again ensures Group(z, rows, k) != [] && Group(z, after, k) != [] {
      GroupsOf(z, after, k);
      SurvivorKeysElements(z, rows, rows, k);
      var r :| r in rows && Survives(z, rows, r) && KeyOf(z, r) == k;
      GroupElements(z, rows, k);
      assert r in Group(z, rows, k);
    }
    StampsInOrder(z, rows, ks);
    StampsInOrder(z, after, again);
    SameStampsSameKeys(z, rows, ks, again);
  }

  lemma SameStampsSameKeys(z: Zones, rows: seq<Task>, ks: seq<Key>, again: seq<Key>)
    requires UniqueIds(rows)
    requires forall k | k in ks :: Group(z, rows, k) != []
    requires forall k | k in again :: Group(z, rows, k) != [] && Group(z, AfterBackfill(z, rows), k) != []
    ensures PlanFor(z, AfterBackfill(z, rows), again).stamps == PlanFor(z, rows, ks).stamps <==> again == ks
  {
    var after := AfterBackfill(z, rows);
    StampsInOrder(z, rows, ks);
    StampsInOrder(z, after, again);
    var first, second := PlanFor(z, rows, ks).stamps, PlanFor(z, after, again).stamps;
    forall n | 0 <= n < |again| ensures second[n] == (PickSurvivor(Group(z, rows, again[n])).id, again[n].2) {
      SameSurvivor(z, rows, again[n]);
    }
    if second == first {
      forall n | 0 <= n < |ks| ensures again[n] == ks[n] {
        assert second[n] == first[n];
        SurvivorTellsGroup(z, rows, again[n], ks[n]);
      }
    }
  }

  // ----- An input out of step

  lemma FirstSurvivor(z: Zones, x: Task, y: Task, w: Task)
    requires OccurrenceOf(z, x).Some? && OccurrenceOf(z, y).Some? && OccurrenceOf(z, w).Some?
    requires KeyOf(z, x) == KeyOf(z, w) != KeyOf(z, y) && x.status == "pending" && w.status != "pending"
    ensures var rows := [x, y, w]; SurvivorOf(z, rows, x) != x && SurvivorOf(z, rows, y) == y
  {
    var rows := [x, y, w];
    GroupElements(z, rows, KeyOf(z, x));
    assert w in rows && w in Group(z, rows, KeyOf(z, x));
    SurvivorIsFirst(Group(z, rows, KeyOf(z, x)), w);
    assert InGroup(z, KeyOf(z, y), SurvivorOf(z, rows, y));
  }

  /** A pending row, a row of another group, and a done row that takes the first one's place. */
  lemma OutOfStep(z: Zones, x: Task, y: Task, w: Task)
    requires OccurrenceOf(z, x).Some? && OccurrenceOf(z, y).Some? && OccurrenceOf(z, w).Some?
    requires KeyOf(z, x) == KeyOf(z, w) != KeyOf(z, y) && x.status == "pending" && w.status != "pending"
    ensures !InStep(z, [x, y, w])
  {
    var rows := [x, y, w];
    FirstSurvivor(z, x, y, w);
    assert rows[..2] == [x, y] && [x, y][..1] == [x] && [x][..0] == [];
    assert Keys(z, [x]) == [KeyOf(z, x)];
    assert Keys(z, [x, y]) == [KeyOf(z, x), KeyOf(z, y)];
    assert Keys(z, rows) == [KeyOf(z, x), KeyOf(z, y)];
    assert SurvivorKeys(z, rows, [x]) == [];
    assert SurvivorKeys(z, rows, [x, y]) == [KeyOf(z, y)];
    assert SurvivorKeys(z, rows, rows)[0] == KeyOf(z, y);
  }

  function Sample(id: string, status: string, at: string): Task {
    Task(id, "owner", "template", status, "", Some(at), None, None)
  }

  lemma OutOfStepExample(z: Zones)
    requires z == Zones(map[], "UTC", (iso: string, tz: string) => iso)
    ensures !InStep(z, [Sample("1", "pending", "d1"), Sample("2", "pending", "d2"), Sample("3", "done", "d1")])
  {
    var x, y, w := Sample("1", "pending", "d1"), Sample("2", "pending", "d2"), Sample("3", "done", "d1");
    assert "d1"[1] != "d2"[1] && "pending"[0] != "done"[0];
    assert OccurrenceOf(z, x) == OccurrenceOf(z, w) == Some("d1") && OccurrenceOf(z, y) == Some("d2");
    OutOfStep(z, x, y, w);
  }
}
