/**
bin/backfill-occurrence-date.py: template task rows get an occurrence date, one survivor per
(owner, template, date), so that a UNIQUE index over those columns can be created.
*/
module OccurrenceBackfill {
  import opened Wrappers
  import opened Sorting
  import opened Text

  datatype Task = Task(
    id: string, owner: string, template: string, status: string, createdAt: string,
    pinnedAt: Option<string>, earliestStart: Option<string>, occurrence: Option<string>)

  /** Each owner's home zone, the default zone, and `local_date` as a function of instant and zone. */
  datatype Zones = Zones(home: map<string, string>, default: string, localDate: (string, string) -> string)

  type Key = (string, string, string)

  function Truthy(s: Option<string>): Option<string> {
    if s == Some("") then None else s
  }

  /** The occurrence date a row's body gives; `None` when it has neither timing field. */
  function OccurrenceOf(z: Zones, r: Task): Option<string> {
    var iso := if Truthy(r.pinnedAt).Some? then Truthy(r.pinnedAt) else Truthy(r.earliestStart);
    var tz := if r.owner in z.home && z.home[r.owner] != "" then z.home[r.owner] else z.default;
    match iso case None => None case Some(i) => Some(z.localDate(i, tz))
  }

  /** The zone a row's dates are in: its owner's home zone, or the default where there is none. */
  predicate IsZone(z: Zones, r: Task, tz: string) {
    if r.owner in z.home && z.home[r.owner] != "" then tz == z.home[r.owner] else tz == z.default
  }

  /** A row's date is the local date of `pinned_at`, or of `earliest_start` where nothing is pinned. */
  lemma OccurrenceIs(z: Zones, r: Task, iso: string, tz: string)
    requires IsZone(z, r, tz) && iso != ""
    ensures r.pinnedAt == Some(iso) ==> OccurrenceOf(z, r) == Some(z.localDate(iso, tz))
    ensures (r.pinnedAt == None || r.pinnedAt == Some("")) && r.earliestStart == Some(iso) ==>
      OccurrenceOf(z, r) == Some(z.localDate(iso, tz))
    ensures OccurrenceOf(z, r) == None <==>
      && (r.pinnedAt == None || r.pinnedAt == Some(""))
      && (r.earliestStart == None || r.earliestStart == Some(""))
  {
  }

  predicate InGroup(z: Zones, k: Key, r: Task) {
    OccurrenceOf(z, r) == Some(k.2) && r.owner == k.0 && r.template == k.1
  }

  function Member(z: Zones, k: Key): Task -> bool {
    (r: Task) => InGroup(z, k, r)
  }

  function KeyOf(z: Zones, r: Task): Key
    requires OccurrenceOf(z, r).Some?
  {
    (r.owner, r.template, OccurrenceOf(z, r).value)
  }

  function IdOf(r: Task): string {
    r.id
  }

  // ----- The survivor of a group

  function Rank(r: Task): nat {
    if r.status != "pending" then 0 else 1
  }

  /** Non-pending first, then oldest. */
  predicate RankLe(a: Task, b: Task) {
    Rank(a) < Rank(b) || (Rank(a) == Rank(b) && StrLe(a.createdAt, b.createdAt))
  }

  lemma RankPreorder()
    ensures TotalPreorder(RankLe)
  {
    StrLePreorder();
  }

  function PickSurvivor(rows: seq<Task>): (s: Task)
    requires rows != []
    ensures s in rows
  {
    SortPermutes(RankLe, rows);
    SortElements(RankLe, rows);
    Sort(RankLe, rows)[0]
  }

  /** The survivor: pending only if all are, of its kind the oldest, and of equally old ones the first. */
  lemma SurvivorIs(rows: seq<Task>) returns (i: nat)
    requires rows != []
    ensures i < |rows| && PickSurvivor(rows) == rows[i]
    ensures rows[i].status == "pending" ==> forall r | r in rows :: r.status == "pending"
    ensures forall r | r in rows && (r.status == "pending" <==> rows[i].status == "pending") ::
      StrLe(rows[i].createdAt, r.createdAt)
    ensures forall j | 0 <= j < i && (rows[j].status == "pending" <==> rows[i].status == "pending") ::
      rows[j].createdAt != rows[i].createdAt
  {
    RankPreorder();
    i := SortHead(RankLe, rows);
    forall r | r in rows ensures RankLe(rows[i], r) {
      var j :| 0 <= j < |rows| && rows[j] == r;
    }
    StrLePreorder();
  }

  lemma SurvivorIsFirst(rows: seq<Task>, r: Task)
    requires r in rows
    ensures RankLe(PickSurvivor(rows), r)
  {
    RankPreorder();
    SortSorts(RankLe, rows);
    SortElements(RankLe, rows);
    var sorted := Sort(RankLe, rows);
    var i :| 0 <= i < |sorted| && sorted[i] == r;
    if i == 0 {
      assert RankLe(r, r);
    }
  }

  // ----- The plan

  /** Group keys in the order they first occur. */
  function Keys(z: Zones, rows: seq<Task>): seq<Key> {
    if rows == [] then []
    else
      var before, r := Keys(z, rows[..|rows| - 1]), rows[|rows| - 1];
      if OccurrenceOf(z, r).None? || KeyOf(z, r) in before then before else before + [KeyOf(z, r)]
  }

  function Group(z: Zones, rows: seq<Task>, k: Key): seq<Task> {
    Filter(Member(z, k), rows)
  }

  function Other(id: string): Task -> bool {
    (r: Task) => r.id != id
  }

  function Ids(rows: seq<Task>): (ids: seq<string>)
    ensures |ids| == |rows|
  {
    seq(|rows|, i requires 0 <= i < |rows| => rows[i].id)
  }

  datatype Plan = Plan(stamps: seq<(string, string)>, deletes: seq<string>)

  type Groups = map<Key, seq<Task>>

  ghost predicate Grouped(z: Zones, groups: Groups, order: seq<Key>, rows: seq<Task>) {
    && order == Keys(z, rows)
    && (forall k :: k in groups <==> k in order)
    && (forall k | k in groups :: groups[k] == Group(z, rows, k) && groups[k] != [])
  }

  lemma {:induction false} NoMember(z: Zones, rows: seq<Task>, k: Key)
    requires k !in Keys(z, rows)
    ensures Group(z, rows, k) == []
  {
    if rows != [] {
      var m := |rows| - 1;
      NoMember(z, rows[..m], k);
      FilterAppend(Member(z, k), rows[..m], [rows[m]]);
      assert rows == rows[..m] + [rows[m]];
    }
  }

  lemma GroupedStep(z: Zones, groups: Groups, order: seq<Key>, rows: seq<Task>, r: Task)
    requires Grouped(z, groups, order, rows)
    ensures OccurrenceOf(z, r).None? ==> Grouped(z, groups, order, rows + [r])
    ensures OccurrenceOf(z, r).Some? ==>
      var k := KeyOf(z, r);
      if k in groups then Grouped(z, groups[k := groups[k] + [r]], order, rows + [r])
      else Grouped(z, groups[k := [r]], order + [k], rows + [r])
  {
    assert (rows + [r])[..|rows|] == rows;
    forall k ensures Group(z, rows + [r], k) == Group(z, rows, k) + if InGroup(z, k, r) then [r] else [] {
      FilterAppend(Member(z, k), rows, [r]);
    }
    if OccurrenceOf(z, r).Some? && KeyOf(z, r) !in groups {
      NoMember(z, rows, KeyOf(z, r));
    }
  }

  method GroupRows(rows: seq<Task>, z: Zones) returns (groups: Groups, order: seq<Key>)
    ensures Grouped(z, groups, order, rows)
  {
    groups, order := map[], [];
    for i := 0 to |rows|
      invariant Grouped(z, groups, order, rows[..i])
    {
      var r := rows[i];
      assert rows[..i + 1] == rows[..i] + [r];
      GroupedStep(z, groups, order, rows[..i], r);
      var occ := OccurrenceOf(z, r);
      if occ.None? {
        continue;
      }
      var k := KeyOf(z, r);
      if k in groups {
        groups := groups[k := groups[k] + [r]];
      } else {
        groups, order := groups[k := [r]], order + [k];
      }
    }
    assert rows[..|rows|] == rows;
  }

  /** What one more group adds to a plan. */
  function Extended(z: Zones, rows: seq<Task>, before: Plan, k: Key): Plan {
    var group := Group(z, rows, k);
    if group == [] then before else
    var s := PickSurvivor(group);
    Plan(before.stamps + [(s.id, k.2)], before.deletes + Ids(Filter(Other(s.id), group)))
  }

  /** The plan for the groups `ks`. */
  function PlanFor(z: Zones, rows: seq<Task>, ks: seq<Key>): Plan {
    if ks == [] then Plan([], [])
    else Extended(z, rows, PlanFor(z, rows, ks[..|ks| - 1]), ks[|ks| - 1])
  }

  lemma PlanStep(z: Zones, rows: seq<Task>, before: seq<Key>, k: Key)
    ensures PlanFor(z, rows, before + [k]) == Extended(z, rows, PlanFor(z, rows, before), k)
  {
    assert (before + [k])[..|before|] == before;
  }

  lemma PlanMore(z: Zones, rows: seq<Task>, ks: seq<Key>, n: nat, stamps: seq<(string, string)>, deletes: seq<string>)
    requires n < |ks| && Plan(stamps, deletes) == PlanFor(z, rows, ks[..n]) && Group(z, rows, ks[n]) != []
    ensures var group := Group(z, rows, ks[n]);
      var s := PickSurvivor(group);
      PlanFor(z, rows, ks[..n + 1]) ==
        Plan(stamps + [(s.id, ks[n].2)], deletes + Ids(Filter(Other(s.id), group)))
  {
    assert ks[..n + 1] == ks[..n] + [ks[n]];
    PlanStep(z, rows, ks[..n], ks[n]);
  }

  lemma GroupsThere(z: Zones, groups: Groups, order: seq<Key>, rows: seq<Task>)
    requires Grouped(z, groups, order, rows)
    ensures order == Keys(z, rows)
    ensures forall n | 0 <= n < |order| ::
      order[n] in groups && groups[order[n]] == Group(z, rows, order[n]) && groups[order[n]] != []
  {
  }

  method PlanBackfill(rows: seq<Task>, z: Zones) returns (plan: Plan)
    ensures plan == PlanFor(z, rows, Keys(z, rows))
  {
    var groups, order := GroupRows(rows, z);
    GroupsThere(z, groups, order, rows);
    var stamps: seq<(string, string)>, deletes: seq<string> := [], [];
    for n := 0 to |order|
      invariant Plan(stamps, deletes) == PlanFor(z, rows, order[..n])
    {
      var k := order[n];
      PlanMore(z, rows, order, n, stamps, deletes);
      var survivor := PickSurvivor(groups[k]);
      stamps := stamps + [(survivor.id, k.2)];
      deletes := deletes + Ids(Filter(Other(survivor.id), groups[k]));
    }
    assert order[..|order|] == order;
    plan := Plan(stamps, deletes);
  }

  // ----- What the plan says of each row

  ghost predicate UniqueIds(rows: seq<Task>) {
    forall a, b | a in rows && b in rows && a.id == b.id :: a == b
  }

  lemma {:induction false} KeysElements(z: Zones, rows: seq<Task>)
    ensures forall r | r in rows && OccurrenceOf(z, r).Some? :: KeyOf(z, r) in Keys(z, rows)
    ensures forall k | k in Keys(z, rows) :: Group(z, rows, k) != []
    ensures forall i, j | 0 <= i < j < |Keys(z, rows)| :: Keys(z, rows)[i] != Keys(z, rows)[j]
  {
    if rows != [] {
      var m := |rows| - 1;
      KeysElements(z, rows[..m]);
      assert rows == rows[..m] + [rows[m]];
      forall k | k in Keys(z, rows) ensures Group(z, rows, k) != [] {
        FilterAppend(Member(z, k), rows[..m], [rows[m]]);
      }
    }
  }

  lemma GroupElements(z: Zones, rows: seq<Task>, k: Key)
    ensures forall r :: r in Group(z, rows, k) <==> r in rows && InGroup(z, k, r)
  {
    FilterElements(Member(z, k), rows);
  }

  /** The row that survives for a row with an occurrence date. */
  function SurvivorOf(z: Zones, rows: seq<Task>, r: Task): (s: Task)
    requires r in rows && OccurrenceOf(z, r).Some?
    ensures s in rows && InGroup(z, KeyOf(z, r), s)
  {
    GroupElements(z, rows, KeyOf(z, r));
    PickSurvivor(Group(z, rows, KeyOf(z, r)))
  }

  ghost predicate Survives(z: Zones, rows: seq<Task>, r: Task) {
    r in rows && OccurrenceOf(z, r).Some? && SurvivorOf(z, rows, r) == r
  }

  ghost predicate Loses(z: Zones, rows: seq<Task>, r: Task) {
    r in rows && OccurrenceOf(z, r).Some? && SurvivorOf(z, rows, r) != r
  }

  lemma IdsElements(rows: seq<Task>, id: string)
    ensures id in Ids(rows) <==> exists r :: r in rows && r.id == id
  {
    if id in Ids(rows) {
      var i :| 0 <= i < |rows| && Ids(rows)[i] == id;
      assert rows[i] in rows;
    }
    if r :| r in rows && r.id == id {
      var i :| 0 <= i < |rows| && rows[i] == r;
      assert Ids(rows)[i] == id;
    }
  }

  ghost predicate Stamped(z: Zones, rows: seq<Task>, ks: seq<Key>, id: string, occ: string) {
    exists r :: Survives(z, rows, r) && KeyOf(z, r) in ks && r.id == id && OccurrenceOf(z, r) == Some(occ)
  }

  ghost predicate Deleted(z: Zones, rows: seq<Task>, ks: seq<Key>, id: string) {
    exists r :: Loses(z, rows, r) && KeyOf(z, r) in ks && r.id == id
  }

  /** The row stamped for group `k`. */
  ghost predicate SurvivesIn(z: Zones, rows: seq<Task>, k: Key, id: string, occ: string) {
    exists r :: Survives(z, rows, r) && KeyOf(z, r) == k && r.id == id && OccurrenceOf(z, r) == Some(occ)
  }

  lemma SurvivorIn(z: Zones, rows: seq<Task>, k: Key, id: string, occ: string)
    ensures var group := Group(z, rows, k);
      SurvivesIn(z, rows, k, id, occ) <==> group != [] && (id, occ) == (PickSurvivor(group).id, k.2)
  {
    GroupElements(z, rows, k);
    var group := Group(z, rows, k);
    if group != [] {
      var s := PickSurvivor(group);
      assert KeyOf(z, s) == k && Survives(z, rows, s);
    }
    if SurvivesIn(z, rows, k, id, occ) {
      var r :| Survives(z, rows, r) && KeyOf(z, r) == k && r.id == id && OccurrenceOf(z, r) == Some(occ);
      assert r in group;
    }
  }

  lemma StampedStep(z: Zones, rows: seq<Task>, before: seq<Key>, k: Key, id: string, occ: string)
    ensures Stamped(z, rows, before + [k], id, occ) <==>
            Stamped(z, rows, before, id, occ) || SurvivesIn(z, rows, k, id, occ)
  {
    var ks := before + [k];
    if Stamped(z, rows, ks, id, occ) {
      var r :| Survives(z, rows, r) && KeyOf(z, r) in ks && r.id == id && OccurrenceOf(z, r) == Some(occ);
      assert KeyOf(z, r) == k || KeyOf(z, r) in before;
    }
    if Stamped(z, rows, before, id, occ) {
      var r :| Survives(z, rows, r) && KeyOf(z, r) in before && r.id == id && OccurrenceOf(z, r) == Some(occ);
      assert KeyOf(z, r) in ks;
    }
    if SurvivesIn(z, rows, k, id, occ) {
      var r :| Survives(z, rows, r) && KeyOf(z, r) == k && r.id == id && OccurrenceOf(z, r) == Some(occ);
      assert KeyOf(z, r) in ks;
    }
  }

  lemma StampStep(z: Zones, rows: seq<Task>, before: seq<Key>, k: Key, id: string, occ: string)
    requires (id, occ) in PlanFor(z, rows, before).stamps <==> Stamped(z, rows, before, id, occ)
    ensures (id, occ) in PlanFor(z, rows, before + [k]).stamps <==> Stamped(z, rows, before + [k], id, occ)
  {
    PlanStep(z, rows, before, k);
    StampedStep(z, rows, before, k, id, occ);
    SurvivorIn(z, rows, k, id, occ);
    if Group(z, rows, k) != [] {
      LastIn(PlanFor(z, rows, before).stamps, (PickSurvivor(Group(z, rows, k)).id, k.2), (id, occ));
    }
  }

  lemma LastIn<T>(xs: seq<T>, last: T, x: T)
    ensures x in xs + [last] <==> x in xs || x == last
  {
  }

  lemma InEither<T>(xs: seq<T>, ys: seq<T>, x: T)
    ensures x in xs + ys <==> x in xs || x in ys
  {
  }

  ghost predicate LosesIn(z: Zones, rows: seq<Task>, k: Key, id: string) {
    exists r :: Loses(z, rows, r) && KeyOf(z, r) == k && r.id == id
  }

  lemma OthersLose(z: Zones, rows: seq<Task>, k: Key, id: string)
    requires UniqueIds(rows) && Group(z, rows, k) != []
    ensures var group := Group(z, rows, k);
      id in Ids(Filter(Other(PickSurvivor(group).id), group)) <==> LosesIn(z, rows, k, id)
  {
    GroupElements(z, rows, k);
    var group := Group(z, rows, k);
    var s := PickSurvivor(group);
    var others := Filter(Other(s.id), group);
    FilterElements(Other(s.id), group);
    IdsElements(others, id);
    if id in Ids(others) {
      var r :| r in others && r.id == id;
      assert KeyOf(z, r) == k && Loses(z, rows, r);
    }
    if LosesIn(z, rows, k, id) {
      var r :| Loses(z, rows, r) && KeyOf(z, r) == k && r.id == id;
      assert r in others;
    }
  }

  lemma NoneLoses(z: Zones, rows: seq<Task>, k: Key, id: string)
    requires Group(z, rows, k) == []
    ensures !LosesIn(z, rows, k, id)
  {
    GroupElements(z, rows, k);
  }

  lemma DeletedStep(z: Zones, rows: seq<Task>, before: seq<Key>, k: Key, id: string)
    ensures Deleted(z, rows, before + [k], id) <==> Deleted(z, rows, before, id) || LosesIn(z, rows, k, id)
  {
    var ks := before + [k];
    if Deleted(z, rows, ks, id) {
      var r :| Loses(z, rows, r) && KeyOf(z, r) in ks && r.id == id;
      assert KeyOf(z, r) == k || KeyOf(z, r) in before;
    }
    if Deleted(z, rows, before, id) {
      var r :| Loses(z, rows, r) && KeyOf(z, r) in before && r.id == id;
      assert KeyOf(z, r) in ks;
    }
    if LosesIn(z, rows, k, id) {
      var r :| Loses(z, rows, r) && KeyOf(z, r) == k && r.id == id;
      assert KeyOf(z, r) in ks;
    }
  }

  lemma DeleteStep(z: Zones, rows: seq<Task>, before: seq<Key>, k: Key, id: string)
    requires UniqueIds(rows)
    requires id in PlanFor(z, rows, before).deletes <==> Deleted(z, rows, before, id)
    ensures id in PlanFor(z, rows, before + [k]).deletes <==> Deleted(z, rows, before + [k], id)
  {
    PlanStep(z, rows, before, k);
    DeletedStep(z, rows, before, k, id);
    var group := Group(z, rows, k);
    if group != [] {
      OthersLose(z, rows, k, id);
      InEither(PlanFor(z, rows, before).deletes, Ids(Filter(Other(PickSurvivor(group).id), group)), id);
    } else {
      NoneLoses(z, rows, k, id);
    }
  }

  /** The stamps and deletes of the groups `ks`, row by row. */
  lemma {:induction false} PlanElements(z: Zones, rows: seq<Task>, ks: seq<Key>)
    requires UniqueIds(rows)
    ensures forall id, occ :: (id, occ) in PlanFor(z, rows, ks).stamps <==> Stamped(z, rows, ks, id, occ)
    ensures forall id :: id in PlanFor(z, rows, ks).deletes <==> Deleted(z, rows, ks, id)
  {
    if ks != [] {
      var before, k := ks[..|ks| - 1], ks[|ks| - 1];
      assert ks == before + [k];
      PlanElements(z, rows, before);
      forall id, occ ensures (id, occ) in PlanFor(z, rows, ks).stamps <==> Stamped(z, rows, ks, id, occ) {
        StampStep(z, rows, before, k, id, occ);
      }
      forall id ensures id in PlanFor(z, rows, ks).deletes <==> Deleted(z, rows, ks, id) {
        DeleteStep(z, rows, before, k, id);
      }
    }
  }

  /** Every row is stamped, deleted or skipped, and only one of these. */
  lemma EachRowOnce(z: Zones, rows: seq<Task>, r: Task)
    requires UniqueIds(rows) && r in rows
    ensures var plan := PlanFor(z, rows, Keys(z, rows));
      && (Survives(z, rows, r) <==> exists occ :: (r.id, occ) in plan.stamps)
      && (Loses(z, rows, r) <==> r.id in plan.deletes)
      && (Survives(z, rows, r) ==> forall occ :: (r.id, occ) in plan.stamps <==> OccurrenceOf(z, r) == Some(occ))
  {
    var ks := Keys(z, rows);
    PlanElements(z, rows, ks);
    KeysElements(z, rows);
    var plan := PlanFor(z, rows, ks);
    if Survives(z, rows, r) {
      assert (r.id, OccurrenceOf(z, r).value) in plan.stamps;
    }
    if occ :| (r.id, occ) in plan.stamps {
      assert Stamped(z, rows, ks, r.id, occ);
      var x :| Survives(z, rows, x) && KeyOf(z, x) in ks && x.id == r.id && OccurrenceOf(z, x) == Some(occ);
      assert x == r;
    }
    if r.id in plan.deletes {
      assert Deleted(z, rows, ks, r.id);
      var x :| Loses(z, rows, x) && KeyOf(z, x) in ks && x.id == r.id;
      assert x == r;
    }
  }

  // ----- Applying the plan

  function StampFor(stamps: seq<(string, string)>, id: string): Option<string> {
    if stamps == [] then None
    else if stamps[|stamps| - 1].0 == id then Some(stamps[|stamps| - 1].1)
    else StampFor(stamps[..|stamps| - 1], id)
  }

  function Stamp(plan: Plan, r: Task): Task {
    match StampFor(plan.stamps, r.id)
    case None => r
    case Some(occ) => r.(occurrence := Some(occ))
  }

  /** All DELETEs, then all UPDATEs. */
  function Applied(plan: Plan, rows: seq<Task>): seq<Task> {
    if rows == [] then []
    else (if rows[0].id in plan.deletes then [] else [Stamp(plan, rows[0])]) + Applied(plan, rows[1..])
  }

  lemma {:induction false} AppliedElements(plan: Plan, rows: seq<Task>, x: Task)
    ensures x in Applied(plan, rows) <==> exists r :: r in rows && r.id !in plan.deletes && x == Stamp(plan, r)
  {
    if rows != [] {
      AppliedElements(plan, rows[1..], x);
      assert rows == [rows[0]] + rows[1..];
      if r :| r in rows && r.id !in plan.deletes && x == Stamp(plan, r) {
        assert r == rows[0] || r in rows[1..];
      }
    }
  }

  lemma {:induction false} StampForElements(stamps: seq<(string, string)>, id: string)
    ensures match StampFor(stamps, id)
            case None => forall occ :: (id, occ) !in stamps
            case Some(occ) => (id, occ) in stamps
  {
    if stamps != [] {
      StampForElements(stamps[..|stamps| - 1], id);
      assert stamps == stamps[..|stamps| - 1] + [stamps[|stamps| - 1]];
    }
  }

  function Planned(z: Zones, rows: seq<Task>): Plan {
    PlanFor(z, rows, Keys(z, rows))
  }

  function AfterBackfill(z: Zones, rows: seq<Task>): seq<Task> {
    Applied(Planned(z, rows), rows)
  }

  /** What is left: survivors with their date, and rows without timing as they were. */
  lemma Remaining(z: Zones, rows: seq<Task>, x: Task)
    requires UniqueIds(rows)
    ensures x in AfterBackfill(z, rows) <==>
      || (x in rows && OccurrenceOf(z, x).None?)
      || (exists r :: Survives(z, rows, r) && x == r.(occurrence := OccurrenceOf(z, r)))
  {
    var plan := Planned(z, rows);
    AppliedElements(plan, rows, x);
    forall r | r in rows ensures
      Stamp(plan, r) == if Survives(z, rows, r) then r.(occurrence := OccurrenceOf(z, r)) else r
    {
      EachRowOnce(z, rows, r);
      StampForElements(plan.stamps, r.id);
    }
    forall r | r in rows ensures r.id in plan.deletes <==> Loses(z, rows, r) { EachRowOnce(z, rows, r); }
    if x in AfterBackfill(z, rows) {
      var r :| r in rows && r.id !in plan.deletes && x == Stamp(plan, r);
      assert Survives(z, rows, r) || OccurrenceOf(z, r).None?;
    }
    if x in rows && OccurrenceOf(z, x).None? {
      assert x.id !in plan.deletes && x == Stamp(plan, x);
    }
    if r :| Survives(z, rows, r) && x == r.(occurrence := OccurrenceOf(z, r)) {
      assert r.id !in plan.deletes && x == Stamp(plan, r);
    }
  }

  lemma DistinctIdsUnique(rows: seq<Task>)
    requires DistinctBy(IdOf, rows)
    ensures UniqueIds(rows)
  {
    forall a, b | a in rows && b in rows && a.id == b.id ensures a == b {
      var i :| 0 <= i < |rows| && rows[i] == a;
      var j :| 0 <= j < |rows| && rows[j] == b;
      assert IdOf(rows[i]) == IdOf(rows[j]);
    }
  }

  lemma {:induction false} AppliedDistinct(plan: Plan, rows: seq<Task>)
    requires DistinctBy(IdOf, rows)
    ensures DistinctBy(IdOf, Applied(plan, rows))
  {
    if rows != [] {
      var x, rest := rows[0], rows[1..];
      assert rows == [x] + rest;
      HeadDistinct(IdOf, x, rest);
      AppliedDistinct(plan, rest);
      forall y | y in Applied(plan, rest) ensures IdOf(y) != x.id {
        AppliedElements(plan, rest, y);
        var r :| r in rest && r.id !in plan.deletes && y == Stamp(plan, r);
        assert IdOf(r) != IdOf(x);
      }
      HeadDistinct(IdOf, Stamp(plan, x), Applied(plan, rest));
    }
  }

  /** Two rows clash under the UNIQUE index; NULL dates never do. */
  predicate Clash(x: Task, y: Task) {
    x.occurrence.Some? && x.occurrence == y.occurrence && x.owner == y.owner && x.template == y.template
  }

  ghost predicate NoClash(rows: seq<Task>) {
    forall x, y | x in rows && y in rows && x != y :: !Clash(x, y)
  }

  /** A row that is passed over and has a date already is alone with it. */
  ghost predicate PassedOverFit(z: Zones, rows: seq<Task>) {
    forall x, y | x in rows && y in rows && x != y && OccurrenceOf(z, x).None? && x.occurrence.Some? ::
      if OccurrenceOf(z, y).None? then !Clash(x, y) else KeyOf(z, y) != (x.owner, x.template, x.occurrence.value)
  }

  /** What clashes with a dated row that is passed over is no survivor that got its date. */
  lemma NoSuchSurvivor(z: Zones, rows: seq<Task>, x: Task, r: Task)
    requires PassedOverFit(z, rows) && x in rows && OccurrenceOf(z, x).None? && Survives(z, rows, r)
    ensures !Clash(x, r.(occurrence := OccurrenceOf(z, r)))
  {
    if x.occurrence.Some? {
      assert x != r;
    }
  }

  lemma ClashWithPassedOver(z: Zones, rows: seq<Task>, x: Task, y: Task)
    requires UniqueIds(rows) && PassedOverFit(z, rows) && x != y && Clash(x, y)
    requires x in rows && OccurrenceOf(z, x).None?
    ensures y !in AfterBackfill(z, rows)
  {
    Remaining(z, rows, y);
    forall r | Survives(z, rows, r) ensures y != r.(occurrence := OccurrenceOf(z, r)) {
      NoSuchSurvivor(z, rows, x, r);
    }
  }

  lemma RemainingDoNotClash(z: Zones, rows: seq<Task>, x: Task, y: Task)
    requires UniqueIds(rows) && PassedOverFit(z, rows) && x != y
    requires x in AfterBackfill(z, rows) && y in AfterBackfill(z, rows)
    ensures !Clash(x, y)
  {
    Remaining(z, rows, x);
    Remaining(z, rows, y);
    if Clash(x, y) {
      if OccurrenceOf(z, x).None? {
        ClashWithPassedOver(z, rows, x, y);
      } else if OccurrenceOf(z, y).None? {
        ClashWithPassedOver(z, rows, y, x);
      } else {
        assert false;
      }
    }
  }

  lemma PassedOverClash(z: Zones, rows: seq<Task>, x: Task, y: Task)
    requires UniqueIds(rows) && NoClash(AfterBackfill(z, rows))
    requires x in rows && y in rows && x != y && OccurrenceOf(z, x).None? && x.occurrence.Some?
    ensures if OccurrenceOf(z, y).None? then !Clash(x, y) else KeyOf(z, y) != (x.owner, x.template, x.occurrence.value)
  {
    Remaining(z, rows, x);
    if OccurrenceOf(z, y).None? {
      Remaining(z, rows, y);
    } else {
      var s := SurvivorOf(z, rows, y);
      var stamped := s.(occurrence := OccurrenceOf(z, s));
      assert KeyOf(z, s) == KeyOf(z, y) && Survives(z, rows, s);
      Remaining(z, rows, stamped);
      assert OccurrenceOf(z, stamped).Some?;
    }
  }

  /**
  The UNIQUE index can be created exactly if no row that is passed over brings a date that another
  row has or gets. Dates on the other rows do not matter: each survivor is given its own.
  */
  lemma IndexHoldsIff(z: Zones, rows: seq<Task>)
    requires DistinctBy(IdOf, rows)
    ensures var after := AfterBackfill(z, rows);
      && DistinctBy(IdOf, after)
      && (NoClash(after) <==> PassedOverFit(z, rows))
  {
    var after := AfterBackfill(z, rows);
    DistinctIdsUnique(rows);
    AppliedDistinct(Planned(z, rows), rows);
    if PassedOverFit(z, rows) {
      forall x, y | x in after && y in after && x != y ensures !Clash(x, y) {
        RemainingDoNotClash(z, rows, x, y);
      }
    }
    if NoClash(after) {
      forall x, y | x in rows && y in rows && x != y && OccurrenceOf(z, x).None? && x.occurrence.Some?
        ensures if OccurrenceOf(z, y).None? then !Clash(x, y)
                else KeyOf(z, y) != (x.owner, x.template, x.occurrence.value)
      {
        PassedOverClash(z, rows, x, y);
      }
    }
  }

  lemma PassedOverUnfit(z: Zones, x: Task, y: Task)
    requires x.id != y.id && OccurrenceOf(z, x).None? && x.occurrence.Some?
    requires OccurrenceOf(z, y) == x.occurrence && y.owner == x.owner && y.template == x.template
    ensures !NoClash(AfterBackfill(z, [x, y]))
  {
    var rows := [x, y];
    assert x in rows && y in rows;
    IndexHoldsIff(z, rows);
  }

  /** A row without timing that has a date already, and a row that gets the same date. */
  lemma PassedOverExample(z: Zones)
    requires z == Zones(map[], "UTC", (iso: string, tz: string) => iso)
    ensures var x := Task("1", "owner", "template", "pending", "", None, None, Some("d"));
      var y := Task("2", "owner", "template", "pending", "", Some("d"), None, None);
      !NoClash(AfterBackfill(z, [x, y]))
  {
    assert "1"[0] != "2"[0] && "d" != "";
    PassedOverUnfit(z, Task("1", "owner", "template", "pending", "", None, None, Some("d")),
                    Task("2", "owner", "template", "pending", "", Some("d"), None, None));
  }

  /** No group is emptied, and what is deleted ranks behind a survivor of its group. */
  lemma DeletesOnlyTheWorse(z: Zones, rows: seq<Task>, r: Task)
    requires UniqueIds(rows) && r in rows && r.id in Planned(z, rows).deletes
    ensures OccurrenceOf(z, r).Some?
    ensures var s := SurvivorOf(z, rows, r);
      && s.(occurrence := OccurrenceOf(z, r)) in AfterBackfill(z, rows)
      && s.owner == r.owner && s.template == r.template && s != r && RankLe(s, r)
      && (r.status != "pending" ==> s.status != "pending")
  {
    EachRowOnce(z, rows, r);
    var k := KeyOf(z, r);
    GroupElements(z, rows, k);
    SurvivorIsFirst(Group(z, rows, k), r);
    var s := SurvivorOf(z, rows, r);
    assert KeyOf(z, s) == k && Survives(z, rows, s);
    Remaining(z, rows, s.(occurrence := OccurrenceOf(z, r)));
  }

  // ----- Planning again

  lemma AppliedUniqueIds(z: Zones, rows: seq<Task>)
    requires UniqueIds(rows)
    ensures UniqueIds(AfterBackfill(z, rows))
  {
    var plan := Planned(z, rows);
    forall a, b | a in AfterBackfill(z, rows) && b in AfterBackfill(z, rows) && a.id == b.id ensures a == b {
      AppliedElements(plan, rows, a);
      AppliedElements(plan, rows, b);
    }
  }

  /** After the backfill every row with an occurrence date is alone in its group. */
  lemma AloneAfter(z: Zones, rows: seq<Task>, x: Task)
    requires UniqueIds(rows) && x in AfterBackfill(z, rows) && OccurrenceOf(z, x).Some?
    ensures Survives(z, AfterBackfill(z, rows), x)
  {
    var after := AfterBackfill(z, rows);
    var y := SurvivorOf(z, after, x);
    Remaining(z, rows, x);
    Remaining(z, rows, y);
    var r :| Survives(z, rows, r) && x == r.(occurrence := OccurrenceOf(z, r));
    var s :| Survives(z, rows, s) && y == s.(occurrence := OccurrenceOf(z, s));
    assert KeyOf(z, r) == KeyOf(z, s);
  }

  /** Some survivor has this id and occurrence date. */
  ghost predicate Kept(z: Zones, rows: seq<Task>, id: string, occ: string) {
    exists r :: Survives(z, rows, r) && r.id == id && OccurrenceOf(z, r) == Some(occ)
  }

  lemma StampsAreKept(z: Zones, rows: seq<Task>, id: string, occ: string)
    requires UniqueIds(rows)
    ensures (id, occ) in Planned(z, rows).stamps <==> Kept(z, rows, id, occ)
  {
    PlanElements(z, rows, Keys(z, rows));
    KeysElements(z, rows);
  }

  lemma KeptBefore(z: Zones, rows: seq<Task>, id: string, occ: string)
    requires UniqueIds(rows) && Kept(z, AfterBackfill(z, rows), id, occ)
    ensures Kept(z, rows, id, occ)
  {
    var x :| Survives(z, AfterBackfill(z, rows), x) && x.id == id && OccurrenceOf(z, x) == Some(occ);
    Remaining(z, rows, x);
    var r :| Survives(z, rows, r) && x == r.(occurrence := OccurrenceOf(z, r));
    assert r.id == id && OccurrenceOf(z, r) == Some(occ);
  }

  lemma KeptAgain(z: Zones, rows: seq<Task>, id: string, occ: string)
    requires UniqueIds(rows) && Kept(z, rows, id, occ)
    ensures Kept(z, AfterBackfill(z, rows), id, occ)
  {
    var r :| Survives(z, rows, r) && r.id == id && OccurrenceOf(z, r) == Some(occ);
    var x := r.(occurrence := OccurrenceOf(z, r));
    Remaining(z, rows, x);
    AloneAfter(z, rows, x);
    assert x.id == id && OccurrenceOf(z, x) == Some(occ);
  }

  lemma NothingLost(z: Zones, rows: seq<Task>, id: string)
    requires UniqueIds(rows)
    ensures id !in Planned(z, AfterBackfill(z, rows)).deletes
  {
    var after := AfterBackfill(z, rows);
    AppliedUniqueIds(z, rows);
    PlanElements(z, after, Keys(z, after));
    forall x | x in after && OccurrenceOf(z, x).Some? ensures !Loses(z, after, x) { AloneAfter(z, rows, x); }
  }

  /** Planning again deletes nothing and gives the same stamps, though perhaps in another order. */
  lemma PlanningAgain(z: Zones, rows: seq<Task>)
    requires UniqueIds(rows)
    ensures Planned(z, AfterBackfill(z, rows)).deletes == []
    ensures forall id, occ ::
      (id, occ) in Planned(z, AfterBackfill(z, rows)).stamps <==> (id, occ) in Planned(z, rows).stamps
  {
    var again := Planned(z, AfterBackfill(z, rows));
    AppliedUniqueIds(z, rows);
    if again.deletes != [] {
      NothingLost(z, rows, again.deletes[0]);
      assert false;
    }
    forall id, occ ensures (id, occ) in again.stamps <==> (id, occ) in Planned(z, rows).stamps {
      StampsAreKept(z, AfterBackfill(z, rows), id, occ);
      StampsAreKept(z, rows, id, occ);
      if Kept(z, rows, id, occ) {
        KeptAgain(z, rows, id, occ);
      }
      if Kept(z, AfterBackfill(z, rows), id, occ) {
        KeptBefore(z, rows, id, occ);
      }
    }
  }

  // ----- The printed counts

  function Timed(z: Zones): Task -> bool {
    (r: Task) => OccurrenceOf(z, r).Some?
  }

  function Untimed(z: Zones): Task -> bool {
    (r: Task) => OccurrenceOf(z, r).None?
  }

  /** Rows in the groups of `ks`, added up group by group. */
  function InGroups(z: Zones, rows: seq<Task>, ks: seq<Key>): nat {
    if ks == [] then 0 else InGroups(z, rows, ks[..|ks| - 1]) + |Group(z, rows, ks[|ks| - 1])|
  }

  /** One more row is counted once if its key is among distinct `ks`. */
  lemma {:induction false} InGroupsStep(z: Zones, rows: seq<Task>, r: Task, ks: seq<Key>)
    requires forall i, j | 0 <= i < j < |ks| :: ks[i] != ks[j]
    ensures InGroups(z, rows + [r], ks) ==
      InGroups(z, rows, ks) + if OccurrenceOf(z, r).Some? && KeyOf(z, r) in ks then 1 else 0
  {
    if ks != [] {
      var m := |ks| - 1;
      InGroupsStep(z, rows, r, ks[..m]);
      FilterAppend(Member(z, ks[m]), rows, [r]);
      assert ks == ks[..m] + [ks[m]];
    }
  }

  lemma {:induction false} InGroupsEmpty(z: Zones, ks: seq<Key>)
    ensures InGroups(z, [], ks) == 0
  {
    if ks != [] {
      InGroupsEmpty(z, ks[..|ks| - 1]);
    }
  }

  lemma {:induction false} TimedRowsInGroups(z: Zones, rows: seq<Task>, ks: seq<Key>)
    requires forall i, j | 0 <= i < j < |ks| :: ks[i] != ks[j]
    requires forall r | r in rows && OccurrenceOf(z, r).Some? :: KeyOf(z, r) in ks
    ensures InGroups(z, rows, ks) == |Filter(Timed(z), rows)|
    ensures |Filter(Timed(z), rows)| + |Filter(Untimed(z), rows)| == |rows|
  {
    if rows == [] {
      InGroupsEmpty(z, ks);
    } else {
      var before, r := rows[..|rows| - 1], rows[|rows| - 1];
      assert rows == before + [r];
      assert r in rows;
      TimedRowsInGroups(z, before, ks);
      InGroupsStep(z, before, r, ks);
      FilterAppend(Timed(z), before, [r]);
      FilterAppend(Untimed(z), before, [r]);
    }
  }

  lemma {:induction false} AllButOne(rows: seq<Task>, s: Task)
    requires DistinctBy(IdOf, rows)
    ensures |Filter(Other(s.id), rows)| + (if exists r :: r in rows && r.id == s.id then 1 else 0) == |rows|
  {
    if rows != [] {
      var x, rest := rows[0], rows[1..];
      assert rows == [x] + rest;
      HeadDistinct(IdOf, x, rest);
      AllButOne(rest, s);
      if x.id == s.id {
        assert x in rows;
        assert forall y | y in rest :: IdOf(y) != s.id;
      } else if r :| r in rows && r.id == s.id {
        assert r in rest;
      }
    }
  }

  lemma {:induction false} PlanCounts(z: Zones, rows: seq<Task>, ks: seq<Key>)
    requires DistinctBy(IdOf, rows)
    ensures var plan := PlanFor(z, rows, ks); |plan.stamps| + |plan.deletes| == InGroups(z, rows, ks)
  {
    if ks != [] {
      var k := ks[|ks| - 1];
      PlanCounts(z, rows, ks[..|ks| - 1]);
      var group := Group(z, rows, k);
      FilterDistinct(Member(z, k), IdOf, rows);
      if group != [] {
        AllButOne(group, PickSurvivor(group));
      }
    }
  }

  /** `skipped`, printed as rows less stamps less deletes, is the number of rows without timing. */
  lemma SkippedCountRight(z: Zones, rows: seq<Task>)
    requires DistinctBy(IdOf, rows)
    ensures var plan := Planned(z, rows);
      |rows| - |plan.stamps| - |plan.deletes| == |Filter(Untimed(z), rows)|
  {
    KeysElements(z, rows);
    PlanCounts(z, rows, Keys(z, rows));
    TimedRowsInGroups(z, rows, Keys(z, rows));
  }
}
