/**
Conservation over a whole stream in bin/solver-usage-backfill.py: every recorded fetch line is an
attempt of exactly one row.
*/
module FetchConservation {
  import opened Wrappers
  import opened Sorting
  import opened SolverCalls
  import opened SolverCallLaws

  /** The `attempts` column, added up. */
  function Attempts(rows: seq<Row>): nat {
    if rows == [] then 0 else Attempts(rows[..|rows| - 1]) + rows[|rows| - 1].attempts
  }

  lemma {:induction false} AttemptsAppend(a: seq<Row>, b: seq<Row>)
    ensures Attempts(a + b) == Attempts(a) + Attempts(b)
  {
    if b == [] {
      assert a + b == a;
    } else {
      AttemptsAppend(a, b[..|b| - 1]);
      assert (a + b)[..|a + b| - 1] == a + b[..|b| - 1];
    }
  }

  lemma AttemptsOne(r: Row)
    ensures Attempts([r]) == r.attempts
  {
    assert [r][..0] == [];
  }

  lemma {:induction false} AttemptsPermuted(xs: seq<Row>, ys: seq<Row>)
    requires multiset(xs) == multiset(ys)
    ensures Attempts(xs) == Attempts(ys)
  {
    if xs == [] {
      assert |multiset(ys)| == 0;
      assert ys == [];
    } else {
      var before, x := xs[..|xs| - 1], xs[|xs| - 1];
      assert xs == before + [x];
      var a, b := TakeOut(ys, x);
      AttemptsPermuted(before, a + b);
      AttemptsAppend(a, b);
      AttemptsAppend(a + [x], b);
      AttemptsAppend(a, [x]);
      AttemptsOne(x);
    }
  }

  // ----- One request

  lemma {:induction false} FilterAll<T>(p: T -> bool, xs: seq<T>)
    requires forall i | 0 <= i < |xs| :: p(xs[i])
    ensures Filter(p, xs) == xs
  {
    if xs != [] {
      FilterAll(p, xs[1..]);
    }
  }

  lemma FetchesOfSolve(s: Solve)
    requires ShapedSolve(s)
    ensures Filter(IsFetch, SolveLines(s)) == s.fetches
  {
    FilterAll(IsFetch, s.fetches);
    match s.diag
    case None =>
      assert SolveLines(s) == s.fetches;
    case Some(d) =>
      FilterAppend(IsFetch, s.fetches, [d]);
      assert Filter(IsFetch, [d]) == [];
  }

  lemma {:induction false} AttemptsOfCalls(env: string, iso: nat -> string, rid: Option<string>, calls: seq<Solve>)
    requires Shaped(calls)
    ensures Opened(calls) && Attempts(RowsOf(env, iso, rid, calls)) == |Filter(IsFetch, Lines(calls))|
  {
    if calls != [] {
      var before, s := calls[..|calls| - 1], calls[|calls| - 1];
      AttemptsOfCalls(env, iso, rid, before);
      var rows := RowsOf(env, iso, rid, calls);
      assert rows[..|rows| - 1] == RowsOf(env, iso, rid, before);
      FilterAppend(IsFetch, Lines(before), SolveLines(s));
      FetchesOfSolve(s);
    }
  }

  function OwnFetches(evs: seq<Event>, rid: Option<string>): seq<Event> {
    Filter(IsFetch, Filter(HasRequest(rid), evs))
  }

  lemma AttemptsOfRequest(recorded: seq<Event>, env: string, iso: nat -> string, rid: Option<string>)
    ensures Attempts(RequestRows(recorded, env, iso)(rid)) == |OwnFetches(recorded, rid)|
  {
    var own := Filter(HasRequest(rid), recorded);
    SplitShaped(own);
    SplitConserves(own);
    AttemptsOfCalls(env, iso, rid, Split(own));
  }

  // ----- All requests

  function FetchesOf(evs: seq<Event>, rids: seq<Option<string>>): nat {
    if rids == [] then 0 else FetchesOf(evs, rids[..|rids| - 1]) + |OwnFetches(evs, rids[|rids| - 1])|
  }

  lemma {:induction false} AttemptsOfRequests(
      recorded: seq<Event>, env: string, iso: nat -> string, rids: seq<Option<string>>)
    ensures Attempts(Concat(RequestRows(recorded, env, iso), rids)) == FetchesOf(recorded, rids)
  {
    if rids != [] {
      var before, rid := rids[..|rids| - 1], rids[|rids| - 1];
      var f := RequestRows(recorded, env, iso);
      AttemptsOfRequests(recorded, env, iso, before);
      AttemptsOfRequest(recorded, env, iso, rid);
      AttemptsAppend(Concat(f, before), f(rid));
    }
  }

  lemma OwnFetchesStep(evs: seq<Event>, e: Event, rid: Option<string>)
    ensures |OwnFetches(evs + [e], rid)| == |OwnFetches(evs, rid)| + if IsFetch(e) && e.requestId == rid then 1 else 0
  {
    var own, more := Filter(HasRequest(rid), evs), Filter(HasRequest(rid), [e]);
    FilterAppend(HasRequest(rid), evs, [e]);
    FilterAppend(IsFetch, own, more);
  }

  /** One more fetch line is counted once, if its request is among distinct `rids`. */
  lemma {:induction false} FetchesOfStep(evs: seq<Event>, e: Event, rids: seq<Option<string>>)
    requires forall i, j | 0 <= i < j < |rids| :: rids[i] != rids[j]
    ensures FetchesOf(evs + [e], rids) == FetchesOf(evs, rids) + if IsFetch(e) && e.requestId in rids then 1 else 0
  {
    if rids != [] {
      var before, rid := rids[..|rids| - 1], rids[|rids| - 1];
      assert rids == before + [rid];
      FetchesOfStep(evs, e, before);
      OwnFetchesStep(evs, e, rid);
    }
  }

  lemma {:induction false} NoFetches(rids: seq<Option<string>>)
    ensures FetchesOf([], rids) == 0
  {
    if rids != [] {
      NoFetches(rids[..|rids| - 1]);
    }
  }

  lemma {:induction false} FetchesOfAll(evs: seq<Event>, rids: seq<Option<string>>)
    requires forall i, j | 0 <= i < j < |rids| :: rids[i] != rids[j]
    requires forall e | e in evs :: e.requestId in rids
    ensures FetchesOf(evs, rids) == |Filter(IsFetch, evs)|
  {
    if evs == [] {
      NoFetches(rids);
    } else {
      var before, e := evs[..|evs| - 1], evs[|evs| - 1];
      assert evs == before + [e];
      FetchesOfAll(before, rids);
      FetchesOfStep(before, e, rids);
      FilterAppend(IsFetch, before, [e]);
    }
  }

  /** The attempts of all rows are the recorded fetch lines: none is lost, none is counted twice. */
  lemma AttemptsAreFetches(events: seq<Event>, env: string, iso: nat -> string)
    ensures Attempts(Paired(events, env, iso)) == |Filter(IsFetch, Recorded(events))|
  {
    var recorded := Recorded(events);
    var rows := Concat(RequestRows(recorded, env, iso), Requests(recorded));
    RequestsElements(recorded);
    AttemptsOfRequests(recorded, env, iso, Requests(recorded));
    FetchesOfAll(recorded, Requests(recorded));
    SortPermutes(AtLe, rows);
    AttemptsPermuted(Sort(AtLe, rows), rows);
  }
}
