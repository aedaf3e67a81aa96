/**
What the rows of bin/solver-usage-backfill.py report: each call's columns come from its own first
attempt, its last attempt and its diagnostics line, and the rows are in text order of `at`.
*/
module RowColumns {
  import opened Wrappers
  import opened Sorting
  import opened Text
  import opened SolverCalls
  import opened SolverCallLaws

  /** The attempt that the answer came from. */
  function LastAttempt(s: Solve): Line
    requires s.fetches != []
  {
    s.fetches[|s.fetches| - 1].line
  }

  /** The row of a request's `n`-th call, column by column. */
  ghost predicate Reports(r: Row, env: string, iso: nat -> string, rid: Option<string>, n: nat, s: Solve) {
    && s.fetches != [] && LastAttempt(s).Fetch? && (s.diag.Some? ==> s.diag.value.line.Diagnostics?)
    && r.env == env && r.requestId == rid && r.callId == Shown(rid) + "#" + Decimal(n)
    && r.at == iso(s.fetches[0].ts) && r.trigger == s.fetches[0].trigger && r.attempts == |s.fetches|
    && r.httpStatus == LastAttempt(s).status && r.uptime == LastAttempt(s).uptime
    && match s.diag
       case Some(d) =>
         && r.roundTrip == Some(d.line.roundTrip) && r.status == Some(d.line.verdict)
         && r.pass1Ms == Some(d.line.pass1Ms) && r.pass2Ms == Some(d.line.pass2Ms)
       case None =>
         && r.roundTrip == LastAttempt(s).ms && r.pass1Ms == None && r.pass2Ms == None
         && (r.status == Some("UNSAT") <==> LastAttempt(s).status == Some(422))
         && (r.status == None <==> LastAttempt(s).status != Some(422))
  }

  predicate IsRowOf(r: Row, rid: Option<string>) {
    r.requestId == rid
  }

  function OfRequest(rid: Option<string>): Row -> bool {
    (r: Row) => IsRowOf(r, rid)
  }

  lemma RowReports(env: string, iso: nat -> string, rid: Option<string>, n: nat, s: Solve)
    requires ShapedSolve(s)
    ensures Reports(RowFor(env, iso, rid, n, s), env, iso, rid, n, s)
  {
  }

  /** Rows of one request only. */
  lemma {:induction false} FilterOwn(rows: seq<Row>, rid: Option<string>, other: Option<string>)
    requires forall i | 0 <= i < |rows| :: rows[i].requestId == other
    ensures Filter(OfRequest(rid), rows) == if rid == other then rows else []
  {
    if rows != [] {
      FilterOwn(rows[1..], rid, other);
    }
  }

  lemma {:induction false} FilterConcat(f: Option<string> -> seq<Row>, rids: seq<Option<string>>, rid: Option<string>)
    requires Numbered(f) && forall i, j | 0 <= i < j < |rids| :: rids[i] != rids[j]
    ensures Filter(OfRequest(rid), Concat(f, rids)) == if rid in rids then f(rid) else []
  {
    if rids != [] {
      var before, last := rids[..|rids| - 1], rids[|rids| - 1];
      assert rids == before + [last];
      FilterConcat(f, before, rid);
      FilterAppend(OfRequest(rid), Concat(f, before), f(last));
      forall i | 0 <= i < |f(last)| ensures f(last)[i].requestId == last {
        assert RowOf(f(last)[i], last, i + 1);
      }
      FilterOwn(f(last), rid, last);
    }
  }

  lemma AtPreorder()
    ensures TotalPreorder(AtLe)
  {
    StrLePreorder();
  }

  /** The rows come in text order of `at`. */
  lemma RowsInOrder(events: seq<Event>, env: string, iso: nat -> string)
    ensures SortedBy(AtLe, Paired(events, env, iso))
  {
    var recorded := Recorded(events);
    AtPreorder();
    SortSorts(AtLe, Concat(RequestRows(recorded, env, iso), Requests(recorded)));
  }

  /** A request's rows are those of its own calls, one each, put in order. */
  lemma RowsOfRequest(events: seq<Event>, env: string, iso: nat -> string, rid: Option<string>)
    ensures Filter(OfRequest(rid), Paired(events, env, iso)) ==
      Sort(AtLe, RequestRows(Recorded(events), env, iso)(rid))
  {
    var recorded := Recorded(events);
    var f, rids := RequestRows(recorded, env, iso), Requests(recorded);
    AtPreorder();
    RequestRowsNumbered(recorded, env, iso);
    RequestsElements(recorded);
    FilterSort(OfRequest(rid), AtLe, Concat(f, rids));
    FilterConcat(f, rids, rid);
    RowsIffFetched(recorded, env, iso, rid);
  }

  /** For all events: the rows of `rid` report the calls that its recorded lines split into, one row each. */
  lemma RowsReportCalls(events: seq<Event>, env: string, iso: nat -> string, rid: Option<string>)
    returns (own: seq<Row>)
    ensures Filter(OfRequest(rid), Paired(events, env, iso)) == Sort(AtLe, own)
    ensures var calls := Split(Group(events, rid));
      |own| == |calls| && forall n | 0 <= n < |own| :: Reports(own[n], env, iso, rid, n + 1, calls[n])
  {
    var calls := Split(Group(events, rid));
    own := RequestRows(Recorded(events), env, iso)(rid);
    RowsOfRequest(events, env, iso, rid);
    SplitShaped(Group(events, rid));
    SplitOpens(Group(events, rid));
    assert own == RowsOf(env, iso, rid, calls);
    forall n | 0 <= n < |own| ensures Reports(own[n], env, iso, rid, n + 1, calls[n]) {
      RowReports(env, iso, rid, n + 1, calls[n]);
    }
  }

  /** Printed timestamps sort as the timestamps do. */
  ghost predicate PrintsInOrder(iso: nat -> string) {
    forall a: nat, b: nat | a <= b :: StrLe(iso(a), iso(b))
  }

  lemma ReportsInOrder(own: seq<Row>, env: string, iso: nat -> string, rid: Option<string>, ss: seq<Solve>)
    requires PrintsInOrder(iso) && Chronological(ss) && |own| == |ss|
    requires forall n | 0 <= n < |own| :: Reports(own[n], env, iso, rid, n + 1, ss[n])
    ensures Sort(AtLe, own) == own
  {
    forall i, j | 0 <= i < j < |own| ensures AtLe(own[i], own[j]) {
      var a, b := ss[i].fetches[0], ss[j].fetches[0];
      assert a in SolveLines(ss[i]) && b in SolveLines(ss[j]);
    }
    SortOfSorted(AtLe, own);
  }

  /**
  For any list of printed calls of a request, interleaved with lines of other requests: the rows of
  the request report exactly these calls, one row each; in the order of the calls, if printed
  timestamps sort as the timestamps do.
  */
  lemma PrintedCallsReported(events: seq<Event>, env: string, iso: nat -> string, rid: Option<string>, ss: seq<Solve>)
    returns (own: seq<Row>)
    requires DistinctBy(KeyOf, events) && Filter(HasRequest(rid), events) == Lines(ss)
    requires Chronological(ss) && forall i | 0 <= i < |ss| :: Printed(ss[i])
    ensures Filter(OfRequest(rid), Paired(events, env, iso)) == Sort(AtLe, own)
    ensures |own| == |ss| && forall n | 0 <= n < |own| :: Reports(own[n], env, iso, rid, n + 1, ss[n])
    ensures PrintsInOrder(iso) ==> Filter(OfRequest(rid), Paired(events, env, iso)) == own
  {
    PairingInvertsPrinting(events, rid, ss);
    own := RowsReportCalls(events, env, iso, rid);
    if PrintsInOrder(iso) {
      ReportsInOrder(own, env, iso, rid, ss);
    }
  }

  // ----- Which lines count as the same

  /** Lines with ids are the same line if the ids agree; without ids, if timestamp and text agree. */
  lemma SameLineIff(a: Event, b: Event)
    ensures HasId(a) && HasId(b) ==> (KeyOf(a) == KeyOf(b) <==> a.id == b.id)
    ensures !HasId(a) && !HasId(b) ==> (KeyOf(a) == KeyOf(b) <==> a.ts == b.ts && a.message == b.message)
  {
    if !HasId(a) && !HasId(b) && KeyOf(a) == KeyOf(b) {
      var s, i, j := KeyOf(a), |Decimal(a.ts)|, |Decimal(b.ts)|;
      assert s[i] == '|' && s[j] == '|';
      assert forall k | 0 <= k < i :: s[k] == Decimal(a.ts)[k] && s[k] in Decimal(a.ts);
      assert forall k | 0 <= k < j :: s[k] == Decimal(b.ts)[k] && s[k] in Decimal(b.ts);
      assert i == j;
      assert s[..i] == Decimal(a.ts) && s[..j] == Decimal(b.ts);
      assert s[i + 1..] == a.message && s[j + 1..] == b.message;
      DecimalInjective(a.ts, b.ts);
    }
  }

  predicate HasId(e: Event) {
    e.id.Some? && e.id.value != ""
  }
}
