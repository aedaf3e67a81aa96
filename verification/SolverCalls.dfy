/**
bin/solver-usage-backfill.py: log lines, pulled in overlapping slices, are deduplicated, put in
order, grouped by request and split back into solver calls; the calls become CSV rows.
*/
module SolverCalls {
  import opened Wrappers
  import opened Sorting
  import opened Text

  /** A decoded log message; the wall times of a diagnostics line are already in milliseconds. */
  datatype Line =
    | Fetch(attempt: Option<int>, status: Option<int>, ms: Option<int>, uptime: Option<int>)
    | Diagnostics(roundTrip: int, pass1Ms: int, pass2Ms: int, verdict: string)
    | Other

  /** `message` is the raw text that `line` was decoded from; `trigger` is `classify_trigger` of the event. */
  datatype Event = Event(
    id: Option<string>, ts: nat, message: string, requestId: Option<string>, trigger: string, line: Line)

  datatype Solve = Solve(fetches: seq<Event>, diag: Option<Event>)

  datatype Row = Row(
    at: string, env: string, callId: string, requestId: Option<string>, trigger: string, attempts: nat,
    httpStatus: Option<int>, roundTrip: Option<int>, uptime: Option<int>,
    pass1Ms: Option<int>, pass2Ms: Option<int>, status: Option<string>)

  // ----- Order, identity and grouping of events

  function Rank(e: Event): nat {
    if e.line.Fetch? then 0 else 1
  }

  predicate Precedes(a: Event, b: Event) {
    a.ts < b.ts || (a.ts == b.ts && Rank(a) <= Rank(b))
  }

  lemma PrecedesPreorder()
    ensures TotalPreorder(Precedes)
  {
  }

  function KeyOf(e: Event): string {
    if e.id.Some? && e.id.value != "" then e.id.value else Decimal(e.ts) + "|" + e.message
  }

  predicate IsFetch(e: Event) {
    e.line.Fetch?
  }

  function HasRequest(rid: Option<string>): Event -> bool {
    (e: Event) => e.requestId == rid
  }

  function Keys(evs: seq<Event>): set<string> {
    set e | e in evs :: KeyOf(e)
  }

  /** The first event of each key. */
  function Deduped(evs: seq<Event>): seq<Event> {
    if evs == [] then [] else
    var before, e := evs[..|evs| - 1], evs[|evs| - 1];
    if KeyOf(e) in Keys(before) then Deduped(before) else Deduped(before) + [e]
  }

  /** Request ids in the order they first occur. */
  function Requests(evs: seq<Event>): seq<Option<string>> {
    if evs == [] then [] else
    var before, rid := Requests(evs[..|evs| - 1]), evs[|evs| - 1].requestId;
    if rid in before then before else before + [rid]
  }

  /** The lines that count: in order, each once. */
  function Recorded(events: seq<Event>): seq<Event> {
    Deduped(Sort(Precedes, events))
  }

  /** The recorded lines of one request. */
  function Group(events: seq<Event>, rid: Option<string>): seq<Event> {
    Filter(HasRequest(rid), Recorded(events))
  }

  // ----- Splitting a request's lines into solver calls

  predicate Opens(calls: seq<Solve>, attempt: Option<int>) {
    attempt == Some(1) || calls == [] || calls[|calls| - 1].diag.Some?
  }

  function SplitStep(calls: seq<Solve>, e: Event): seq<Solve> {
    if e.line.Fetch? then
      var begun := if Opens(calls, e.line.attempt) then calls + [Solve([], None)] else calls;
      var m := |begun| - 1;
      begun[m := Solve(begun[m].fetches + [e], begun[m].diag)]
    else if e.line.Diagnostics? && calls != [] && calls[|calls| - 1].diag.None? then
      var m := |calls| - 1;
      calls[m := Solve(calls[m].fetches, Some(e))]
    else calls
  }

  function Split(evs: seq<Event>): seq<Solve> {
    if evs == [] then [] else SplitStep(Split(evs[..|evs| - 1]), evs[|evs| - 1])
  }

  // ----- Rows

  predicate Opened(calls: seq<Solve>) {
    forall i | 0 <= i < |calls| :: calls[i].fetches != []
  }

  /** How Python prints the request id inside the call id; a missing one prints as `None`. */
  function Shown(rid: Option<string>): string {
    match rid case None => "None" case Some(r) => r
  }

  function CallId(rid: Option<string>, n: nat): string {
    Shown(rid) + "#" + Decimal(n)
  }

  /** `iso` stands for `_iso`, which prints a timestamp. */
  function RowFor(env: string, iso: nat -> string, rid: Option<string>, n: nat, s: Solve): Row
    requires s.fetches != []
  {
    var first, last := s.fetches[0], s.fetches[|s.fetches| - 1];
    var final := if last.line.Fetch? then last.line else Fetch(None, None, None, None);
    var diag := if s.diag.Some? && s.diag.value.line.Diagnostics? then Some(s.diag.value.line) else None;
    Row(iso(first.ts), env, CallId(rid, n), rid, first.trigger, |s.fetches|,
        final.status,
        if diag.Some? then Some(diag.value.roundTrip) else final.ms,
        final.uptime,
        if diag.Some? then Some(diag.value.pass1Ms) else None,
        if diag.Some? then Some(diag.value.pass2Ms) else None,
        if diag.Some? then Some(diag.value.verdict) else if final.status == Some(422) then Some("UNSAT") else None)
  }

  /** The calls of one request, numbered from 1. */
  function RowsOf(env: string, iso: nat -> string, rid: Option<string>, calls: seq<Solve>): seq<Row>
    requires Opened(calls)
  {
    seq(|calls|, n requires 0 <= n < |calls| => RowFor(env, iso, rid, n + 1, calls[n]))
  }

  function RequestRows(recorded: seq<Event>, env: string, iso: nat -> string): Option<string> -> seq<Row> {
    (rid: Option<string>) =>
      var calls := Split(Filter(HasRequest(rid), recorded));
      if Opened(calls) then RowsOf(env, iso, rid, calls) else []
  }

  function Concat<K, R>(f: K -> seq<R>, ks: seq<K>): seq<R> {
    if ks == [] then [] else Concat(f, ks[..|ks| - 1]) + f(ks[|ks| - 1])
  }

  predicate AtLe(a: Row, b: Row) {
    StrLe(a.at, b.at)
  }

  function Paired(events: seq<Event>, env: string, iso: nat -> string): seq<Row> {
    var recorded := Recorded(events);
    Sort(AtLe, Concat(RequestRows(recorded, env, iso), Requests(recorded)))
  }

  // ----- The code

  method SplitCalls(evs: seq<Event>) returns (calls: seq<Solve>)
    ensures calls == Split(evs)
  {
    calls := [];
    for i := 0 to |evs|
      invariant calls == Split(evs[..i])
    {
      var e := evs[i];
      assert evs[..i + 1][..i] == evs[..i];
      if e.line.Fetch? {
        if e.line.attempt == Some(1) || calls == [] || calls[|calls| - 1].diag != None {
          calls := calls + [Solve([], None)];
        }
        var last := calls[|calls| - 1];
        calls := calls[|calls| - 1 := Solve(last.fetches + [e], last.diag)];
      } else if e.line.Diagnostics? && calls != [] && calls[|calls| - 1].diag == None {
        calls := calls[|calls| - 1 := Solve(calls[|calls| - 1].fetches, Some(e))];
      }
    }
    assert evs[..|evs|] == evs;
  }

  type Groups = map<Option<string>, seq<Event>>

  /** The dictionary built so far holds each request's lines, under its keys in insertion order. */
  ghost predicate Grouped(groups: Groups, order: seq<Option<string>>, evs: seq<Event>) {
    && order == Requests(evs)
    && (forall rid :: rid in groups <==> rid in order)
    && (forall rid | rid in groups :: groups[rid] == Filter(HasRequest(rid), evs))
  }

  lemma GroupedStep(groups: Groups, order: seq<Option<string>>, evs: seq<Event>, e: Event)
    requires Grouped(groups, order, evs)
    ensures var rid := e.requestId;
      if rid in groups then Grouped(groups[rid := groups[rid] + [e]], order, evs + [e])
      else Grouped(groups[rid := [e]], order + [rid], evs + [e])
  {
    assert (evs + [e])[..|evs|] == evs;
    forall rid ensures Filter(HasRequest(rid), evs + [e]) ==
      Filter(HasRequest(rid), evs) + if rid == e.requestId then [e] else []
    {
      FilterAppend(HasRequest(rid), evs, [e]);
    }
    if e.requestId !in groups {
      NoneOfRequest(evs, e.requestId);
    }
  }

  lemma DedupedStep(before: seq<Event>, e: Event)
    ensures Deduped(before + [e]) == if KeyOf(e) in Keys(before) then Deduped(before) else Deduped(before) + [e]
    ensures Keys(before + [e]) == Keys(before) + {KeyOf(e)}
  {
    assert (before + [e])[..|before|] == before;
  }

  method AddToGroup(groups: Groups, order: seq<Option<string>>, e: Event, ghost evs: seq<Event>)
    returns (groups': Groups, order': seq<Option<string>>)
    requires Grouped(groups, order, evs)
    ensures Grouped(groups', order', evs + [e])
  {
    GroupedStep(groups, order, evs, e);
    if e.requestId !in groups {
      return groups[e.requestId := [e]], order + [e.requestId];
    }
    return groups[e.requestId := groups[e.requestId] + [e]], order;
  }

  method GroupEvents(events: seq<Event>) returns (groups: Groups, order: seq<Option<string>>)
    ensures Grouped(groups, order, Recorded(events))
  {
    var seen: set<string> := {};
    groups, order := map[], [];
    var sorted := Sort(Precedes, events);
    for i := 0 to |sorted|
      invariant seen == Keys(sorted[..i])
      invariant Grouped(groups, order, Deduped(sorted[..i]))
    {
      var e := sorted[i];
      assert sorted[..i + 1] == sorted[..i] + [e];
      DedupedStep(sorted[..i], e);
      if KeyOf(e) in seen {
        continue;
      }
      seen := seen + {KeyOf(e)};
      groups, order := AddToGroup(groups, order, e, Deduped(sorted[..i]));
    }
    assert sorted[..|sorted|] == sorted;
  }

  method CallRows(env: string, iso: nat -> string, rid: Option<string>, calls: seq<Solve>) returns (rows: seq<Row>)
    requires Opened(calls)
    ensures rows == RowsOf(env, iso, rid, calls)
  {
    rows := [];
    for n := 0 to |calls|
      invariant |rows| == n
      invariant forall j | 0 <= j < n :: rows[j] == RowFor(env, iso, rid, j + 1, calls[j])
    {
      rows := rows + [RowFor(env, iso, rid, n + 1, calls[n])];
    }
  }

  method GroupRows(env: string, iso: nat -> string, rid: Option<string>, evs: seq<Event>, ghost recorded: seq<Event>)
    returns (rows: seq<Row>)
    requires evs == Filter(HasRequest(rid), recorded)
    ensures rows == RequestRows(recorded, env, iso)(rid)
  {
    var calls := SplitCalls(evs);
    SplitOpens(evs);
    rows := CallRows(env, iso, rid, calls);
  }

  lemma ConcatStep<K, R>(f: K -> seq<R>, ks: seq<K>, k: nat)
    requires k < |ks|
    ensures Concat(f, ks[..k + 1]) == Concat(f, ks[..k]) + f(ks[k])
  {
    assert ks[..k + 1][..k] == ks[..k];
  }

  lemma GroupsThere(groups: Groups, order: seq<Option<string>>, recorded: seq<Event>)
    requires Grouped(groups, order, recorded)
    ensures order == Requests(recorded)
    ensures forall k | 0 <= k < |order| ::
      order[k] in groups && groups[order[k]] == Filter(HasRequest(order[k]), recorded)
  {
  }

  method PairEvents(events: seq<Event>, env: string, iso: nat -> string) returns (rows: seq<Row>)
    ensures rows == Paired(events, env, iso)
  {
    var groups, order := GroupEvents(events);
    rows := [];
    ghost var recorded := Recorded(events);
    ghost var f := RequestRows(recorded, env, iso);
    GroupsThere(groups, order, recorded);
    for k := 0 to |order|
      invariant rows == Concat(f, order[..k])
    {
      var own := GroupRows(env, iso, order[k], groups[order[k]], recorded);
      rows := rows + own;
      ConcatStep(f, order, k);
    }
    assert order[..|order|] == order;
    rows := Sort(AtLe, rows);
  }

  lemma {:induction false} NoneOfRequest(evs: seq<Event>, rid: Option<string>)
    requires rid !in Requests(evs)
    ensures Filter(HasRequest(rid), evs) == []
  {
    if evs != [] {
      var m := |evs| - 1;
      NoneOfRequest(evs[..m], rid);
      FilterAppend(HasRequest(rid), evs[..m], [evs[m]]);
      assert evs == evs[..m] + [evs[m]];
    }
  }

  // ----- Splitting and printing are inverse

  /** The log lines of one call, as printed. */
  function SolveLines(s: Solve): seq<Event> {
    s.fetches + match s.diag case None => [] case Some(d) => [d]
  }

  function Lines(ss: seq<Solve>): seq<Event> {
    if ss == [] then [] else Lines(ss[..|ss| - 1]) + SolveLines(ss[|ss| - 1])
  }

  /** What one call may look like: only its first fetch may be attempt 1. */
  ghost predicate ShapedSolve(s: Solve) {
    && s.fetches != []
    && (forall k | 0 <= k < |s.fetches| :: s.fetches[k].line.Fetch?)
    && (forall k | 1 <= k < |s.fetches| :: s.fetches[k].line.attempt != Some(1))
    && (s.diag.Some? ==> s.diag.value.line.Diagnostics?)
  }

  /** A new call begins with attempt 1, or where the previous call was closed, or at the start. */
  ghost predicate Shaped(ss: seq<Solve>) {
    && (forall i | 0 <= i < |ss| :: ShapedSolve(ss[i]))
    && (forall i | 1 <= i < |ss| :: ss[i - 1].diag.Some? || ss[i].fetches[0].line.attempt == Some(1))
  }

  lemma {:induction false} SplitShaped(evs: seq<Event>)
    ensures Shaped(Split(evs))
  {
    if evs != [] {
      SplitShaped(evs[..|evs| - 1]);
    }
  }

  lemma SplitOpens(evs: seq<Event>)
    ensures Opened(Split(evs))
  {
    SplitShaped(evs);
  }

  lemma SplitMore(before: seq<Event>, e: Event)
    ensures Split(before + [e]) == SplitStep(Split(before), e)
  {
    assert (before + [e])[..|before|] == before;
  }

  lemma StepOpens(calls: seq<Solve>, e: Event)
    requires e.line.Fetch? && Opens(calls, e.line.attempt)
    ensures SplitStep(calls, e) == calls + [Solve([e], None)]
  {
    assert [] + [e] == [e];
  }

  lemma StepContinues(calls: seq<Solve>, fetches: seq<Event>, e: Event)
    requires e.line.Fetch? && e.line.attempt != Some(1)
    ensures SplitStep(calls + [Solve(fetches, None)], e) == calls + [Solve(fetches + [e], None)]
  {
  }

  lemma StepCloses(calls: seq<Solve>, fetches: seq<Event>, d: Event)
    requires d.line.Diagnostics?
    ensures SplitStep(calls + [Solve(fetches, None)], d) == calls + [Solve(fetches, Some(d))]
  {
  }

  /** Fetch lines following `before` up to the `k`-th build up one call. */
  lemma {:induction false} SplitFetches(before: seq<Event>, s: Solve, k: nat)
    requires ShapedSolve(s) && 1 <= k <= |s.fetches|
    requires Opens(Split(before), s.fetches[0].line.attempt)
    ensures Split(before + s.fetches[..k]) == Split(before) + [Solve(s.fetches[..k], None)]
  {
    var calls, done, e := Split(before), s.fetches[..k - 1], s.fetches[k - 1];
    assert s.fetches[..k] == done + [e];
    assert before + s.fetches[..k] == before + done + [e];
    SplitMore(before + done, e);
    if k == 1 {
      assert before + done == before && s.fetches[..1] == [e];
      StepOpens(calls, e);
    } else {
      SplitFetches(before, s, k - 1);
      StepContinues(calls, done, e);
    }
  }

  lemma SplitOneMore(before: seq<Event>, s: Solve)
    requires ShapedSolve(s) && Opens(Split(before), s.fetches[0].line.attempt)
    ensures Split(before + SolveLines(s)) == Split(before) + [s]
  {
    SplitFetches(before, s, |s.fetches|);
    assert s.fetches[..|s.fetches|] == s.fetches;
    if s.diag.Some? {
      var d := s.diag.value;
      assert before + SolveLines(s) == before + s.fetches + [d];
      SplitMore(before + s.fetches, d);
      StepCloses(Split(before), s.fetches, d);
    } else {
      assert SolveLines(s) == s.fetches;
    }
  }

  lemma {:induction false} SplitOfLines(ss: seq<Solve>)
    requires Shaped(ss)
    ensures Split(Lines(ss)) == ss
  {
    if ss != [] {
      var m := |ss| - 1;
      SplitOfLines(ss[..m]);
      if m > 0 {
        assert ss[m - 1].diag.Some? || ss[m].fetches[0].line.attempt == Some(1);
      }
      SplitOneMore(Lines(ss[..m]), ss[m]);
      assert ss == ss[..m] + [ss[m]];
    }
  }

  /** Every fetch line lands in exactly one call, and order is kept. */
  lemma {:induction false} SplitConserves(evs: seq<Event>)
    ensures Filter(IsFetch, Lines(Split(evs))) == Filter(IsFetch, evs)
    ensures forall e | e in Lines(Split(evs)) :: e in evs
  {
    if evs != [] {
      var before, e := evs[..|evs| - 1], evs[|evs| - 1];
      SplitConserves(before);
      var calls := Split(before);
      assert evs == before + [e];
      FilterAppend(IsFetch, before, [e]);
      LinesStep(calls, e);
      FilterAppend(IsFetch, Lines(calls), [e]);
    }
  }

  /** A line is added at the end of the last call, or begins a new one, or is dropped. */
  lemma LinesStep(calls: seq<Solve>, e: Event)
    ensures Lines(SplitStep(calls, e)) == Lines(calls) + [e] || (!IsFetch(e) && SplitStep(calls, e) == calls)
  {
    var after := SplitStep(calls, e);
    if e.line.Fetch? && Opens(calls, e.line.attempt) {
      assert after[..|after| - 1] == calls;
      assert SolveLines(Solve([] + [e], None)) == [e];
    } else if after != calls {
      var m := |calls| - 1;
      assert after[..m] == calls[..m];
      assert Lines(calls) == Lines(calls[..m]) + SolveLines(calls[m]);
      assert SolveLines(after[m]) == SolveLines(calls[m]) + [e];
    }
  }
}
