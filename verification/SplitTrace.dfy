/**
Which log lines become part of a call in bin/solver-usage-backfill.py, told from the lines alone; and
that this, with the shape of calls, leaves only one way to split a request's lines.
*/
module SplitTrace {
  import opened Wrappers
  import opened Sorting
  import opened SolverCalls
  import opened SolverCallLaws

  /** A fetch line has not been followed by a diagnostics line yet. */
  ghost predicate Open(evs: seq<Event>) {
    exists j :: 0 <= j < |evs| && evs[j].line.Fetch? && forall k | j < k < |evs| :: !evs[k].line.Diagnostics?
  }

  /** Fetch lines count, and the first diagnostics line after a fetch line; nothing else does. */
  ghost predicate Counts(before: seq<Event>, e: Event) {
    e.line.Fetch? || (e.line.Diagnostics? && Open(before))
  }

  ghost function Counted(evs: seq<Event>): seq<Event> {
    if evs == [] then []
    else
      var before, e := evs[..|evs| - 1], evs[|evs| - 1];
      Counted(before) + if Counts(before, e) then [e] else []
  }

  lemma OpenStep(before: seq<Event>, e: Event)
    ensures Open(before + [e]) <==> e.line.Fetch? || (Open(before) && !e.line.Diagnostics?)
  {
    var evs := before + [e];
    assert evs[|before|] == e;
    assert forall i | 0 <= i < |before| :: evs[i] == before[i];
    if Open(before) && !e.line.Diagnostics? {
      var j :| 0 <= j < |before| && before[j].line.Fetch?
               && forall k | j < k < |before| :: !before[k].line.Diagnostics?;
      assert evs[j].line.Fetch?;
    }
    if Open(evs) {
      var j :| 0 <= j < |evs| && evs[j].line.Fetch? && forall k | j < k < |evs| :: !evs[k].line.Diagnostics?;
      if j < |before| {
        assert before[j].line.Fetch?;
        assert !evs[|before|].line.Diagnostics?;
      }
    }
  }

  predicate LastOpen(calls: seq<Solve>) {
    calls != [] && calls[|calls| - 1].diag.None?
  }

  lemma StepLines(calls: seq<Solve>, e: Event)
    ensures var counts := e.line.Fetch? || (e.line.Diagnostics? && LastOpen(calls));
      Lines(SplitStep(calls, e)) == Lines(calls) + if counts then [e] else []
    ensures LastOpen(SplitStep(calls, e)) <==> e.line.Fetch? || (LastOpen(calls) && !e.line.Diagnostics?)
  {
    LinesStep(calls, e);
    StepOpen(calls, e);
    if !e.line.Fetch? && !(e.line.Diagnostics? && LastOpen(calls)) {
      assert SplitStep(calls, e) == calls && Lines(calls) + [] == Lines(calls);
    } else if e.line.Diagnostics? {
      DiagnosticsClose(calls, e);
    }
  }

  lemma StepOpen(calls: seq<Solve>, e: Event)
    ensures LastOpen(SplitStep(calls, e)) <==> e.line.Fetch? || (LastOpen(calls) && !e.line.Diagnostics?)
  {
  }

  lemma DiagnosticsClose(calls: seq<Solve>, e: Event)
    requires e.line.Diagnostics? && LastOpen(calls)
    ensures SplitStep(calls, e) != calls
  {
    var m := |calls| - 1;
    assert SplitStep(calls, e)[m].diag.Some? && calls[m].diag.None?;
  }

  /** The lines of the calls are exactly the lines that count, in order. */
  lemma {:induction false} SplitKeeps(evs: seq<Event>)
    ensures Lines(Split(evs)) == Counted(evs)
    ensures LastOpen(Split(evs)) <==> Open(evs)
  {
    if evs != [] {
      var before, e := evs[..|evs| - 1], evs[|evs| - 1];
      assert evs == before + [e];
      SplitKeeps(before);
      SplitMore(before, e);
      StepLines(Split(before), e);
      OpenStep(before, e);
    }
  }

  /** The split is the only list of well-shaped calls whose lines are those that count. */
  lemma SplitDetermined(evs: seq<Event>, ss: seq<Solve>)
    requires Shaped(ss) && Lines(ss) == Counted(evs)
    ensures Split(evs) == ss
  {
    SplitKeeps(evs);
    SplitShaped(evs);
    SplitOfLines(ss);
    SplitOfLines(Split(evs));
  }

  // ----- Which delivery of a line counts

  /** No earlier line has this one's key. */
  ghost predicate First(evs: seq<Event>, i: nat)
    requires i < |evs|
  {
    forall j | 0 <= j < i :: KeyOf(evs[j]) != KeyOf(evs[i])
  }

  /** Of lines with the same key, the first counts. */
  lemma {:induction false} DedupedAreFirst(evs: seq<Event>, e: Event)
    ensures e in Deduped(evs) <==> exists i :: 0 <= i < |evs| && evs[i] == e && First(evs, i)
  {
    if evs != [] {
      var before, last := evs[..|evs| - 1], evs[|evs| - 1];
      assert evs == before + [last];
      DedupedAreFirst(before, e);
      DedupedStep(before, last);
      forall i | 0 <= i < |before| ensures First(before, i) <==> First(evs, i) {
        assert forall j | 0 <= j <= i :: before[j] == evs[j];
      }
      LastIsFirst(before, last);
      if i :| 0 <= i < |before| && before[i] == e && First(before, i) {
        assert evs[i] == e && First(evs, i);
      }
      if i :| 0 <= i < |evs| && evs[i] == e && First(evs, i) {
        if i < |before| {
          assert before[i] == e;
        }
      }
    }
  }

  lemma LastIsFirst(before: seq<Event>, last: Event)
    ensures First(before + [last], |before|) <==> KeyOf(last) !in Keys(before)
  {
    var evs := before + [last];
    assert forall j | 0 <= j < |before| :: evs[j] == before[j];
    if KeyOf(last) in Keys(before) {
      var x :| x in before && KeyOf(x) == KeyOf(last);
      var j :| 0 <= j < |before| && before[j] == x;
      assert KeyOf(evs[j]) == KeyOf(evs[|before|]);
    }
  }
}
