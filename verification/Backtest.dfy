/**
The container simulator of bin/container-backtest.py: one serial server that boots on
the first call after it has gone to sleep, and is billed from boot to sleep.
*/
module Backtest {
  import opened Wrappers
  import opened Sorting

  datatype Call = Call(t: real, trigger: string, env: Option<string>, service: real)

  datatype Served = Served(call: Call, cold: bool, latency: real)

  datatype Report = Report(
    calls: seq<Served>, n: nat, cold: nat, nAll: nat, coldAll: nat,
    billed: real, intervals: nat, apiLatency: seq<real>)

  /** What one run is configured with. */
  datatype Config = Config(sleepAfter: real, boot: real)

  /** A stretch of time the instance is billed for. */
  datatype Span = Span(start: real, end: real)

  predicate Earlier(a: Call, b: Call) {
    a.t <= b.t
  }

  predicate ProdEnv(env: Option<string>) {
    env == None || env == Some("prod")
  }

  predicate IsProd(c: Call) {
    ProdEnv(c.env)
  }

  predicate IsProdServed(s: Served) { IsProd(s.call) }

  predicate IsColdServed(s: Served) { s.cold }

  predicate IsApiServed(s: Served) { s.call.trigger == "api" }

  function Max(a: real, b: real): real { if a < b then b else a }

  function Min(a: real, b: real): real { if a < b then a else b }

  function Sum(xs: seq<real>): real {
    if xs == [] then 0.0 else Sum(xs[..|xs| - 1]) + xs[|xs| - 1]
  }

  function Latencies(xs: seq<Served>): seq<real> {
    seq(|xs|, i requires 0 <= i < |xs| => xs[i].latency)
  }

  // ----- Reference definitions: finish times alone decide everything

  /** Call `i` finds the instance asleep. */
  predicate IsCold(cs: seq<Call>, k: Config, i: nat)
    requires i < |cs|
    decreases i, 0
  {
    i == 0 || cs[i].t > Finish(cs, k, i - 1) + k.sleepAfter
  }

  /** When call `i` is done. */
  function Finish(cs: seq<Call>, k: Config, i: nat): real
    requires i < |cs|
    decreases i, 1
  {
    (if IsCold(cs, k, i) then cs[i].t + k.boot else Max(cs[i].t, Finish(cs, k, i - 1))) + cs[i].service
  }

  /** When service of call `i` begins, after any boot and any queue. */
  function Start(cs: seq<Call>, k: Config, i: nat): real
    requires i < |cs|
  {
    Finish(cs, k, i) - cs[i].service
  }

  /** Cold starts among the first `n` calls. */
  function ColdCount(cs: seq<Call>, k: Config, n: nat): nat
    requires n <= |cs|
  {
    if n == 0 then 0 else ColdCount(cs, k, n - 1) + if IsCold(cs, k, n - 1) then 1 else 0
  }

  /** Cold starts of prod calls among the first `n` calls. */
  function ProdCold(cs: seq<Call>, k: Config, n: nat): nat
    requires n <= |cs|
  {
    if n == 0 then 0
    else ProdCold(cs, k, n - 1) + if IsCold(cs, k, n - 1) && IsProd(cs[n - 1]) then 1 else 0
  }

  /** The finish of call `i` on an instance that never sleeps. */
  function AlwaysOn(cs: seq<Call>, i: nat): real
    requires i < |cs|
  {
    (if i == 0 then cs[0].t else Max(cs[i].t, AlwaysOn(cs, i - 1))) + cs[i].service
  }

  /** Service time of calls `j` to `i`, both included. */
  function Work(cs: seq<Call>, j: nat, i: nat): real
    requires j <= i < |cs|
  {
    if j == i then cs[i].service else Work(cs, j, i - 1) + cs[i].service
  }

  /** Paid idle time before calls 1 to `n - 1`: the gap, but never more than the sleep timer. */
  function PaidIdle(cs: seq<Call>, k: Config, n: nat): real
    requires 1 <= n <= |cs|
  {
    if n == 1 then 0.0
    else PaidIdle(cs, k, n - 1) + Min(Max(0.0, cs[n - 1].t - Finish(cs, k, n - 2)), k.sleepAfter)
  }

  /** The billed spans after `n` calls, the last one ending when the instance would fall asleep. */
  function Spans(cs: seq<Call>, k: Config, n: nat): (spans: seq<Span>)
    requires n <= |cs|
    ensures |spans| == ColdCount(cs, k, n)
    ensures n > 0 ==> spans != [] && spans[|spans| - 1].end == Finish(cs, k, n - 1) + k.sleepAfter
  {
    if n == 0 then [] else
    var before := Spans(cs, k, n - 1);
    var end := Finish(cs, k, n - 1) + k.sleepAfter;
    if IsCold(cs, k, n - 1) then before + [Span(cs[n - 1].t, end)]
    else before[..|before| - 1] + [Span(before[|before| - 1].start, end)]
  }

  function Lengths(spans: seq<Span>): seq<real> {
    seq(|spans|, i requires 0 <= i < |spans| => spans[i].end - spans[i].start)
  }

  ghost predicate NonNegative(cs: seq<Call>) {
    forall i | 0 <= i < |cs| :: cs[i].service >= 0.0
  }

  ghost predicate Plausible(k: Config) {
    k.sleepAfter >= 0.0 && k.boot >= 0.0
  }

  lemma FinishStep(cs: seq<Call>, k: Config, i: nat)
    requires 0 < i < |cs|
    ensures IsCold(cs, k, i) <==> cs[i].t > Finish(cs, k, i - 1) + k.sleepAfter
    ensures Finish(cs, k, i) == cs[i].service +
      if IsCold(cs, k, i) then cs[i].t + k.boot else Max(cs[i].t, Finish(cs, k, i - 1))
  {
  }

  lemma SpansStep(cs: seq<Call>, k: Config, n: nat)
    requires 1 < n <= |cs|
    ensures var before, end := Spans(cs, k, n - 1), Finish(cs, k, n - 1) + k.sleepAfter;
      Spans(cs, k, n) ==
        if IsCold(cs, k, n - 1) then before + [Span(cs[n - 1].t, end)]
        else before[..|before| - 1] + [Span(before[|before| - 1].start, end)]
  {
  }

  lemma LengthsLast(spans: seq<Span>)
    requires spans != []
    ensures var m := |spans| - 1;
      Lengths(spans) == Lengths(spans[..m]) + [spans[m].end - spans[m].start]
  {
  }

  // ----- The simulator

  /** What the simulator's variables hold after call `n - 1`. */
  ghost predicate Tracks(cs: seq<Call>, k: Config, n: nat,
                         upStart: Option<real>, busyUntil: real, sleepAt: Option<real>, intervals: seq<real>)
    requires n <= |cs|
  {
    if n == 0 then upStart == None && sleepAt == None && intervals == []
    else
      var spans := Spans(cs, k, n);
      && busyUntil == Finish(cs, k, n - 1)
      && sleepAt == Some(busyUntil + k.sleepAfter)
      && upStart == Some(spans[|spans| - 1].start)
      && intervals == Lengths(spans[..|spans| - 1])
  }

  lemma TracksWarm(cs: seq<Call>, k: Config, n: nat, up: real, busy: real, intervals: seq<real>)
    requires n < |cs| && Tracks(cs, k, n, Some(up), busy, Some(busy + k.sleepAfter), intervals)
    requires cs[n].t <= busy + k.sleepAfter
    ensures var finish := Max(cs[n].t, busy) + cs[n].service;
      && !IsCold(cs, k, n) && finish == Finish(cs, k, n)
      && Tracks(cs, k, n + 1, Some(up), finish, Some(finish + k.sleepAfter), intervals)
  {
    FinishStep(cs, k, n);
    SpansStep(cs, k, n + 1);
    var before, after := Spans(cs, k, n), Spans(cs, k, n + 1);
    assert after[..|after| - 1] == before[..|before| - 1];
  }

  lemma TracksFirst(cs: seq<Call>, k: Config)
    requires cs != []
    ensures var finish := cs[0].t + k.boot + cs[0].service;
      && IsCold(cs, k, 0) && finish == Finish(cs, k, 0)
      && Tracks(cs, k, 1, Some(cs[0].t), finish, Some(finish + k.sleepAfter), [])
  {
    SpansFirst(cs, k);
    assert Spans(cs, k, 1)[..0] == [];
  }

  lemma SpansFirst(cs: seq<Call>, k: Config)
    requires cs != []
    ensures Finish(cs, k, 0) == cs[0].t + k.boot + cs[0].service
    ensures Spans(cs, k, 1) == [Span(cs[0].t, Finish(cs, k, 0) + k.sleepAfter)]
  {
    assert Spans(cs, k, 0) == [];
  }

  lemma TracksCold(cs: seq<Call>, k: Config, n: nat, up: real, busy: real, intervals: seq<real>)
    requires 0 < n < |cs| && Tracks(cs, k, n, Some(up), busy, Some(busy + k.sleepAfter), intervals)
    requires cs[n].t > busy + k.sleepAfter
    ensures var finish := cs[n].t + k.boot + cs[n].service;
      && IsCold(cs, k, n) && finish == Finish(cs, k, n)
      && Tracks(cs, k, n + 1, Some(cs[n].t), finish, Some(finish + k.sleepAfter),
                intervals + [busy + k.sleepAfter - up])
  {
    ColdStep(cs, k, n);
    var before, last := Spans(cs, k, n), Span(cs[n].t, Finish(cs, k, n) + k.sleepAfter);
    ClosesLast(before, last, up, busy + k.sleepAfter, intervals);
  }

  lemma ColdStep(cs: seq<Call>, k: Config, n: nat)
    requires 0 < n < |cs| && cs[n].t > Finish(cs, k, n - 1) + k.sleepAfter
    ensures IsCold(cs, k, n) && Finish(cs, k, n) == cs[n].t + k.boot + cs[n].service
    ensures Spans(cs, k, n + 1) == Spans(cs, k, n) + [Span(cs[n].t, Finish(cs, k, n) + k.sleepAfter)]
  {
    FinishStep(cs, k, n);
    SpansStep(cs, k, n + 1);
  }

  lemma ClosesLast(before: seq<Span>, last: Span, up: real, end: real, intervals: seq<real>)
    requires before != [] && before[|before| - 1] == Span(up, end)
    requires intervals == Lengths(before[..|before| - 1])
    ensures var after := before + [last];
      after[|after| - 1] == last && Lengths(after[..|after| - 1]) == intervals + [end - up]
  {
    assert (before + [last])[..|before|] == before;
    LengthsLast(before);
  }

  /** The first `n` calls have been served as the reference definitions say. */
  ghost predicate ServedAs(cs: seq<Call>, k: Config, out: seq<Served>)
    requires |out| <= |cs|
  {
    forall j | 0 <= j < |out| :: out[j] == Served(cs[j], IsCold(cs, k, j), Finish(cs, k, j) - cs[j].t)
  }

  /** The interval still open at the end is closed at the time of falling asleep. */
  lemma TracksEnd(cs: seq<Call>, k: Config, up: Option<real>, busy: real, asleep: Option<real>, intervals: seq<real>)
    requires Tracks(cs, k, |cs|, up, busy, asleep, intervals)
    ensures up.Some? <==> asleep.Some?
    ensures Lengths(Spans(cs, k, |cs|)) == if up.Some? then intervals + [asleep.value - up.value] else intervals
  {
    if cs != [] {
      LengthsLast(Spans(cs, k, |cs|));
    }
  }

  /** Serves one call: from the variables after `i` calls to the variables after one more. */
  method ServeOne(c: Call, sleepAfter: real, boot: real, upStart: Option<real>, busyUntil: real, sleepAt: Option<real>,
                  intervals: seq<real>, ghost cs: seq<Call>, ghost i: nat)
    returns (cold: bool, finish: real, up: Option<real>, closed: seq<real>)
    requires i < |cs| && c == cs[i] && Tracks(cs, Config(sleepAfter, boot), i, upStart, busyUntil, sleepAt, intervals)
    ensures var k := Config(sleepAfter, boot);
      && cold == IsCold(cs, k, i) && finish == Finish(cs, k, i)
      && Tracks(cs, k, i + 1, up, finish, Some(finish + sleepAfter), closed)
  {
    ghost var k := Config(sleepAfter, boot);
    if sleepAt.Some? && c.t <= sleepAt.value {
      TracksWarm(cs, k, i, upStart.value, busyUntil, intervals);
      cold, up, closed := false, upStart, intervals;
      var start := Max(c.t, busyUntil);
      finish := start + c.service;
    } else {
      if upStart.Some? {
        TracksCold(cs, k, i, upStart.value, busyUntil, intervals);
        closed := intervals + [sleepAt.value - upStart.value];
      } else {
        TracksFirst(cs, k);
        closed := intervals;
      }
      cold, up := true, Some(c.t);
      var start := c.t + boot;
      finish := start + c.service;
    }
  }

  /** The loop: serves the calls in order and closes a billed interval at each new cold start. */
  method Serve(cs: seq<Call>, sleepAfter: real, boot: real) returns (out: seq<Served>, intervals: seq<real>)
    ensures var k := Config(sleepAfter, boot);
      |out| == |cs| && ServedAs(cs, k, out) && intervals == Lengths(Spans(cs, k, |cs|))
  {
    out, intervals := [], [];
    var upStart: Option<real>, busyUntil, sleepAt: Option<real> := None, 0.0, None;
    ghost var k := Config(sleepAfter, boot);
    for i := 0 to |cs|
      invariant |out| == i && ServedAs(cs, k, out)
      invariant Tracks(cs, k, i, upStart, busyUntil, sleepAt, intervals)
    {
      var cold, finish;
      cold, finish, upStart, intervals :=
        ServeOne(cs[i], sleepAfter, boot, upStart, busyUntil, sleepAt, intervals, cs, i);
      busyUntil := finish;
      sleepAt := Some(finish + sleepAfter);
      ServedStep(cs, k, out, Served(cs[i], cold, finish - cs[i].t));
      out := out + [Served(cs[i], cold, finish - cs[i].t)];
    }
    TracksEnd(cs, k, upStart, busyUntil, sleepAt, intervals);
    if upStart.Some? {
      intervals := intervals + [sleepAt.value - upStart.value];
    }
  }

  method Simulate(calls: seq<Call>, sleepAfter: real, boot: real) returns (r: Report)
    ensures var cs, k := Sort(Earlier, calls), Config(sleepAfter, boot);
      && |r.calls| == r.nAll == |cs| == |calls|
      && ServedAs(cs, k, r.calls)
      && r.n == |Filter(IsProd, cs)|
      && r.cold == ProdCold(cs, k, |cs|)
      && r.coldAll == r.intervals == ColdCount(cs, k, |cs|)
      && r.billed == Sum(Lengths(Spans(cs, k, |cs|)))
      && r.apiLatency == ApiLatency(cs, k, |cs|)
    ensures multiset(Sort(Earlier, calls)) == multiset(calls)
    ensures forall i, j | 0 <= i < j < |r.calls| :: r.calls[i].call.t <= r.calls[j].call.t
  {
    var cs := Sort(Earlier, calls);
    SortPermutes(Earlier, calls);
    SortSorts(Earlier, calls);
    var out, intervals := Serve(cs, sleepAfter, boot);
    AllCountsAgree(cs, Config(sleepAfter, boot), out);
    AllLatenciesAgree(cs, Config(sleepAfter, boot), out);
    assert forall i | 0 <= i < |out| :: out[i].call == cs[i];
    var prod := Filter(IsProdServed, out);
    r := Report(out, |prod|, |Filter(IsColdServed, prod)|, |out|, |Filter(IsColdServed, out)|,
                Sum(intervals), |intervals|, Latencies(Filter(IsApiServed, prod)));
  }

  /** From arrival to finish, for the `api` calls of prod, which is also where a call without environment belongs. */
  function ApiLatency(cs: seq<Call>, k: Config, n: nat): seq<real>
    requires n <= |cs|
  {
    if n == 0 then []
    else
      var c := cs[n - 1];
      ApiLatency(cs, k, n - 1) +
      if (c.env == None || c.env == Some("prod")) && c.trigger == "api" then [Finish(cs, k, n - 1) - c.t] else []
  }

  lemma LatenciesAppend(xs: seq<Served>, ys: seq<Served>)
    ensures Latencies(xs + ys) == Latencies(xs) + Latencies(ys)
  {
  }

  function ApiLatencies(xs: seq<Served>): seq<real> {
    Latencies(Filter(IsApiServed, Filter(IsProdServed, xs)))
  }

  lemma ApiLatenciesAppend(xs: seq<Served>, ys: seq<Served>)
    ensures ApiLatencies(xs + ys) == ApiLatencies(xs) + ApiLatencies(ys)
  {
    FilterAppend(IsProdServed, xs, ys);
    FilterAppend(IsApiServed, Filter(IsProdServed, xs), Filter(IsProdServed, ys));
    LatenciesAppend(Filter(IsApiServed, Filter(IsProdServed, xs)), Filter(IsApiServed, Filter(IsProdServed, ys)));
  }

  lemma ApiLatencyOne(s: Served)
    ensures ApiLatencies([s]) ==
      if (s.call.env == None || s.call.env == Some("prod")) && s.call.trigger == "api" then [s.latency] else []
  {
    assert Filter(IsProdServed, [s]) == if IsProdServed(s) then [s] else [];
    assert Filter(IsApiServed, [s]) == if IsApiServed(s) then [s] else [];
  }

  lemma {:induction false} LatenciesAgree(cs: seq<Call>, k: Config, out: seq<Served>, n: nat)
    requires n <= |cs| == |out| && ServedAs(cs, k, out)
    ensures ApiLatencies(out[..n]) == ApiLatency(cs, k, n)
  {
    if n > 0 {
      LatenciesAgree(cs, k, out, n - 1);
      assert out[..n] == out[..n - 1] + [out[n - 1]];
      ApiLatenciesAppend(out[..n - 1], [out[n - 1]]);
      ApiLatencyOne(out[n - 1]);
      assert out[n - 1] == Served(cs[n - 1], IsCold(cs, k, n - 1), Finish(cs, k, n - 1) - cs[n - 1].t);
    }
  }

  lemma AllLatenciesAgree(cs: seq<Call>, k: Config, out: seq<Served>)
    requires |cs| == |out| && ServedAs(cs, k, out)
    ensures ApiLatencies(out) == ApiLatency(cs, k, |cs|)
  {
    LatenciesAgree(cs, k, out, |cs|);
    assert out[..|cs|] == out;
  }

  lemma ServedStep(cs: seq<Call>, k: Config, out: seq<Served>, s: Served)
    requires |out| < |cs| && ServedAs(cs, k, out)
    requires s == Served(cs[|out|], IsCold(cs, k, |out|), Finish(cs, k, |out|) - cs[|out|].t)
    ensures ServedAs(cs, k, out + [s])
  {
  }

  lemma AllCountsAgree(cs: seq<Call>, k: Config, out: seq<Served>)
    requires |cs| == |out| && ServedAs(cs, k, out)
    ensures |Filter(IsColdServed, out)| == ColdCount(cs, k, |cs|)
    ensures |Filter(IsProdServed, out)| == |Filter(IsProd, cs)|
    ensures |Filter(IsColdServed, Filter(IsProdServed, out))| == ProdCold(cs, k, |cs|)
  {
    CountsAgree(cs, k, out, |cs|);
    assert out[..|cs|] == out && cs[..|cs|] == cs;
  }

  /** The counts read off the served calls are the counts of the reference definitions. */
  lemma {:induction false} CountsAgree(cs: seq<Call>, k: Config, out: seq<Served>, n: nat)
    requires n <= |cs| == |out|
    requires ServedAs(cs, k, out)
    ensures |Filter(IsColdServed, out[..n])| == ColdCount(cs, k, n)
    ensures |Filter(IsProdServed, out[..n])| == |Filter(IsProd, cs[..n])|
    ensures |Filter(IsColdServed, Filter(IsProdServed, out[..n]))| == ProdCold(cs, k, n)
  {
    if n > 0 {
      CountsAgree(cs, k, out, n - 1);
      assert out[..n] == out[..n - 1] + [out[n - 1]] && cs[..n] == cs[..n - 1] + [cs[n - 1]];
      FilterAppend(IsColdServed, out[..n - 1], [out[n - 1]]);
      FilterAppend(IsProdServed, out[..n - 1], [out[n - 1]]);
      FilterAppend(IsProd, cs[..n - 1], [cs[n - 1]]);
      FilterAppend(IsColdServed, Filter(IsProdServed, out[..n - 1]), Filter(IsProdServed, [out[n - 1]]));
    }
  }

  // ----- Delay against an instance that never sleeps

  /** However many cold starts happened, a call is delayed by at most one boot. */
  lemma {:induction false} DelayedByAtMostOneBoot(cs: seq<Call>, k: Config, i: nat)
    requires i < |cs| && Plausible(k)
    ensures AlwaysOn(cs, i) <= Finish(cs, k, i) <= AlwaysOn(cs, i) + k.boot
  {
    if i > 0 {
      DelayedByAtMostOneBoot(cs, k, i - 1);
    }
  }

  /** The never-sleeping finish is the largest of "arrive at `j`, then serve `j` to `i`". */
  lemma {:induction false} AlwaysOnIsMaximum(cs: seq<Call>, i: nat)
    requires i < |cs|
    ensures forall j | 0 <= j <= i :: cs[j].t + Work(cs, j, i) <= AlwaysOn(cs, i)
    ensures exists j | 0 <= j <= i :: cs[j].t + Work(cs, j, i) == AlwaysOn(cs, i)
  {
    if i == 0 {
      assert cs[0].t + Work(cs, 0, 0) == AlwaysOn(cs, 0);
    } else {
      AlwaysOnIsMaximum(cs, i - 1);
      forall j | 0 <= j <= i ensures cs[j].t + Work(cs, j, i) <= AlwaysOn(cs, i) {
        if j < i {
          assert cs[j].t + Work(cs, j, i - 1) <= AlwaysOn(cs, i - 1);
        }
      }
      if cs[i].t < AlwaysOn(cs, i - 1) {
        var j :| 0 <= j <= i - 1 && cs[j].t + Work(cs, j, i - 1) == AlwaysOn(cs, i - 1);
        assert cs[j].t + Work(cs, j, i) == AlwaysOn(cs, i);
      } else {
        assert cs[i].t + Work(cs, i, i) == AlwaysOn(cs, i);
      }
    }
  }

  // ----- A longer sleep timer never costs more cold starts

  /**
  The coupling of two runs that differ in the sleep timer only. Finish times cross in both
  directions; a later finish in the short-timer run has always been paid for by a cold start.
  */
  lemma {:induction false} Coupling(cs: seq<Call>, short: Config, long: Config, n: nat)
    requires 1 <= n <= |cs| && Plausible(short) && Plausible(long)
    requires short.boot == long.boot && short.sleepAfter <= long.sleepAfter
    ensures ColdCount(cs, long, n) <= ColdCount(cs, short, n)
    ensures Finish(cs, short, n - 1) > Finish(cs, long, n - 1) ==>
              ColdCount(cs, long, n) < ColdCount(cs, short, n)
    ensures -short.boot <= Finish(cs, short, n - 1) - Finish(cs, long, n - 1) <= short.boot
  {
    DelayedByAtMostOneBoot(cs, short, n - 1);
    DelayedByAtMostOneBoot(cs, long, n - 1);
    if n > 1 {
      Coupling(cs, short, long, n - 1);
    } else {
      assert ColdCount(cs, short, 1) == ColdCount(cs, short, 0) + 1;
      assert ColdCount(cs, long, 1) == ColdCount(cs, long, 0) + 1;
    }
  }

  lemma LongerSleepFewerColdStarts(calls: seq<Call>, boot: real, short: real, long: real)
    requires 0.0 <= boot && 0.0 <= short <= long
    ensures var cs := Sort(Earlier, calls);
      ColdCount(cs, Config(long, boot), |cs|) <= ColdCount(cs, Config(short, boot), |cs|)
  {
    var cs := Sort(Earlier, calls);
    if cs != [] {
      Coupling(cs, Config(short, boot), Config(long, boot), |cs|);
    }
  }

  // ----- Billing

  lemma SumAppend(xs: seq<real>, x: real)
    ensures Sum(xs + [x]) == Sum(xs) + x
  {
    assert (xs + [x])[..|xs|] == xs;
  }

  /** One more call adds its service, its boot if cold, and the idle time paid before it. */
  lemma BilledStep(cs: seq<Call>, k: Config, n: nat)
    requires 1 < n <= |cs| && k.sleepAfter >= 0.0
    ensures Sum(Lengths(Spans(cs, k, n))) == Sum(Lengths(Spans(cs, k, n - 1))) + cs[n - 1].service
      + (if IsCold(cs, k, n - 1) then k.boot else 0.0)
      + Min(Max(0.0, cs[n - 1].t - Finish(cs, k, n - 2)), k.sleepAfter)
  {
    var before, end := Spans(cs, k, n - 1), Finish(cs, k, n - 1) + k.sleepAfter;
    SpansStep(cs, k, n);
    FinishStep(cs, k, n - 1);
    if IsCold(cs, k, n - 1) {
      OneMoreSpan(before, Span(cs[n - 1].t, end));
    } else {
      OneMoreSpan(before[..|before| - 1], before[|before| - 1]);
      assert before[..|before| - 1] + [before[|before| - 1]] == before;
      OneMoreSpan(before[..|before| - 1], Span(before[|before| - 1].start, end));
    }
  }

  lemma OneMoreSpan(spans: seq<Span>, s: Span)
    ensures Sum(Lengths(spans + [s])) == Sum(Lengths(spans)) + (s.end - s.start)
  {
    assert Lengths(spans + [s]) == Lengths(spans) + [s.end - s.start];
    SumAppend(Lengths(spans), s.end - s.start);
  }

  /** `c` boots, added up one by one. */
  function Boots(c: nat, boot: real): real {
    if c == 0 then 0.0 else Boots(c - 1, boot) + boot
  }

  lemma FreeBoots(c: nat)
    ensures Boots(c, 0.0) == 0.0
  {
  }

  lemma BilledFirst(cs: seq<Call>, k: Config)
    requires cs != []
    ensures Sum(Lengths(Spans(cs, k, 1))) == cs[0].service + k.boot + k.sleepAfter
    ensures ColdCount(cs, k, 1) == 1 && Boots(1, k.boot) == k.boot
  {
    var spans := Spans(cs, k, 1);
    assert Spans(cs, k, 0) == [] && ColdCount(cs, k, 1) == ColdCount(cs, k, 0) + 1;
    assert Boots(1, k.boot) == Boots(0, k.boot) + k.boot;
    assert Lengths(spans) == [] + [spans[0].end - spans[0].start];
    SumAppend([], spans[0].end - spans[0].start);
  }

  /** All service, a boot per cold start, one final timer, and the paid idle time. */
  function Bill(cs: seq<Call>, k: Config, n: nat): real
    requires 1 <= n <= |cs|
  {
    Work(cs, 0, n - 1) + Boots(ColdCount(cs, k, n), k.boot) + k.sleepAfter + PaidIdle(cs, k, n)
  }

  lemma BillStep(cs: seq<Call>, k: Config, n: nat)
    requires 1 < n <= |cs|
    ensures Bill(cs, k, n) == Bill(cs, k, n - 1) + cs[n - 1].service
      + (if IsCold(cs, k, n - 1) then k.boot else 0.0)
      + Min(Max(0.0, cs[n - 1].t - Finish(cs, k, n - 2)), k.sleepAfter)
  {
    var c := ColdCount(cs, k, n - 1);
    assert ColdCount(cs, k, n) == c + if IsCold(cs, k, n - 1) then 1 else 0;
    assert Boots(c + 1, k.boot) == Boots(c, k.boot) + k.boot;
    assert Work(cs, 0, n - 1) == Work(cs, 0, n - 2) + cs[n - 1].service;
  }

  /** Exactly what is billed. */
  lemma {:induction false} BilledExactly(cs: seq<Call>, k: Config, n: nat)
    requires 1 <= n <= |cs| && k.sleepAfter >= 0.0
    ensures Sum(Lengths(Spans(cs, k, n))) == Bill(cs, k, n)
  {
    if n == 1 {
      BilledFirst(cs, k);
    } else {
      BilledExactly(cs, k, n - 1);
      BilledStep(cs, k, n);
      BillStep(cs, k, n);
    }
  }

  /** With no boot time the finish times do not depend on the timer, and billing grows with it. */
  lemma {:induction false} PaidIdleGrows(cs: seq<Call>, short: Config, long: Config, n: nat)
    requires 1 <= n <= |cs| && 0.0 <= short.sleepAfter <= long.sleepAfter && short.boot == long.boot == 0.0
    ensures PaidIdle(cs, short, n) <= PaidIdle(cs, long, n)
  {
    if n > 1 {
      PaidIdleGrows(cs, short, long, n - 1);
      DelayedByAtMostOneBoot(cs, short, n - 2);
      DelayedByAtMostOneBoot(cs, long, n - 2);
    }
  }

  lemma FreeBootBillingMonotone(cs: seq<Call>, short: real, long: real)
    requires 0.0 <= short <= long
    ensures Sum(Lengths(Spans(cs, Config(short, 0.0), |cs|))) <= Sum(Lengths(Spans(cs, Config(long, 0.0), |cs|)))
  {
    if cs != [] {
      BilledExactly(cs, Config(short, 0.0), |cs|);
      BilledExactly(cs, Config(long, 0.0), |cs|);
      PaidIdleGrows(cs, Config(short, 0.0), Config(long, 0.0), |cs|);
      FreeBoots(ColdCount(cs, Config(short, 0.0), |cs|));
      FreeBoots(ColdCount(cs, Config(long, 0.0), |cs|));
    }
  }

  /** Service is first come, first served: it starts after arrival and after the previous finish. */
  lemma ServiceInOrder(cs: seq<Call>, k: Config, i: nat)
    requires i < |cs| && Plausible(k)
    ensures cs[i].t <= Start(cs, k, i)
    ensures i > 0 ==> Finish(cs, k, i - 1) <= Start(cs, k, i)
  {
    if i > 0 {
      FinishStep(cs, k, i);
    }
  }

  ghost predicate Disjoint(spans: seq<Span>) {
    && (forall a, b | 0 <= a < b < |spans| :: spans[a].end < spans[b].start)
    && (forall a | 0 <= a < |spans| :: spans[a].start <= spans[a].end)
  }

  /** Call `i` arrives and is served inside the span its latest cold start opened. */
  ghost predicate ServedInside(cs: seq<Call>, k: Config, spans: seq<Span>, i: nat)
    requires i < |cs|
  {
    var m := ColdCount(cs, k, i + 1);
    1 <= m <= |spans| && spans[m - 1].start <= cs[i].t && Finish(cs, k, i) <= spans[m - 1].end
  }

  /** Extending the spans by one call keeps them apart and keeps earlier calls inside. */
  lemma SpansExtend(cs: seq<Call>, k: Config, before: seq<Span>, after: seq<Span>, z: Span, n: nat)
    requires before != [] && n <= |cs| && Disjoint(before)
    requires forall i | 0 <= i < n :: ServedInside(cs, k, before, i)
    requires var last := before[|before| - 1];
      || (after == before + [z] && last.end < z.start <= z.end)
      || (after == before[..|before| - 1] + [z] && z.start == last.start && last.end <= z.end)
    ensures Disjoint(after)
    ensures forall i | 0 <= i < n :: ServedInside(cs, k, after, i)
  {
    forall i | 0 <= i < n ensures ServedInside(cs, k, after, i) {
      assert ServedInside(cs, k, before, i);
    }
  }

  /** The billed spans are in order, do not touch, and contain every service run. */
  lemma {:induction false} SpansCoverService(cs: seq<Call>, k: Config, n: nat)
    requires n <= |cs| && Plausible(k) && NonNegative(cs) && SortedBy(Earlier, cs)
    ensures Disjoint(Spans(cs, k, n))
    ensures forall i | 0 <= i < n :: ServedInside(cs, k, Spans(cs, k, n), i)
  {
    if n == 1 {
      assert Spans(cs, k, 0) == [];
      assert ColdCount(cs, k, 1) == 1;
    } else if n > 1 {
      SpansCoverService(cs, k, n - 1);
      SpansStep(cs, k, n);
      SpansCoverStep(cs, k, n, Spans(cs, k, n - 1), Spans(cs, k, n));
    }
  }

  lemma SpansCoverStep(cs: seq<Call>, k: Config, n: nat, before: seq<Span>, after: seq<Span>)
    requires 1 < n <= |cs| && Plausible(k) && NonNegative(cs) && SortedBy(Earlier, cs)
    requires |before| == ColdCount(cs, k, n - 1) && before != []
    requires before[|before| - 1].end == Finish(cs, k, n - 2) + k.sleepAfter
    requires Disjoint(before) && forall i | 0 <= i < n - 1 :: ServedInside(cs, k, before, i)
    requires var end := Finish(cs, k, n - 1) + k.sleepAfter;
      after == if IsCold(cs, k, n - 1) then before + [Span(cs[n - 1].t, end)]
               else before[..|before| - 1] + [Span(before[|before| - 1].start, end)]
    ensures Disjoint(after)
    ensures forall i | 0 <= i < n :: ServedInside(cs, k, after, i)
  {
    FinishStep(cs, k, n - 1);
    assert ServedInside(cs, k, before, n - 2);
    assert Earlier(cs[n - 2], cs[n - 1]);
    SpansExtend(cs, k, before, after, after[|after| - 1], n - 1);
    assert ServedInside(cs, k, after, n - 1);
  }
}
