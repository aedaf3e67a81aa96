/**
`cold` in the simulator's report counts prod calls only, while `cold_all` counts every call.
`cold_all` never grows with the sleep timer (Backtest.LongerSleepFewerColdStarts); `cold` can.
This module says exactly for which sequences of environments it cannot.
*/
module ProdColdStarts {
  import opened Wrappers
  import opened Sorting
  import opened Backtest

  type Env = Option<string>

  /** Some call other than the first is from another environment and is followed by a prod call. */
  ghost predicate OtherBeforeProd(envs: seq<Env>) {
    exists i, j :: 1 <= i < j < |envs| && !ProdEnv(envs[i]) && ProdEnv(envs[j])
  }

  /** Arrivals in order, with non-negative service times, from the given environments. */
  ghost predicate Demand(cs: seq<Call>, envs: seq<Env>) {
    && |cs| == |envs|
    && (forall i | 0 <= i < |cs| :: cs[i].env == envs[i])
    && NonNegative(cs) && SortedBy(Earlier, cs)
  }

  ghost predicate Growing(short: real, long: real, boot: real) {
    0.0 <= short <= long && 0.0 <= boot
  }

  /** On every demand from these environments, a longer timer never reports more prod cold starts. */
  ghost predicate ProdColdNeverGrows(envs: seq<Env>) {
    forall cs, short, long, boot | Demand(cs, envs) && Growing(short, long, boot) ::
      ProdCold(cs, Config(long, boot), |cs|) <= ProdCold(cs, Config(short, boot), |cs|)
  }

  /** If every call but the first is prod, the prod count is the whole count, less the first call if it is not prod. */
  lemma {:induction false} ProdIsAll(cs: seq<Call>, k: Config, n: nat)
    requires 1 <= n <= |cs|
    requires forall i | 1 <= i < n :: IsProd(cs[i])
    ensures ProdCold(cs, k, n) == ColdCount(cs, k, n) - if IsProd(cs[0]) then 0 else 1
  {
    if n == 1 {
      assert ProdCold(cs, k, 0) == ColdCount(cs, k, 0) == 0;
      assert ColdCount(cs, k, 1) == 1;
    } else {
      ProdIsAll(cs, k, n - 1);
    }
  }

  lemma {:induction false} NoOtherBeforeProd(cs: seq<Call>, envs: seq<Env>, short: Config, long: Config, n: nat)
    requires Demand(cs, envs) && !OtherBeforeProd(envs) && n <= |cs|
    requires Plausible(short) && Plausible(long) && short.boot == long.boot && short.sleepAfter <= long.sleepAfter
    ensures ProdCold(cs, long, n) <= ProdCold(cs, short, n)
  {
    if n == 0 {
    } else if n > 1 && !IsProd(cs[n - 1]) {
      NoOtherBeforeProd(cs, envs, short, long, n - 1);
    } else {
      forall i | 1 <= i < n ensures IsProd(cs[i]) {
        assert n > 1 ==> ProdEnv(envs[n - 1]);
        assert i < n - 1 ==> ProdEnv(envs[i]);
      }
      ProdIsAll(cs, short, n);
      ProdIsAll(cs, long, n);
      Coupling(cs, short, long, n);
    }
  }

  // ----- The counterexample: calls at 0, one at 11, one at 13, the rest at 1000, with boot 10

  const BOOT: real := 10.0
  const SHORT: Config := Config(0.0, BOOT)
  const LONG: Config := Config(1.0, BOOT)

  function Arrival(i: nat, m: nat): real {
    if m < i then 0.0 else if m == i then 11.0 else if m == i + 1 then 13.0 else 1000.0
  }

  function Crossing(envs: seq<Env>, i: nat): seq<Call> {
    seq(|envs|, m requires 0 <= m < |envs| => Call(Arrival(i, m), "api", envs[m], 0.0))
  }

  /** Call `i` is cold under the short timer only, call `i + 1` under the long timer only. */
  lemma {:induction false} CrossingRuns(envs: seq<Env>, i: nat, m: nat)
    requires 1 <= i && m < |envs|
    ensures var cs := Crossing(envs, i);
      && Finish(cs, SHORT, m) == (if m < i then 10.0 else if m <= i + 1 then 21.0 else 1010.0)
      && Finish(cs, LONG, m) == (if m < i then 10.0 else if m == i then 11.0 else if m == i + 1 then 23.0 else 1010.0)
      && (IsCold(cs, SHORT, m) <==> m == 0 || m == i || m == i + 2)
      && (IsCold(cs, LONG, m) <==> m == 0 || m == i + 1 || m == i + 2)
  {
    var cs := Crossing(envs, i);
    if m > 0 {
      CrossingRuns(envs, i, m - 1);
      FinishStep(cs, SHORT, m);
      FinishStep(cs, LONG, m);
    }
  }

  lemma {:induction false} CrossingCounts(envs: seq<Env>, i: nat, n: nat)
    requires 1 <= i && i + 1 < |envs| && n <= |envs|
    requires !ProdEnv(envs[i]) && ProdEnv(envs[i + 1])
    ensures var cs := Crossing(envs, i);
      ProdCold(cs, LONG, n) == ProdCold(cs, SHORT, n) + if n < i + 2 then 0 else 1
  {
    if n > 0 {
      CrossingCounts(envs, i, n - 1);
      CrossingRuns(envs, i, n - 1);
    }
  }

  lemma {:induction false} AdjacentPair(envs: seq<Env>, i: nat, j: nat) returns (m: nat)
    requires 1 <= i < j < |envs| && !ProdEnv(envs[i]) && ProdEnv(envs[j])
    ensures 1 <= m && m + 1 < |envs| && !ProdEnv(envs[m]) && ProdEnv(envs[m + 1])
    decreases j - i
  {
    if ProdEnv(envs[i + 1]) {
      m := i;
    } else {
      m := AdjacentPair(envs, i + 1, j);
    }
  }

  /**
  Prod cold starts never grow with the timer, on all demands, exactly when no later non-prod call
  precedes a prod one.
  */
  lemma ProdColdNeverGrowsIff(envs: seq<Env>)
    ensures ProdColdNeverGrows(envs) <==> !OtherBeforeProd(envs)
  {
    if OtherBeforeProd(envs) {
      var i, j :| 1 <= i < j < |envs| && !ProdEnv(envs[i]) && ProdEnv(envs[j]);
      var m := AdjacentPair(envs, i, j);
      var cs := Crossing(envs, m);
      CrossingCounts(envs, m, |envs|);
      assert Demand(cs, envs) && Growing(0.0, 1.0, BOOT);
      assert ProdCold(cs, Config(1.0, BOOT), |cs|) > ProdCold(cs, Config(0.0, BOOT), |cs|);
    } else {
      forall cs, short, long, boot | Demand(cs, envs) && Growing(short, long, boot)
        ensures ProdCold(cs, Config(long, boot), |cs|) <= ProdCold(cs, Config(short, boot), |cs|)
      {
        NoOtherBeforeProd(cs, envs, Config(short, boot), Config(long, boot), |cs|);
      }
    }
  }
}
