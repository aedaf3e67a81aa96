/**
The history of the `login_email` column during a run of bin/identity-smoke.py, and the calls that the
harness makes: who may write what, what a history says of sign-ins, and what a restore looks like.
*/
module LoginHistory {
  import opened Wrappers

  /** The account's row in identity_tokens, seen through its `login_email` column. */
  datatype Cell = NoRow | Row(login: Option<string>)

  /** `SignIn` is any writer but this step: sign-ins, rebinds and clean-ups, none of which knows the drift value. */
  datatype Writer = SignIn | DriftStep | Restore

  datatype Write = Write(who: Writer, before: Cell, after: Cell)

  function Drifted(drift: string): Cell {
    Row(Some(drift))
  }

  /** The cell after the writes of `log`. */
  function Final(initial: Cell, log: seq<Write>): Cell {
    if log == [] then initial else log[|log| - 1].after
  }

  /** What each writer may do. */
  predicate Allowed(w: Write, drift: string, good: string) {
    match w.who
    case SignIn => w.after != Drifted(drift)
    case DriftStep => w.after == Drifted(drift)
    case Restore => w.before == Drifted(drift) && w.after == Row(Some(good))
  }

  /** Writes follow on from one another, and each writer does only what it may. */
  ghost predicate History(initial: Cell, log: seq<Write>, drift: string, good: string) {
    forall i | 0 <= i < |log| :: log[i].before == Final(initial, log[..i]) && Allowed(log[i], drift, good)
  }

  /** The same, write by write. */
  ghost predicate Chain(initial: Cell, log: seq<Write>, drift: string, good: string) {
    log == [] ||
    var before, w := log[..|log| - 1], log[|log| - 1];
    Chain(initial, before, drift, good) && w.before == Final(initial, before) && Allowed(w, drift, good)
  }

  lemma {:induction false} ChainIsHistory(initial: Cell, log: seq<Write>, drift: string, good: string)
    requires Chain(initial, log, drift, good)
    ensures History(initial, log, drift, good)
  {
    if log != [] {
      var before := log[..|log| - 1];
      ChainIsHistory(initial, before, drift, good);
      forall i | 0 <= i < |log| ensures log[i].before == Final(initial, log[..i]) && Allowed(log[i], drift, good) {
        if i < |before| {
          assert before[..i] == log[..i] && before[i] == log[i];
        }
      }
    }
  }

  // ----- What a history says

  /** Once somebody has signed in, nothing but another sign-in is written until the next drift write. */
  lemma {:induction false} SignInSticks(initial: Cell, log: seq<Write>, drift: string, good: string, i: nat, j: nat)
    requires History(initial, log, drift, good) && good != drift
    requires i <= j < |log| && log[i].who == SignIn
    requires forall m | i < m < |log| :: log[m].who != DriftStep
    ensures log[j].who == SignIn && log[j].after != Drifted(drift)
  {
    if i < j {
      SignInSticks(initial, log, drift, good, i, j - 1);
      assert log[j].before == log[j - 1].after;
    }
  }

  /**
  The last sign-in's address is what remains, exactly if no drift write came after it, or if it
  happens to be the address that was restored.
  */
  lemma LastSignInRemainsIff(initial: Cell, log: seq<Write>, drift: string, good: string, i: nat)
    requires History(initial, log, drift, good) && good != drift
    requires i < |log| && log[i].who == SignIn && forall m | i < m < |log| :: log[m].who != SignIn
    ensures Final(initial, log) == log[i].after <==>
      || (forall m | i < m < |log| :: log[m].who != DriftStep)
      || (log[|log| - 1].who == Restore && log[i].after == Row(Some(good)))
  {
    if forall m | i < m < |log| :: log[m].who != DriftStep {
      SignInSticks(initial, log, drift, good, i, |log| - 1);
      assert |log| - 1 == i;
    }
  }

  /** A drift value in the cell is there because the last write put it there. */
  lemma DriftedByLast(initial: Cell, log: seq<Write>, drift: string, good: string)
    requires Chain(initial, log, drift, good) && initial != Drifted(drift) && good != drift
    ensures Final(initial, log) == Drifted(drift) <==> log != [] && log[|log| - 1].who == DriftStep
  {
  }

  /** Every restore replaces what a drift write has just written, so never a sign-in's address. */
  ghost predicate RestoresReplaceDrift(log: seq<Write>) {
    forall i | 0 <= i < |log| && log[i].who == Restore :: i > 0 && log[i - 1].who == DriftStep
  }

  lemma {:induction false} RestoresFollowDrift(initial: Cell, log: seq<Write>, drift: string, good: string)
    requires Chain(initial, log, drift, good) && initial != Drifted(drift) && good != drift
    ensures RestoresReplaceDrift(log)
  {
    if log != [] {
      var before := log[..|log| - 1];
      RestoresFollowDrift(initial, before, drift, good);
      DriftedByLast(initial, before, drift, good);
      forall i | 0 <= i < |log| && log[i].who == Restore ensures i > 0 && log[i - 1].who == DriftStep {
        if i < |before| {
          assert before[i] == log[i] && before[i - 1] == log[i - 1];
        }
      }
    }
  }

  /** A sign-in between the preflight and the drift write: the restore brings the older address back. */
  lemma LostSignInExample()
    ensures var before, signedIn := Row(Some("old")), Row(Some("new"));
      var log := [Write(SignIn, before, signedIn), Write(DriftStep, signedIn, Drifted("drift")),
                  Write(Restore, Drifted("drift"), before)];
      History(before, log, "drift", "old") && Final(before, log) != signedIn
  {
    var before, signedIn := Row(Some("old")), Row(Some("new"));
    var log := [Write(SignIn, before, signedIn), Write(DriftStep, signedIn, Drifted("drift")),
                Write(Restore, Drifted("drift"), before)];
    assert "old"[0] != "new"[0] && "drift"[0] != "new"[0] && "drift"[0] != "old"[0];
    assert log[..0] == [] && log[..1] == [log[0]] && log[..2] == [log[0], log[1]];
  }

  lemma ChainStep(initial: Cell, log: seq<Write>, drift: string, good: string, w: Write)
    requires Chain(initial, log, drift, good) && w.before == Final(initial, log) && Allowed(w, drift, good)
    ensures Chain(initial, log + [w], drift, good)
  {
    assert (log + [w])[..|log|] == log;
  }

  // ----- What the harness sends

  /** A statement, an HTTP call or a check of the harness, and what came of it. */
  datatype Sent =
    | Drift(raised: bool)
    | Rebind(raised: bool, status: int)
    | Judge(passed: bool)                 // the response and the read-back checks
    | Swap(raised: bool)
    | Look(raised: bool, drifted: bool)

  const ATTEMPTS: nat := 6

  /** A database call that raised. */
  predicate Raises(x: Sent) {
    (x.Drift? || x.Swap? || x.Look?) && x.raised
  }

  predicate NoneRaises(t: seq<Sent>) {
    forall i | 0 <= i < |t| :: !Raises(t[i])
  }

  function Misses(n: nat): (t: seq<Sent>)
    ensures |t| == n
  {
    if n == 0 then [] else Misses(n - 1) + [Look(false, true)]
  }

  /** Looks until the drift value is gone, one raises, or all were made. */
  predicate LookTrace(t: seq<Sent>, confirmed: bool) {
    1 <= |t| <= ATTEMPTS &&
    var last := t[|t| - 1];
    && last.Look? && t[..|t| - 1] == Misses(|t| - 1)
    && (confirmed <==> last == Look(false, false)) && (last == Look(false, true) ==> |t| == ATTEMPTS)
  }

  /** One restore: the swap and, unless it raised, the looks. */
  predicate RestoreTrace(t: seq<Sent>, confirmed: bool) {
    t != [] && t[0].Swap? && if t[0].raised then |t| == 1 && !confirmed else LookTrace(t[1..], confirmed)
  }

  /** The calls between the drift UPDATE and the restore. */
  predicate BetweenTrace(t: seq<Sent>, passed: bool) {
    t != [] && t[0].Rebind? && if t[0].raised then |t| == 1 && !passed else t == [t[0], Judge(passed)]
  }

  /** A statement took effect after the first `at` writes, if it found what it was to change. */
  ghost predicate StruckIn(initial: Cell, log: seq<Write>, drift: string, from: nat, at: nat, who: Writer) {
    && from <= at <= |log|
    && (var found := Final(initial, log[..at]);
        (if who == Restore then found == Drifted(drift) else found.Row?) ==> at < |log| && log[at].who == who)
  }

  // ----- Facts about calls

  lemma MoreSent(t: seq<Sent>, x: Sent)
    ensures NoneRaises(t + [x]) <==> NoneRaises(t) && !Raises(x)
  {
    var more := t + [x];
    assert more[|t|] == x;
    assert forall i | 0 <= i < |t| :: more[i] == t[i];
  }

  lemma LooksEnd(n: nat, look: Sent)
    requires n < ATTEMPTS && look.Look? && (look != Look(false, true) || n + 1 == ATTEMPTS)
    ensures LookTrace(Misses(n) + [look], look == Look(false, false))
  {
    assert (Misses(n) + [look])[..n] == Misses(n);
  }

  lemma RestoreOf(looks: seq<Sent>, confirmed: bool)
    requires LookTrace(looks, confirmed)
    ensures RestoreTrace([Swap(false)] + looks, confirmed)
  {
    assert ([Swap(false)] + looks)[1..] == looks;
  }

  lemma NoneRaisesAppend(a: seq<Sent>, b: seq<Sent>)
    ensures NoneRaises(a + b) <==> NoneRaises(a) && NoneRaises(b)
  {
    var all := a + b;
    assert forall i | 0 <= i < |a| :: all[i] == a[i];
    assert forall i | 0 <= i < |b| :: all[|a| + i] == b[i];
  }

  /** The drift value came back after the harness had confirmed that it was gone. */
  ghost predicate LandedLate(confirmedAt: Option<nat>, log: seq<Write>) {
    confirmedAt.Some? && confirmedAt.value < |log| && log[|log| - 1].who == DriftStep
  }
}
