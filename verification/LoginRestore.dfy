/**
The drift step of bin/identity-smoke.py: it overwrites one account's `login_email` with a drift
value, and must put things right by compare-and-swap whatever fails and whoever signs in meanwhile.

The database row is a shared cell. Between any two calls of the harness other writers may run. Any
database or HTTP call may fail before or after taking effect, or while its statement is still under
way and takes effect later. The cell keeps a history of the writes that changed it.
*/
module LoginRestore {
  import opened Wrappers
  import opened LoginHistory

  // ----- The shared cell and its other writers

  class World {
    const initial: Cell
    const drift: string
    const good: string          // `original_login_email or subject`
    const timely: bool          // a statement that raises takes effect, if at all, before it returns
    var cell: Cell
    var driftsInFlight: nat     // drift UPDATEs that raised and may still take effect
    var swapsInFlight: nat      // restoring UPDATEs that raised and may still take effect
    ghost var log: seq<Write>
    ghost var sent: seq<Sent>

    ghost predicate Valid()
      reads this
    {
      && (driftsInFlight > 0 ==> !NoneRaises(sent))
      && cell == Final(initial, log) && initial != Drifted(drift) && good != drift
      && Chain(initial, log, drift, good)
      && (timely ==> driftsInFlight == 0 && swapsInFlight == 0)
    }

    constructor (initial: Cell, drift: string, good: string, timely: bool)
      requires initial != Drifted(drift) && good != drift
      ensures Valid() && log == [] && sent == [] && driftsInFlight == 0 && swapsInFlight == 0
      ensures this.initial == initial && this.drift == drift && this.good == good && this.timely == timely
    {
      this.initial, this.drift, this.good, this.timely := initial, drift, good, timely;
      cell, log := initial, [];
      driftsInFlight, swapsInFlight, sent := 0, 0, [];
    }

    /** Notes a call of the harness. */
    method Note(x: Sent)
      requires Valid()
      modifies this`sent
      ensures Valid() && sent == old(sent) + [x]
    {
      MoreSent(sent, x);
      sent := sent + [x];
    }

    /** What a drift UPDATE does when it takes effect. */
    method ApplyDrift()
      requires Valid()
      modifies this`cell, this`log
      ensures Valid() && cell == if old(cell).Row? then Drifted(drift) else old(cell)
      ensures log == if old(cell).Row? then old(log) + [Write(DriftStep, old(cell), cell)] else old(log)
    {
      if cell.Row? {
        ChainStep(initial, log, drift, good, Write(DriftStep, cell, Drifted(drift)));
        log := log + [Write(DriftStep, cell, Drifted(drift))];
        cell := Drifted(drift);
      }
    }

    /** What a restoring UPDATE does when it takes effect. */
    method ApplySwap()
      requires Valid()
      modifies this`cell, this`log
      ensures Valid() && cell == if old(cell) == Drifted(drift) then Row(Some(good)) else old(cell)
      ensures log == if old(cell) == Drifted(drift) then old(log) + [Write(Restore, old(cell), cell)] else old(log)
    {
      if cell == Drifted(drift) {
        ChainStep(initial, log, drift, good, Write(Restore, cell, Row(Some(good))));
        log := log + [Write(Restore, cell, Row(Some(good)))];
        cell := Row(Some(good));
      }
    }

    /** The statement took effect after the first `at` writes, if it found what it was to change. */
    ghost predicate Struck(from: nat, at: nat, who: Writer)
      reads this
    {
      StruckIn(initial, log, drift, from, at, who)
    }

    /** Writes since `from` are by others, or by statements that were still in flight. */
    ghost predicate Foreign(from: nat, drifts: nat, swaps: nat)
      reads this
    {
      && driftsInFlight <= drifts && swapsInFlight <= swaps
      && forall i | from <= i < |log| ::
           (log[i].who == DriftStep ==> drifts > 0) && (log[i].who == Restore ==> swaps > 0)
    }

    /** One write of somebody else, or one statement in flight that takes effect. */
    method Other()
      requires Valid()
      modifies this`cell, this`log, this`driftsInFlight, this`swapsInFlight
      ensures Valid() && old(log) <= log && Foreign(|old(log)|, old(driftsInFlight), old(swapsInFlight))
      ensures cell == Drifted(drift) ==> old(cell) == Drifted(drift) || old(driftsInFlight) > 0
    {
      var late: bool := *;
      if late && driftsInFlight > 0 {
        driftsInFlight := driftsInFlight - 1;
        ApplyDrift();
      } else if late && swapsInFlight > 0 {
        swapsInFlight := swapsInFlight - 1;
        ApplySwap();
      } else {
        var next: Cell := *;
        if next != Drifted(drift) {
          ChainStep(initial, log, drift, good, Write(SignIn, cell, next));
          log := log + [Write(SignIn, cell, next)];
          cell := next;
        }
      }
    }

    /** Others run: any number of writes. */
    method Others()
      requires Valid()
      modifies this`cell, this`log, this`driftsInFlight, this`swapsInFlight
      ensures Valid() && old(log) <= log && Foreign(|old(log)|, old(driftsInFlight), old(swapsInFlight))
      ensures cell == Drifted(drift) ==> old(cell) == Drifted(drift) || old(driftsInFlight) > 0
    {
      var n: nat :| true;
      for i := 0 to n
        invariant Valid() && old(log) <= log && Foreign(|old(log)|, old(driftsInFlight), old(swapsInFlight))
        invariant cell == Drifted(drift) ==> old(cell) == Drifted(drift) || old(driftsInFlight) > 0
      {
        Other();
      }
    }

    /** A statement that raises has taken effect, or has not, or is still in flight. */
    method Fate() returns (applied: bool, raised: bool, later: bool)
      ensures !raised ==> applied
      ensures later ==> raised && !applied && !timely
    {
      applied, raised, later := *, *, *;
      applied := applied || !raised;
      later := later && !applied && !timely;
    }

    /** The statement itself: what it does, and what its caller learns. */
    method SendDrift() returns (raised: bool)
      requires Valid()
      modifies this
      ensures Valid() && sent == old(sent) + [Drift(raised)]
      ensures log == old(log) || (old(cell).Row? && log == old(log) + [Write(DriftStep, old(cell), Drifted(drift))])
      ensures !raised && old(cell).Row? ==> log != old(log)
      ensures driftsInFlight <= old(driftsInFlight) + if raised then 1 else 0
      ensures swapsInFlight == old(swapsInFlight)
    {
      var applied, later;
      applied, raised, later := Fate();
      Note(Drift(raised));
      if applied {
        ApplyDrift();
      } else if later {
        assert Raises(sent[|sent| - 1]);
        driftsInFlight := driftsInFlight + 1;
      }
    }

    method SendSwap() returns (raised: bool)
      requires Valid()
      modifies this
      ensures Valid() && sent == old(sent) + [Swap(raised)]
      ensures log == old(log) ||
        (old(cell) == Drifted(drift) && log == old(log) + [Write(Restore, old(cell), Row(Some(good)))])
      ensures !raised && old(cell) == Drifted(drift) ==> log != old(log)
      ensures driftsInFlight == old(driftsInFlight)
      ensures swapsInFlight <= old(swapsInFlight) + if raised then 1 else 0
      ensures cell == Drifted(drift) ==> old(cell) == Drifted(drift) && raised
    {
      var applied, later;
      applied, raised, later := Fate();
      Note(Swap(raised));
      if applied {
        ApplySwap();
      } else if later {
        swapsInFlight := swapsInFlight + 1;
      }
    }

    /** UPDATE ... SET login_email = drift WHERE account_email = subject. */
    method UpdateToDrift() returns (raised: bool, ghost at: nat)
      requires Valid()
      modifies this
      ensures Valid() && old(log) <= log && sent == old(sent) + [Drift(raised)]
      ensures !raised ==> Struck(|old(log)|, at, DriftStep)
      ensures driftsInFlight <= old(driftsInFlight) + if raised then 1 else 0
      ensures swapsInFlight <= old(swapsInFlight)
      ensures forall i | |old(log)| <= i < |log| :: log[i].who == Restore ==> old(swapsInFlight) > 0
    {
      Others();
      ghost var before := log;
      at := |log|;
      raised := SendDrift();
      Others();
      assert log[..at] == before;
    }

    /** UPDATE ... SET login_email = good WHERE account_email = subject AND login_email = drift. */
    method CompareAndSwap() returns (raised: bool, ghost at: nat)
      requires Valid()
      modifies this
      ensures Valid() && old(log) <= log && sent == old(sent) + [Swap(raised)]
      ensures !raised ==> Struck(|old(log)|, at, Restore)
      ensures driftsInFlight <= old(driftsInFlight)
      ensures swapsInFlight <= old(swapsInFlight) + if raised then 1 else 0
      ensures forall i | |old(log)| <= i < |log| :: log[i].who == DriftStep ==> old(driftsInFlight) > 0
      ensures cell == Drifted(drift) ==> (old(cell) == Drifted(drift) && raised) || old(driftsInFlight) > 0
    {
      Others();
      ghost var before := log;
      at := |log|;
      raised := SendSwap();
      Others();
      assert log[..at] == before;
    }

    /**
    `read_state().get("b_login_email")`: the value after the first `at` writes, or a failure.
    */
    method Read() returns (got: Option<string>, raised: bool, ghost at: nat)
      requires Valid()
      modifies this
      ensures Valid() && old(log) <= log && Foreign(|old(log)|, old(driftsInFlight), old(swapsInFlight))
      ensures |old(log)| <= at <= |log|
      ensures !raised ==> (got == Some(drift) <==> Final(initial, log[..at]) == Drifted(drift))
      ensures !raised && got == Some(drift) ==> old(cell) == Drifted(drift) || old(driftsInFlight) > 0
      ensures sent == old(sent) + [Look(raised, got == Some(drift))]
    {
      Others();
      raised, at := *, |log|;
      got := if cell.Row? then cell.login else None;
      Note(Look(raised, got == Some(drift)));
      ghost var seen := log;
      assert cell == Final(initial, seen);
      Others();
      assert log[..at] == seen;
    }

    /** The rebind call. The server may write too, but it does not know the drift value. */
    method CallRebind() returns (status: int, raised: bool)
      requires Valid()
      modifies this
      ensures Valid() && old(log) <= log && Foreign(|old(log)|, old(driftsInFlight), old(swapsInFlight))
      ensures sent == old(sent) + [Rebind(raised, status)]
    {
      Others();
      status, raised := *, *;
      Note(Rebind(raised, status));
    }

    /** The checks of the response and of what was left untouched: passed, or else one of them raised. */
    method JudgeRebind() returns (passed: bool)
      requires Valid()
      modifies this
      ensures Valid() && old(log) <= log && Foreign(|old(log)|, old(driftsInFlight), old(swapsInFlight))
      ensures sent == old(sent) + [Judge(passed)]
    {
      Others();
      passed := *;
      Note(Judge(passed));
    }
  }

  class IdentitySmoke {
    const world: World
    const subject: string
    var loginEmailToRestore: Option<(string, string)>
    var rebindAttempted: bool
    var reported: bool                    // cleanup has printed the statement to run by hand
    ghost var confirmedAt: Option<nat>    // how many writes there were when the drift value was seen gone
    ghost var updateRaised: bool          // the drift UPDATE raised

    /** A drift value in the row is known to the harness, unless it landed after the confirming read. */
    ghost predicate Valid()
      reads this, world
    {
      && world.Valid()
      && (loginEmailToRestore.Some? ==> loginEmailToRestore.value == (subject, world.drift) && confirmedAt.None?)
      && (world.cell == Drifted(world.drift) ==> loginEmailToRestore.Some? || LandedLate(confirmedAt, world.log))
      && (world.driftsInFlight > 0 ==> updateRaised && (loginEmailToRestore.Some? || confirmedAt.Some?))
      && (confirmedAt.Some? ==> confirmedAt.value <= |world.log| && NoneAfter())
    }

    /** Only an UPDATE that raised, in a world where statements may land late, lands after the confirming read. */
    ghost predicate NoneAfter()
      requires confirmedAt.Some?
      reads this, world
    {
      forall i | confirmedAt.value <= i < |world.log| && world.log[i].who == DriftStep :: updateRaised && !world.timely
    }

    constructor (world: World, subject: string)
      requires world.Valid() && world.log == [] && world.driftsInFlight == 0
      ensures Valid() && this.world == world && this.subject == subject
      ensures loginEmailToRestore == None && confirmedAt == None && !rebindAttempted && !reported && !updateRaised
    {
      this.world, this.subject := world, subject;
      loginEmailToRestore, rebindAttempted, reported := None, false, false;
      confirmedAt, updateRaised := None, false;
    }

    /** What the harness knows stays true while others run. */
    twostate lemma StillValid()
      requires old(Valid()) && world.Valid()
      requires loginEmailToRestore == old(loginEmailToRestore) && confirmedAt == old(confirmedAt)
      requires updateRaised == old(updateRaised) && old(world.log) <= world.log
      requires world.Foreign(|old(world.log)|, old(world.driftsInFlight), old(world.swapsInFlight))
      ensures Valid()
    {
      DriftedByLast(world.initial, world.log, world.drift, world.good);
      DriftedByLast(world.initial, old(world.log), world.drift, world.good);
    }

    method Others()
      requires Valid()
      modifies world
      ensures Valid() && old(world.log) <= world.log && world.sent == old(world.sent)
      ensures world.Foreign(|old(world.log)|, old(world.driftsInFlight), old(world.swapsInFlight))
      ensures world.cell == Drifted(world.drift) ==>
        old(world.cell) == Drifted(world.drift) || old(world.driftsInFlight) > 0
    {
      world.Others();
      StillValid();
    }

    /** The restoring UPDATE; what the harness knows stays true. */
    method SwapBack() returns (raised: bool)
      requires Valid() && loginEmailToRestore.Some?
      modifies world
      ensures Valid() && old(world.log) <= world.log && world.sent == old(world.sent) + [Swap(raised)]
      ensures world.driftsInFlight <= old(world.driftsInFlight)
      ensures forall i | |old(world.log)| <= i < |world.log| ::
        world.log[i].who == DriftStep ==> old(world.driftsInFlight) > 0
      ensures !raised && old(world.driftsInFlight) == 0 ==> world.cell != Drifted(world.drift)
    {
      ghost var at;
      raised, at := world.CompareAndSwap();
    }

    /** One read of the row. */
    method LookOnce() returns (look: Sent, ghost at: nat)
      requires Valid() && loginEmailToRestore.Some?
      modifies world
      ensures Valid() && old(world.log) <= world.log && world.sent == old(world.sent) + [look] && look.Look?
      ensures world.Foreign(|old(world.log)|, old(world.driftsInFlight), old(world.swapsInFlight))
      ensures |old(world.log)| <= at <= |world.log|
      ensures look == Look(false, false) ==> Final(world.initial, world.log[..at]) != Drifted(world.drift)
      ensures look == Look(false, true) ==> old(world.cell) == Drifted(world.drift) || old(world.driftsInFlight) > 0
    {
      var got, raised;
      got, raised, at := world.Read();
      look := Look(raised, got == Some(world.drift));
    }

    /** Retries the read until the drift value is gone; `confirmed` is an empty error list. */
    method EventuallyGone() returns (confirmed: bool, raised: bool, ghost at: nat, ghost looks: seq<Sent>)
      requires Valid() && loginEmailToRestore.Some?
      modifies world
      ensures Valid() && old(world.log) <= world.log && world.sent == old(world.sent) + looks
      ensures world.Foreign(|old(world.log)|, old(world.driftsInFlight), old(world.swapsInFlight))
      ensures confirmed ==> !raised && |old(world.log)| <= at <= |world.log|
      ensures confirmed ==> Final(world.initial, world.log[..at]) != Drifted(world.drift)
      ensures !raised && old(world.cell) != Drifted(world.drift) && old(world.driftsInFlight) == 0 ==> confirmed
      ensures LookTrace(looks, confirmed) && looks != [] && (raised <==> Raises(looks[|looks| - 1]))
    {
      confirmed, raised, at, looks := false, false, 0, [];
      for attempt := 0 to ATTEMPTS
        invariant Valid() && old(world.log) <= world.log
        invariant world.Foreign(|old(world.log)|, old(world.driftsInFlight), old(world.swapsInFlight))
        invariant world.sent == old(world.sent) + looks && looks == Misses(attempt)
        invariant attempt > 0 ==> old(world.cell) == Drifted(world.drift) || old(world.driftsInFlight) > 0
      {
        var look;
        look, at := LookOnce();
        looks := looks + [look];
        if look.raised || !look.drifted {
          LooksEnd(attempt, look);
          return !look.raised, look.raised, at, looks;
        }
      }
      LooksEnd(ATTEMPTS - 1, Look(false, true));
      return false, false, at, looks;
    }

    method RestoreLoginEmail() returns (raised: bool, ghost t: seq<Sent>)
      requires Valid()
      modifies this`loginEmailToRestore, this`confirmedAt, world
      ensures Valid() && old(world.log) <= world.log && world.sent == old(world.sent) + t
      ensures world.driftsInFlight <= old(world.driftsInFlight)
      ensures forall i | |old(world.log)| <= i < |world.log| ::
        world.log[i].who == DriftStep ==> old(world.driftsInFlight) > 0
      ensures old(loginEmailToRestore).None? ==>
        && t == [] && loginEmailToRestore.None? && confirmedAt == old(confirmedAt)
        && world.log == old(world.log) && !raised
      ensures old(loginEmailToRestore).Some? ==>
        && RestoreTrace(t, loginEmailToRestore.None?) && t != [] && (raised <==> Raises(t[|t| - 1]))
        && (loginEmailToRestore.None? ==> confirmedAt.Some? && |old(world.log)| <= confirmedAt.value)
      ensures raised ==> loginEmailToRestore == old(loginEmailToRestore)
      ensures old(loginEmailToRestore).Some? && !raised && old(world.driftsInFlight) == 0 ==>
        loginEmailToRestore.None? && world.cell != Drifted(world.drift)
    {
      t := [];
      if loginEmailToRestore.None? {
        return false, t;
      }
      raised := SwapBack();
      t := [Swap(raised)];
      if raised {
        return;
      }
      var confirmed;
      ghost var at, looks;
      confirmed, raised, at, looks := EventuallyGone();
      RestoreOf(looks, confirmed);
      t := [Swap(false)] + looks;
      if confirmed {
        Confirm(at);
      }
    }

    /** The drift value was seen gone after `at` writes: nothing is left to restore. */
    method Confirm(ghost at: nat)
      requires Valid() && loginEmailToRestore.Some? && at <= |world.log|
      requires forall i | at <= i < |world.log| && world.log[i].who == DriftStep :: updateRaised && !world.timely
      requires Final(world.initial, world.log[..at]) != Drifted(world.drift)
      modifies this`loginEmailToRestore, this`confirmedAt
      ensures Valid() && loginEmailToRestore.None? && confirmedAt == Some(at)
    {
      loginEmailToRestore, confirmedAt := None, Some(at);
      DriftedByLast(world.initial, world.log, world.drift, world.good);
      assert world.log[..|world.log|] == world.log;
    }

    /** `subject` and `drift` are noted before the UPDATE, so that a failure cannot leave them unknown. */
    method BeginDrift() returns (raised: bool, ghost at: nat)
      requires Valid() && loginEmailToRestore.None?
      modifies this`loginEmailToRestore, this`confirmedAt, this`updateRaised, world
      ensures Valid() && old(world.log) <= world.log && loginEmailToRestore.Some?
      ensures world.sent == old(world.sent) + [Drift(raised)] && (updateRaised <==> old(updateRaised) || raised)
      ensures !raised ==> world.Struck(|old(world.log)|, at, DriftStep)
      ensures world.driftsInFlight <= old(world.driftsInFlight) + if raised then 1 else 0
    {
      loginEmailToRestore, confirmedAt := Some((subject, world.drift)), None;
      raised, at := world.UpdateToDrift();
      updateRaised := updateRaised || raised;
    }

    /** The rebind call and its checks: each may raise, and only others write. */
    method TryRebind() returns (passed: bool, ghost t: seq<Sent>)
      requires Valid()
      modifies this`rebindAttempted, world
      ensures Valid() && old(world.log) <= world.log && world.sent == old(world.sent) + t
      ensures world.Foreign(|old(world.log)|, old(world.driftsInFlight), old(world.swapsInFlight))
      ensures BetweenTrace(t, passed)
      ensures rebindAttempted == (old(rebindAttempted) || (!t[0].raised && t[0].status == 200))
    {
      var status, callRaised := world.CallRebind();
      StillValid();
      t := [Rebind(callRaised, status)];
      if callRaised {
        return false, t;
      }
      if status == 200 {
        rebindAttempted := true;
      }
      passed := world.JudgeRebind();
      StillValid();
      t := t + [Judge(passed)];
    }

    /** What follows the UPDATE once it went through: the restore is tried whatever happened before it. */
    method RebindThenRestore()
      returns (failed: bool, ghost passed: bool, ghost between: seq<Sent>, ghost restore: seq<Sent>)
      requires Valid() && loginEmailToRestore.Some?
      modifies this`loginEmailToRestore, this`confirmedAt, this`rebindAttempted, world
      ensures Valid() && old(world.log) <= world.log && world.sent == old(world.sent) + between + restore
      ensures BetweenTrace(between, passed) && RestoreTrace(restore, loginEmailToRestore.None?)
      ensures failed <==> !passed || loginEmailToRestore.Some?
      ensures world.driftsInFlight <= old(world.driftsInFlight)
      ensures (NoneRaises(restore) || !failed) && old(world.driftsInFlight) == 0 ==>
        loginEmailToRestore.None? && world.cell != Drifted(world.drift)
    {
      var ok, restoreRaised;
      ok, between := TryRebind();
      passed := ok;
      restoreRaised, restore := RestoreLoginEmail();
      failed := restoreRaised || !ok || loginEmailToRestore.Some?;
    }

    /**
    `failed`: the step raised, whether from a call, a check, or an unconfirmed restore. If the UPDATE
    raised, nothing else is sent; otherwise the calls between, and then a restore whatever they did.
    */
    method CheckDrift()
      returns (failed: bool, ghost begin: Sent, ghost passed: bool, ghost between: seq<Sent>, ghost restore: seq<Sent>)
      requires Valid() && loginEmailToRestore.None?
      modifies this, world
      ensures Valid() && old(world.log) <= world.log && reported == old(reported)
      ensures world.sent == old(world.sent) + [begin] + between + restore && begin.Drift?
      ensures if begin.raised then between == restore == [] && failed
              else && BetweenTrace(between, passed) && RestoreTrace(restore, loginEmailToRestore.None?)
                   && (failed <==> !passed || loginEmailToRestore.Some?)
      ensures updateRaised <==> old(updateRaised) || begin.raised
      ensures !begin.raised && (NoneRaises(restore) || !failed) && old(world.driftsInFlight) == 0 ==>
        loginEmailToRestore.None? && world.driftsInFlight == 0 && world.cell != Drifted(world.drift)
    {
      var raised;
      ghost var at;
      raised, at := BeginDrift();
      begin, passed, between, restore := Drift(raised), false, [], [];
      if raised {
        failed := true;
        return;
      }
      failed, passed, between, restore := RebindThenRestore();
    }

    /** Afterwards a drift value in the row is known and reported, unless it landed after the confirming read. */
    method Cleanup() returns (ghost t: seq<Sent>)
      requires Valid()
      modifies this, world
      ensures Valid() && old(world.log) <= world.log && world.sent == old(world.sent) + t
      ensures updateRaised == old(updateRaised) && rebindAttempted == old(rebindAttempted)
      ensures reported == (old(reported) || loginEmailToRestore.Some?)
      ensures if old(loginEmailToRestore).None? then t == [] && loginEmailToRestore.None?
              else RestoreTrace(t, loginEmailToRestore.None?)
      ensures NoneRaises(t) && old(world.driftsInFlight) == 0 ==>
        && loginEmailToRestore.None?
        && (world.cell == Drifted(world.drift) ==> old(world.cell) == Drifted(world.drift))
      ensures world.cell == Drifted(world.drift) && loginEmailToRestore.None? <==> LandedLate(confirmedAt, world.log)
    {
      var raised;
      raised, t := RestoreLoginEmail();
      Others();                     // the other clean-up steps
      if loginEmailToRestore.Some? {
        reported := true;
      }
      DriftedByLast(world.initial, world.log, world.drift, world.good);
    }

    /**
    Any run: the drift step, or a run that fails before it; then, unless it failed, later steps; then
    cleanup. If no database call raised, the drift value is gone and nothing is reported. Whatever
    was interleaved and whatever failed, it is gone, or known and reported; exactly unless the drift
    UPDATE raised and took effect only after the confirming read.
    */
    method Run()
      requires Valid() && loginEmailToRestore.None? && confirmedAt.None? && !reported && !updateRaised
      requires world.log == [] && world.sent == [] && world.driftsInFlight == 0
      modifies this, world
      ensures Valid() && History(world.initial, world.log, world.drift, world.good)
      ensures RestoresReplaceDrift(world.log)
      ensures reported <==> loginEmailToRestore == Some((subject, world.drift))
      ensures NoneRaises(world.sent) ==> !reported && world.cell != Drifted(world.drift)
      ensures world.cell == Drifted(world.drift) && !reported <==> LandedLate(confirmedAt, world.log)
      ensures LandedLate(confirmedAt, world.log) ==> updateRaised && !world.timely
    {
      RunSteps();
      ghost var before := world.sent;
      ghost var last := Cleanup();
      NoneRaisesAppend(before, last);
      ChainIsHistory(world.initial, world.log, world.drift, world.good);
      RestoresFollowDrift(world.initial, world.log, world.drift, world.good);
    }

    /** The steps before cleanup. */
    method RunSteps()
      requires Valid() && loginEmailToRestore.None? && confirmedAt.None? && !reported && !updateRaised
      requires world.log == [] && world.sent == [] && world.driftsInFlight == 0
      modifies this, world
      ensures Valid() && !reported
      ensures NoneRaises(world.sent) ==>
        loginEmailToRestore.None? && world.driftsInFlight == 0 && world.cell != Drifted(world.drift)
    {
      Others();
      var reached: bool := *;
      if reached {
        var failed;
        ghost var begin, passed, between, restore;
        failed, begin, passed, between, restore := CheckDrift();
        NoneRaisesAppend([begin] + between, restore);
        NoneRaisesAppend([begin], between);
        assert world.sent == [begin] + between + restore && [begin][0] == begin;
        if !failed {
          Others();
        }
      }
    }
  }

  /**
  A run that ends with the drift value unreported. The UPDATE raises while it is in flight, so the
  step ends there; cleanup's restore finds nothing to swap and reads the old address; then the
  UPDATE takes effect.
  */
  method UnreportedExample(subject: string) returns (smoke: IdentitySmoke)
    ensures smoke.Valid() && smoke.loginEmailToRestore.None? && !smoke.reported
    ensures smoke.world.cell == Drifted(smoke.world.drift)
  {
    smoke := RaisedInFlight(subject);
    var world := smoke.world;
    world.Note(Swap(false));
    world.ApplySwap();
    world.Note(Look(false, false));
    smoke.Confirm(0);
    world.driftsInFlight := 0;
    world.ApplyDrift();
  }

  /** The run up to the end of the drift step. */
  method RaisedInFlight(subject: string) returns (smoke: IdentitySmoke)
    ensures smoke.Valid() && fresh(smoke) && fresh(smoke.world)
    ensures smoke.loginEmailToRestore.Some? && smoke.updateRaised && !smoke.reported && !smoke.world.timely
    ensures smoke.world.log == [] && smoke.world.cell == Row(Some("old")) && smoke.world.drift == "drift"
    ensures smoke.world.initial == Row(Some("old"))
  {
    assert "old"[0] != "drift"[0];
    var world := new World(Row(Some("old")), "drift", "old", false);
    smoke := new IdentitySmoke(world, subject);
    smoke.loginEmailToRestore, smoke.updateRaised := Some((subject, "drift")), true;
    world.Note(Drift(true));
    assert Raises(world.sent[0]);
    world.driftsInFlight := 1;
  }
}
