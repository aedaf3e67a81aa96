/** What `compose_env` guarantees of every run: nothing of the shell's smoke variables gets through. */
module RegistryLaws {
  import opened Wrappers
  import opened IdentityTokens
  import opened RunnerConfig
  import opened Registry

  lemma ApiTokenIsNotSmoke()
    ensures !IsSmokeVar(API_TOKEN)
  {
    assert API_TOKEN[0] == 'C' && API_TOKEN[1] == 'L';
    assert API_TOKEN[1..][0] == 'L';
  }

  lemma TurnstileIsNotSmoke(t: Target)
    ensures !IsSmokeVar(TurnstileVar(t))
  {
    var s := TurnstileVar(t);
    assert s[0] == 'T' && s[1] == 'U';
  }

  // ----- Where the variables of a run come from

  lemma SchedulerNames(t: Tokens, iso: int -> string, k: string)
    requires k in ProjectIdentity("SCHEDULER", t, iso)
    ensures NameOf("SCHEDULER", k)
  {
    assert "SCHEDULER" + "_CLIENT_ID" == "SCHEDULER_CLIENT_ID";
    assert "SCHEDULER" + "_MINTED_AT" == "SCHEDULER_MINTED_AT";
  }

  lemma LetterNames(prefix: string, t: Tokens, iso: int -> string, k: string)
    requires |prefix| == 1 && IsPrefix(prefix) && k in ProjectIdentity(prefix, t, iso)
    ensures |k| > 1 && k[0] == prefix[0] && IsLetterSuffix(k[1..])
  {
    LetterName(prefix, "_BEARER");
    LetterName(prefix, "_REFRESH");
    LetterName(prefix, "_EXPECTED_EMAIL");
    LetterName(prefix, "_CLIENT_ID");
    LetterName(prefix, "_MINTED_AT");
  }

  lemma LetterName(prefix: string, suffix: string)
    requires |prefix| == 1 && suffix != ""
    ensures var k := prefix + suffix; |k| > 1 && k[0] == prefix[0] && k[1..] == suffix
  {
  }

  /** What each prefix projects bears one of its names. */
  lemma ProjectedNames(prefix: string, t: Tokens, iso: int -> string, k: string)
    requires IsPrefix(prefix) && k in ProjectIdentity(prefix, t, iso)
    ensures NameOf(prefix, k)
  {
    if prefix == "SCHEDULER" {
      SchedulerNames(t, iso, k);
    } else {
      LetterNames(prefix, t, iso, k);
    }
  }

  /** The variables that a prefix may project. */
  ghost predicate NameOf(prefix: string, k: string) {
    if prefix == "SCHEDULER" then
      k == "EXPECTED_TEST_ACCOUNT" || k == "SCHEDULER_BEARER" || k == "SCHEDULER_REFRESH_TOKEN"
      || k == "SCHEDULER_CLIENT_ID" || k == "SCHEDULER_MINTED_AT"
    else IsPrefix(prefix) && |k| > 1 && k[0] == prefix[0] && IsLetterSuffix(k[1..])
  }

  lemma NamesDisjoint(p: string, q: string, k: string)
    requires p != q && IsPrefix(p) && IsPrefix(q) && NameOf(p, k)
    ensures !NameOf(q, k)
  {
  }

  ghost predicate Reserved(k: string) {
    k == "SCHEDULER_URL" || k == "D1_DATABASE_ID" || k == "SMOKE_WRANGLER_ENV" || k == "COLUMNS"
  }

  lemma NamesAreSmoke(p: string, k: string)
    requires IsPrefix(p) && NameOf(p, k)
    ensures IsSmokeVar(k) && !IsMicrosoftLetterVar(k) && !Reserved(k)
  {
    if p == "SCHEDULER" {
      assert k[0] == 'S' || k[0] == 'E';
      assert k != "EXPECTED_TEST_ACCOUNT" ==> "SCHEDULER_" <= k;
    } else {
      assert k[1] == '_';
    }
  }

  ghost predicate Names(q: Query, id: (string, string)) {
    forall k | k in Projection(q, id) :: IsPrefix(id.0) && NameOf(id.0, k)
  }

  lemma ProjectionNames(q: Query, id: (string, string))
    ensures Names(q, id)
  {
    if IdentityProblem(q, id).None? {
      var t := q.identities[ResolveSlot(id.1, q.cfg).value];
      forall k | k in ProjectIdentity(id.0, t, q.iso) ensures NameOf(id.0, k) {
        ProjectedNames(id.0, t, q.iso, k);
      }
    }
  }

  /** Every variable of the projections is one of some identity's. */
  lemma {:induction false} ProjectionsFrom(q: Query, ids: seq<(string, string)>, k: string)
    requires k in Projections(q, ids)
    ensures exists i | 0 <= i < |ids| ::
      k in Projection(q, ids[i]) && Projections(q, ids)[k] == Projection(q, ids[i])[k]
  {
    var m := |ids| - 1;
    if k in Projection(q, ids[m]) {
      assert Projections(q, ids)[k] == Projection(q, ids[m])[k];
    } else {
      ProjectionsFrom(q, ids[..m], k);
      var i :| 0 <= i < m && k in Projection(q, ids[..m][i])
               && Projections(q, ids[..m])[k] == Projection(q, ids[..m][i])[k];
      assert ids[i] == ids[..m][i];
    }
  }

  lemma ProjectionsAreSmoke(q: Query, ids: seq<(string, string)>, k: string)
    requires k in Projections(q, ids)
    ensures IsSmokeVar(k) && !IsMicrosoftLetterVar(k) && !Reserved(k)
  {
    ProjectionsFrom(q, ids, k);
    var i :| 0 <= i < |ids| && k in Projection(q, ids[i]);
    ProjectionNames(q, ids[i]);
    NamesAreSmoke(ids[i].0, k);
  }

  lemma InviteeNames(k: string)
    requires k == "INVITEE_A_EMAIL" || k == "INVITEE_B_EMAIL"
    ensures IsSmokeVar(k) && !IsMicrosoftLetterVar(k) && !Reserved(k)
  {
    assert "INVITEE_" <= k && k[0] == 'I';
  }

  lemma AttendeeName(k: string)
    requires k == "MS2_ATTENDEE_EMAIL"
    ensures IsSmokeVar(k) && !IsMicrosoftLetterVar(k) && !Reserved(k)
  {
    assert k[0] == 'M' && k[2] == '2';
  }

  lemma RunDayName(k: string)
    requires k == "POLL_SMOKE_ALLOW_ANY_DAY"
    ensures IsSmokeVar(k) && !IsMicrosoftLetterVar(k) && !Reserved(k)
  {
    assert k[0] == 'P';
  }

  lemma ExtrasAreSmoke(q: Query, m: Mode, k: string)
    requires k in Extras(q, m)
    ensures IsSmokeVar(k) && !IsMicrosoftLetterVar(k) && !Reserved(k)
  {
    if k in RunDayVar(q) {
      RunDayName(k);
    } else if k in InviteeVars(q) {
      InviteeNames(k);
    } else {
      AttendeeName(k);
    }
  }

  lemma ReservedAreSmoke(k: string)
    requires Reserved(k)
    ensures !IsMicrosoftLetterVar(k) && (IsSmokeVar(k) || k == "COLUMNS")
  {
    assert k == "SCHEDULER_URL" ==> "SCHEDULER_" <= k && k[0] == 'S' && k[1] == 'C';
    assert k == "SMOKE_WRANGLER_ENV" ==> "SMOKE_" <= k && k[0] == 'S' && k[1] == 'M';
    assert k == "D1_DATABASE_ID" ==> k[0] == 'D';
    assert k == "COLUMNS" ==> k[0] == 'C';
  }

  lemma PlacedNames(q: Query, m: Mode, t: Target, k: string)
    requires k in Placed(q, m, t)
    ensures (IsSmokeVar(k) || k == "COLUMNS") && !IsMicrosoftLetterVar(k)
    ensures Reserved(k) ==> Placed(q, m, t)[k] == TargetVars(t)[k]
  {
    var x, y, z := TargetVars(t), Projections(q, m.identities), Extras(q, m);
    if k in z {
      ExtrasAreSmoke(q, m, k);
    } else if k in y {
      ProjectionsAreSmoke(q, m.identities, k);
    } else {
      ReservedAreSmoke(k);
    }
  }

  /**
  Every composed environment: smoke variables are exactly the placed ones, other variables but COLUMNS
  are as inherited, no MS_<L>_* variable is left, and the target's four variables are the target's.
  */
  lemma ComposedEnvironment(q: Query, base: Env, k: string)
    requires Compose(q, base).Composed?
    ensures FindMode(q.harness.modes, q.mode).Some? && q.target in q.targets
    ensures var m, t := FindMode(q.harness.modes, q.mode).value, q.targets[q.target];
      var env := Compose(q, base).env;
      && (IsSmokeVar(k) ==> Get(env, k) == Get(Placed(q, m, t), k) && (k in env <==> k in Placed(q, m, t)))
      && (!IsSmokeVar(k) && k != "COLUMNS" ==> Get(env, k) == Get(base, k) && (k in env <==> k in base))
      && (IsMicrosoftLetterVar(k) ==> k !in env)
      && (Reserved(k) ==> k in env && env[k] == TargetVars(t)[k])
  {
    var m, t := FindMode(q.harness.modes, q.mode).value, q.targets[q.target];
    if k in Placed(q, m, t) {
      PlacedNames(q, m, t, k);
    }
    if k == "COLUMNS" {
      assert k in TargetVars(t);
    }
  }

  /** Two environments that differ in smoke variables, and COLUMNS, only. */
  ghost predicate SameButColumns(a: Env, b: Env) {
    forall k :: !IsSmokeVar(k) && k != "COLUMNS" ==> (k in a <==> k in b) && (k in a ==> a[k] == b[k])
  }

  lemma ScrubHidesRest(a: Env, b: Env, placed: Env)
    requires SameButColumns(a, b) && "COLUMNS" in placed
    ensures Scrub(a) + placed == Scrub(b) + placed
  {
  }

  lemma LateProblemSame(q: Query, m: Mode, t: Target, a: Env, b: Env)
    requires SameButColumns(a, b)
    ensures LateProblem(q, m, t, a) == LateProblem(q, m, t, b)
  {
    ApiTokenIsNotSmoke();
    TurnstileIsNotSmoke(t);
    assert API_TOKEN[1] != "COLUMNS"[1];
    assert TurnstileVar(t)[0] != "COLUMNS"[0];
  }

  lemma InheritedStays(q: Query, base: Env, k: string)
    requires Compose(q, base).Composed?
    ensures var env := Compose(q, base).env;
      !IsSmokeVar(k) && k != "COLUMNS" ==> (k in env <==> k in base) && (k in env ==> env[k] == base[k])
  {
    var m, t := FindMode(q.harness.modes, q.mode).value, q.targets[q.target];
    if k in Placed(q, m, t) {
      PlacedNames(q, m, t, k);
    }
  }

  /**
  Noninterference: whatever smoke variables the shell holds, the run is the same, or the same problem
  stops it.
  */
  lemma Noninterference(q: Query, a: Env, b: Env)
    requires SameButColumns(a, b)
    ensures Compose(q, a) == Compose(q, b)
  {
    if FindMode(q.harness.modes, q.mode).Some? && q.target in q.targets {
      var m, t := FindMode(q.harness.modes, q.mode).value, q.targets[q.target];
      LateProblemSame(q, m, t, a, b);
      assert "COLUMNS" in TargetVars(t);
      ScrubHidesRest(a, b, Placed(q, m, t));
    }
  }

  /** A run's environment leaves no trace: composing from inside it is composing from the shell. */
  lemma ComposingTwiceForgets(q: Query, again: Query, base: Env)
    requires Compose(q, base).Composed?
    ensures Compose(again, Compose(q, base).env) == Compose(again, base)
  {
    var env := Compose(q, base).env;
    forall k
      ensures !IsSmokeVar(k) && k != "COLUMNS" ==> (k in env <==> k in base) && (k in env ==> env[k] == base[k])
    {
      InheritedStays(q, base, k);
    }
    Noninterference(again, env, base);
  }

  // ----- The order of the identities does not matter

  ghost predicate DistinctPrefixes(ids: seq<(string, string)>) {
    forall i, j | 0 <= i < j < |ids| :: ids[i].0 != ids[j].0
  }

  lemma ProjectionsDisjoint(q: Query, a: (string, string), b: (string, string), k: string)
    requires a.0 != b.0 && k in Projection(q, a)
    ensures k !in Projection(q, b)
  {
    ProjectionNames(q, a);
    ProjectionNames(q, b);
    if IsPrefix(b.0) {
      NamesDisjoint(a.0, b.0, k);
    }
  }

  /** With distinct prefixes, each identity's variables get through as projected. */
  lemma {:induction false} ProjectionsKeep(q: Query, ids: seq<(string, string)>, i: nat, k: string)
    requires DistinctPrefixes(ids) && i < |ids| && k in Projection(q, ids[i])
    ensures k in Projections(q, ids) && Projections(q, ids)[k] == Projection(q, ids[i])[k]
  {
    var m := |ids| - 1;
    if i < m {
      ProjectionsKeep(q, ids[..m], i, k);
      assert ids[i].0 != ids[m].0;
      ProjectionsDisjoint(q, ids[i], ids[m], k);
    }
  }

  lemma ProjectionsWithin(q: Query, xs: seq<(string, string)>, ys: seq<(string, string)>, k: string)
    requires DistinctPrefixes(ys) && forall id | id in xs :: id in ys
    requires k in Projections(q, xs)
    ensures k in Projections(q, ys) && Projections(q, ys)[k] == Projections(q, xs)[k]
  {
    ProjectionsFrom(q, xs, k);
    var i :| 0 <= i < |xs| && k in Projection(q, xs[i]) && Projections(q, xs)[k] == Projection(q, xs[i])[k];
    assert xs[i] in ys;
    var j :| 0 <= j < |ys| && ys[j] == xs[i];
    ProjectionsKeep(q, ys, j, k);
  }

  /** Projections for distinct prefixes commute: any order of the same identities gives the same variables. */
  lemma ProjectionsCommute(q: Query, xs: seq<(string, string)>, ys: seq<(string, string)>)
    requires DistinctPrefixes(xs) && DistinctPrefixes(ys) && forall id :: id in xs <==> id in ys
    ensures Projections(q, xs) == Projections(q, ys)
  {
    forall k ensures k in Projections(q, xs) <==> k in Projections(q, ys) {
      if k in Projections(q, xs) { ProjectionsWithin(q, xs, ys, k); }
      if k in Projections(q, ys) { ProjectionsWithin(q, ys, xs, k); }
    }
    forall k | k in Projections(q, xs) ensures Projections(q, xs)[k] == Projections(q, ys)[k] {
      ProjectionsWithin(q, xs, ys, k);
    }
  }
}
