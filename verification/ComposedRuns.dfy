/**
What a composed run of bin/_smoke_registry.py is given, value by value, and when there is a run at
all: every reason that stops it, and which comes first.
*/
module ComposedRuns {
  import opened Wrappers
  import opened Text
  import opened IdentityTokens
  import opened RunnerConfig
  import opened Registry
  import opened RegistryLaws

  // ----- The variables of an identity

  function BearerVar(prefix: string): string {
    prefix + "_BEARER"
  }

  function RefreshVar(prefix: string): string {
    if prefix == "SCHEDULER" then "SCHEDULER_REFRESH_TOKEN" else prefix + "_REFRESH"
  }

  function EmailVar(prefix: string): string {
    if prefix == "SCHEDULER" then "EXPECTED_TEST_ACCOUNT" else prefix + "_EXPECTED_EMAIL"
  }

  function ClientVar(prefix: string): string {
    prefix + "_CLIENT_ID"
  }

  function MintVar(prefix: string): string {
    prefix + "_MINTED_AT"
  }

  predicate Has(env: Env, k: string, v: string) {
    k in env && env[k] == v
  }

  /** The environment holds exactly this identity under the prefix. */
  predicate Carries(env: Env, prefix: string, t: Tokens, iso: int -> string) {
    && Has(env, BearerVar(prefix), t.bearer) && Has(env, RefreshVar(prefix), t.refresh)
    && Has(env, EmailVar(prefix), t.email)
    && (if t.clientId == DEFAULT_CLIENT_ID then ClientVar(prefix) !in env else Has(env, ClientVar(prefix), t.clientId))
    && (if t.mintedAt.None? then MintVar(prefix) !in env else Has(env, MintVar(prefix), iso(t.mintedAt.value)))
  }

  lemma LetterVarsDiffer(prefix: string)
    requires IsPrefix(prefix) && prefix != "SCHEDULER"
    ensures var b, r, e, c, m :=
        BearerVar(prefix), RefreshVar(prefix), EmailVar(prefix), ClientVar(prefix), MintVar(prefix);
      && b != r && b != e && b != c && b != m && r != e && r != c && r != m && e != c && e != m && c != m
  {
    assert BearerVar(prefix)[2] == 'B' && RefreshVar(prefix)[2] == 'R' && EmailVar(prefix)[2] == 'E';
    assert ClientVar(prefix)[2] == 'C' && MintVar(prefix)[2] == 'M';
  }

  lemma SchedulerVarsDiffer()
    ensures BearerVar("SCHEDULER") == "SCHEDULER_BEARER" && ClientVar("SCHEDULER") == "SCHEDULER_CLIENT_ID"
    ensures MintVar("SCHEDULER") == "SCHEDULER_MINTED_AT"
    ensures var b, r, e, c, m :=
        "SCHEDULER_BEARER", "SCHEDULER_REFRESH_TOKEN", "EXPECTED_TEST_ACCOUNT",
        "SCHEDULER_CLIENT_ID", "SCHEDULER_MINTED_AT";
      && b != r && b != e && b != c && b != m && r != e && r != c && r != m && e != c && e != m && c != m
  {
    assert "SCHEDULER_BEARER"[10] == 'B' && "SCHEDULER_REFRESH_TOKEN"[10] == 'R' && "EXPECTED_TEST_ACCOUNT"[0] == 'E';
    assert "SCHEDULER_CLIENT_ID"[10] == 'C' && "SCHEDULER_MINTED_AT"[10] == 'M';
  }

  lemma LetterProjectionCarries(prefix: string, t: Tokens, iso: int -> string)
    requires IsPrefix(prefix) && prefix != "SCHEDULER"
    ensures Carries(ProjectIdentity(prefix, t, iso), prefix, t, iso)
  {
    LetterVarsDiffer(prefix);
  }

  lemma ProjectionCarries(prefix: string, t: Tokens, iso: int -> string)
    requires IsPrefix(prefix)
    ensures Carries(ProjectIdentity(prefix, t, iso), prefix, t, iso)
  {
    if prefix == "SCHEDULER" {
      SchedulerVarsDiffer();
    } else {
      LetterProjectionCarries(prefix, t, iso);
    }
  }

  /** The five names of a prefix. */
  lemma OwnVars(prefix: string)
    requires IsPrefix(prefix)
    ensures NameOf(prefix, BearerVar(prefix)) && NameOf(prefix, RefreshVar(prefix)) && NameOf(prefix, EmailVar(prefix))
    ensures NameOf(prefix, ClientVar(prefix)) && NameOf(prefix, MintVar(prefix))
  {
    if prefix == "SCHEDULER" {
      SchedulerVarsDiffer();
    } else {
      LetterName(prefix, "_BEARER");
      LetterName(prefix, "_REFRESH");
      LetterName(prefix, "_EXPECTED_EMAIL");
      LetterName(prefix, "_CLIENT_ID");
      LetterName(prefix, "_MINTED_AT");
    }
  }

  // ----- Every identity of a run

  predicate IsExtra(k: string) {
    k == "MS2_ATTENDEE_EMAIL" || k == "INVITEE_A_EMAIL" || k == "INVITEE_B_EMAIL" || k == "POLL_SMOKE_ALLOW_ANY_DAY"
  }

  lemma ExtraNamesDiffer()
    ensures "MS2_ATTENDEE_EMAIL"[0] == 'M' && "POLL_SMOKE_ALLOW_ANY_DAY"[0] == 'P'
    ensures "INVITEE_A_EMAIL"[0] == 'I' && "INVITEE_B_EMAIL"[0] == 'I'
    ensures "INVITEE_A_EMAIL"[8] == 'A' && "INVITEE_B_EMAIL"[8] == 'B'
  {
  }

  lemma ExtraIsNoName(prefix: string, k: string)
    requires IsExtra(k) && IsPrefix(prefix)
    ensures !NameOf(prefix, k)
  {
    ExtraNamesDiffer();
  }

  lemma ExtrasNames(q: Query, m: Mode, k: string)
    requires k in Extras(q, m)
    ensures IsExtra(k)
  {
  }

  lemma ExtrasAreNoNames(q: Query, m: Mode, prefix: string, k: string)
    requires IsPrefix(prefix) && NameOf(prefix, k)
    ensures k !in Extras(q, m)
  {
    if k in Extras(q, m) {
      ExtrasNames(q, m, k);
      ExtraIsNoName(prefix, k);
    }
  }

  /** A variable that neither target nor extras give a run comes from the projections, or is not there. */
  lemma FromProjections(q: Query, m: Mode, base: Env, k: string)
    requires Compose(q, base).Composed? && FindMode(q.harness.modes, q.mode) == Some(m)
    requires IsSmokeVar(k) && !Reserved(k) && k !in Extras(q, m)
    ensures var projected, env := Projections(q, m.identities), Compose(q, base).env;
      (k in env <==> k in projected) && (k in projected ==> env[k] == projected[k])
  {
    ComposedEnvironment(q, base, k);
    NotOfTarget(q.targets[q.target], k);
  }

  lemma OnlyOwnProjection(q: Query, ids: seq<(string, string)>, i: nat, k: string)
    requires DistinctPrefixes(ids) && i < |ids| && IsPrefix(ids[i].0) && NameOf(ids[i].0, k)
    ensures var own, all := Projection(q, ids[i]), Projections(q, ids);
      (k in all <==> k in own) && (k in own ==> all[k] == own[k])
  {
    if k in Projections(q, ids) {
      ProjectionsFrom(q, ids, k);
      var j :| 0 <= j < |ids| && k in Projection(q, ids[j]) && Projections(q, ids)[k] == Projection(q, ids[j])[k];
      ProjectionNames(q, ids[j]);
      if i < j {
        assert ids[i].0 != ids[j].0;
        NamesDisjoint(ids[i].0, ids[j].0, k);
      } else if j < i {
        assert ids[j].0 != ids[i].0;
        NamesDisjoint(ids[i].0, ids[j].0, k);
      }
    }
    if k in Projection(q, ids[i]) {
      ProjectionsKeep(q, ids, i, k);
    }
  }

  /** With distinct prefixes, a name of identity `i`'s prefix is there as `i` projects it, or not at all. */
  lemma OnlyOwnName(q: Query, m: Mode, base: Env, i: nat, k: string)
    requires Compose(q, base).Composed? && FindMode(q.harness.modes, q.mode) == Some(m)
    requires DistinctPrefixes(m.identities) && i < |m.identities|
    requires IsPrefix(m.identities[i].0) && NameOf(m.identities[i].0, k)
    ensures var own, env := Projection(q, m.identities[i]), Compose(q, base).env;
      (k in env <==> k in own) && (k in own ==> env[k] == own[k])
  {
    NamesAreSmoke(m.identities[i].0, k);
    ExtrasAreNoNames(q, m, m.identities[i].0, k);
    FromProjections(q, m, base, k);
    OnlyOwnProjection(q, m.identities, i, k);
  }

  lemma {:induction false} EachIdentityFine(q: Query, ids: seq<(string, string)>, i: nat)
    requires IdentitiesProblem(q, ids) == None && i < |ids|
    ensures IdentityProblem(q, ids[i]) == None
  {
    if i < |ids| - 1 {
      EachIdentityFine(q, ids[..|ids| - 1], i);
    }
  }

  /**
  Every composed run with distinct prefixes: under each prefix the environment holds the tokens of
  the slot that the mode names, and nothing left over.
  */
  lemma RunCarriesIdentities(q: Query, m: Mode, base: Env, i: nat)
    requires Compose(q, base).Composed? && FindMode(q.harness.modes, q.mode) == Some(m)
    requires DistinctPrefixes(m.identities) && i < |m.identities|
    ensures var (prefix, spec) := m.identities[i];
      && ResolveSlot(spec, q.cfg).Ok? && ResolveSlot(spec, q.cfg).value in q.identities
      && Carries(Compose(q, base).env, prefix, q.identities[ResolveSlot(spec, q.cfg).value], q.iso)
  {
    var (prefix, spec) := m.identities[i];
    EachIdentityFine(q, m.identities, i);
    var tokens := q.identities[ResolveSlot(spec, q.cfg).value];
    ProjectionCarries(prefix, tokens, q.iso);
    OwnVars(prefix);
    OnlyOwnName(q, m, base, i, BearerVar(prefix));
    OnlyOwnName(q, m, base, i, RefreshVar(prefix));
    OnlyOwnName(q, m, base, i, EmailVar(prefix));
    OnlyOwnName(q, m, base, i, ClientVar(prefix));
    OnlyOwnName(q, m, base, i, MintVar(prefix));
  }

  // ----- Slots

  lemma PrimaryLetter(provider: string, configured: string, letter: string)
    requires IsLetter(letter)
    ensures PrimarySlot(provider, configured) == Ok(provider + ":" + letter) <==>
            Lower(Strip(configured)) == letter || (configured == "" && letter == "a")
  {
    StripTrims("a");
    assert Strip("a") == "a" && Lower("a") == "a" && Strip("") == "" && Lower("") == "";
    var p, l := provider + ":", Lower(Strip(Or(configured, "a")));
    assert (p + l)[|p|..] == l && (p + letter)[|p|..] == letter;
  }

  /** A primary stands for the letter the config names, in either case, and for `a` when it names none. */
  lemma PrimaryIsConfigured(cfg: Config, letter: string)
    requires IsLetter(letter)
    ensures ResolveSlot("google:primary", cfg) == Ok("google:" + letter) <==>
      Lower(Strip(cfg.googlePrimary)) == letter || (cfg.googlePrimary == "" && letter == "a")
    ensures ResolveSlot("microsoft:primary", cfg) == Ok("microsoft:" + letter) <==>
      Lower(Strip(cfg.microsoftPrimary)) == letter || (cfg.microsoftPrimary == "" && letter == "a")
    ensures forall spec | spec != "google:primary" && spec != "microsoft:primary" :: ResolveSlot(spec, cfg) == Ok(spec)
  {
    PrimaryLetter("google", cfg.googlePrimary, letter);
    PrimaryLetter("microsoft", cfg.microsoftPrimary, letter);
    assert "google" + ":" == "google:" && "microsoft" + ":" == "microsoft:";
    assert "google:primary"[0] != "microsoft:primary"[0];
  }

  // ----- The target and the extras

  /** The target's own variables. */
  lemma RunHasTarget(q: Query, base: Env)
    requires Compose(q, base).Composed?
    ensures q.target in q.targets
    ensures var t, env := q.targets[q.target], Compose(q, base).env;
      && Has(env, "SCHEDULER_URL", t.url) && Has(env, "D1_DATABASE_ID", t.dbId)
      && Has(env, "SMOKE_WRANGLER_ENV", t.wranglerEnv) && Has(env, "COLUMNS", "200")
  {
    ComposedEnvironment(q, base, "SCHEDULER_URL");
    ComposedEnvironment(q, base, "D1_DATABASE_ID");
    ComposedEnvironment(q, base, "SMOKE_WRANGLER_ENV");
    ComposedEnvironment(q, base, "COLUMNS");
    TargetValues(q.targets[q.target]);
  }

  lemma TargetValues(t: Target)
    ensures var vars := TargetVars(t);
      && Has(vars, "SCHEDULER_URL", t.url) && Has(vars, "D1_DATABASE_ID", t.dbId)
      && Has(vars, "SMOKE_WRANGLER_ENV", t.wranglerEnv) && Has(vars, "COLUMNS", "200")
  {
    FirstChars();
  }

  lemma FirstChars()
    ensures "SCHEDULER_URL"[0] == 'S' && "SCHEDULER_URL"[1] == 'C' && "D1_DATABASE_ID"[0] == 'D'
    ensures "SMOKE_WRANGLER_ENV"[0] == 'S' && "SMOKE_WRANGLER_ENV"[1] == 'M' && "COLUMNS"[0] == 'C'
  {
  }

  /** The level is selected for the run: by the caller, else by the mode, else by the harness. */
  predicate RunsLevel(q: Query, m: Mode, level: string) {
    match q.levels
    case Some(ls) => level in ls
    case None =>
      match m.levels
      case Some(ls) => level in ls
      case None => match q.harness.defaultLevels case Some(ls) => level in ls case None => level in q.harness.levels
  }

  ghost predicate HasIff(env: Env, k: string, when: bool, v: string) {
    if when then Has(env, k, v) else k !in env
  }

  lemma NotProjected(q: Query, ids: seq<(string, string)>, k: string)
    requires IsExtra(k)
    ensures k !in Projections(q, ids)
  {
    if k in Projections(q, ids) {
      ProjectionsFrom(q, ids, k);
      var i :| 0 <= i < |ids| && k in Projection(q, ids[i]);
      ProjectionNames(q, ids[i]);
      ExtraIsNoName(ids[i].0, k);
    }
  }

  lemma ExtraIsSmoke(k: string)
    requires IsExtra(k)
    ensures IsSmokeVar(k) && !Reserved(k)
  {
    if k == "MS2_ATTENDEE_EMAIL" {
      AttendeeName(k);
    } else if k == "POLL_SMOKE_ALLOW_ANY_DAY" {
      RunDayName(k);
    } else {
      InviteeNames(k);
    }
  }

  lemma NotOfTarget(t: Target, k: string)
    requires !Reserved(k)
    ensures k !in TargetVars(t)
  {
  }

  lemma FromExtras(q: Query, m: Mode, base: Env, k: string)
    requires Compose(q, base).Composed? && FindMode(q.harness.modes, q.mode) == Some(m)
    requires IsSmokeVar(k) && !Reserved(k) && k !in Projections(q, m.identities)
    ensures var env, extras := Compose(q, base).env, Extras(q, m);
      (k in env <==> k in extras) && (k in extras ==> env[k] == extras[k])
  {
    ComposedEnvironment(q, base, k);
    NotOfTarget(q.targets[q.target], k);
    assert Placed(q, m, q.targets[q.target]) ==
      TargetVars(q.targets[q.target]) + Projections(q, m.identities) + Extras(q, m);
  }

  lemma ExtraFrom(q: Query, m: Mode, base: Env, k: string)
    requires Compose(q, base).Composed? && FindMode(q.harness.modes, q.mode) == Some(m) && IsExtra(k)
    ensures var env, extras := Compose(q, base).env, Extras(q, m);
      (k in env <==> k in extras) && (k in extras ==> env[k] == extras[k])
  {
    NotProjected(q, m.identities, k);
    ExtraIsSmoke(k);
    FromExtras(q, m, base, k);
  }

  lemma ExtrasValues(q: Query, m: Mode)
    ensures var extras := Extras(q, m);
      && HasIff(extras, "MS2_ATTENDEE_EMAIL", q.harness.name == "ms-smoke" && RunsLevel(q, m, "6"),
                Strip(q.cfg.microsoftAttendee))
      && HasIff(extras, "INVITEE_A_EMAIL", q.harness.name == "poll-smoke", Strip(InviteeA(q.cfg)))
      && HasIff(extras, "INVITEE_B_EMAIL", q.harness.name == "poll-smoke", Strip(InviteeB(q.cfg)))
      && HasIff(extras, "POLL_SMOKE_ALLOW_ANY_DAY", q.harness.runDays == Some("mon-thu") && q.overrideRunDay, "true")
  {
    ExtraNamesDiffer();
  }

  /** The invitee that was set, or else the Google account B. */
  function InviteeA(cfg: Config): string {
    if cfg.pollInviteeASet != "" then cfg.pollInviteeASet else if "b" in cfg.google then cfg.google["b"] else ""
  }

  /** The invitee that was set, or else the Google account C. */
  function InviteeB(cfg: Config): string {
    if cfg.pollInviteeBSet != "" then cfg.pollInviteeBSet else if "c" in cfg.google then cfg.google["c"] else ""
  }

  /** The extras of a run: each is there exactly when its harness asks for it, with the config's own value. */
  lemma RunHasExtras(q: Query, m: Mode, base: Env)
    requires Compose(q, base).Composed? && FindMode(q.harness.modes, q.mode) == Some(m)
    ensures var env := Compose(q, base).env;
      && HasIff(env, "MS2_ATTENDEE_EMAIL", q.harness.name == "ms-smoke" && RunsLevel(q, m, "6"),
                Strip(q.cfg.microsoftAttendee))
      && HasIff(env, "INVITEE_A_EMAIL", q.harness.name == "poll-smoke", Strip(InviteeA(q.cfg)))
      && HasIff(env, "INVITEE_B_EMAIL", q.harness.name == "poll-smoke", Strip(InviteeB(q.cfg)))
      && HasIff(env, "POLL_SMOKE_ALLOW_ANY_DAY", q.harness.runDays == Some("mon-thu") && q.overrideRunDay, "true")
  {
    ExtraFrom(q, m, base, "MS2_ATTENDEE_EMAIL");
    ExtraFrom(q, m, base, "INVITEE_A_EMAIL");
    ExtraFrom(q, m, base, "INVITEE_B_EMAIL");
    ExtraFrom(q, m, base, "POLL_SMOKE_ALLOW_ANY_DAY");
    ExtrasValues(q, m);
  }
}
