/**
`compose_env` of bin/_smoke_registry.py: the environment of a smoke run is scrubbed of every known
smoke variable and then given the target's, the identities' and the harness's own. What was
exported in the shell before must not reach the run.
*/
module Registry {
  import opened Wrappers
  import opened Text
  import opened IdentityTokens
  import opened RunnerConfig

  // ----- Which variables are smoke variables

  predicate IsLetterSuffix(s: string) {
    || s == "_BEARER" || s == "_REFRESH" || s == "_EXPECTED_EMAIL"
    || s == "_CLIENT_ID" || s == "_MINTED_AT" || s == "_HOME_TZ"
  }

  predicate IsExactSmokeVar(s: string) {
    || s == "EXPECTED_TEST_ACCOUNT" || s == "D1_DATABASE_ID" || s == "MS2_ATTENDEE_EMAIL"
    || s == "POLL_SMOKE_ALLOW_ANY_DAY" || s == "POLL_SMOKE_DEADLINE_HOURS"
    || s == "NUDGE_INVITEE_EMAIL" || s == "EDIT_C_EMAIL" || s == "NUDGE_TOKEN"
    || s == "UNHAPPY_A_TOKEN" || s == "UNHAPPY_B_TOKEN" || s == "HIDDEN_A_TOKEN" || s == "HIDDEN_B_TOKEN"
    || s == "GUESTWAIT_A_TOKEN" || s == "GUESTWAIT_B_TOKEN" || s == "BOOKBEST_A_TOKEN"
    || s == "EDIT_A_TOKEN" || s == "EDIT_B_TOKEN" || s == "EDIT_C_TOKEN" || s == "EDIT_D_TOKEN"
  }

  /** `A_*`, `B_*` and `C_*`, with a closed set of suffixes. */
  predicate IsLetterVar(s: string) {
    |s| > 1 && (s[0] == 'A' || s[0] == 'B' || s[0] == 'C') && IsLetterSuffix(s[1..])
  }

  /** `MS_A_*`, `MS_B_*` and `MS_C_*`. */
  predicate IsMicrosoftLetterVar(s: string) {
    "MS_" <= s && IsLetterVar(s[3..])
  }

  predicate IsSmokeVar(s: string) {
    || IsExactSmokeVar(s)
    || "SCHEDULER_" <= s || "SMOKE_" <= s || "INVITEE_" <= s
    || IsLetterVar(s) || IsMicrosoftLetterVar(s)
  }

  // ----- Harnesses, modes and targets

  datatype Mode = Mode(
    name: string, args: seq<string>, identities: seq<(string, string)>, targets: seq<string>,
    needs: set<string>, levels: Option<seq<string>>, provider: Option<string>)

  datatype Harness = Harness(
    name: string, script: string, modes: seq<Mode>, levels: seq<string>, defaultLevels: Option<seq<string>>,
    levelsFlag: string, needs: set<string>, runDays: Option<string>, providerFlag: Option<string>)

  datatype Target = Target(url: string, dbId: string, wranglerEnv: string, providers: seq<string>)

  /** Why no run is composed: the first two rows are programming errors, the rest block the run. */
  datatype Problem =
    | UnknownMode | UnknownTarget | UnknownPrefix(prefix: string) | UnknownSlot(slot: string)
    | WrongTarget | ProviderNotHosted(provider: string) | BadLetter(provider: string, primary: string)
    | MissingIdentity(slot: string, prefix: string) | NoAttendee | NoInvitees
    | NoApiToken | NoTurnstile(name: string) | RunDay

  datatype Outcome = Composed(argv: seq<string>, env: Env) | Failed(problem: Problem)

  /** Everything a composition is given, except the inherited environment. */
  datatype Query = Query(
    harness: Harness, mode: string, target: string, targets: map<string, Target>,
    identities: map<string, Tokens>, cfg: Config, levels: Option<seq<string>>, overrideRunDay: bool,
    extraArgs: seq<string>, monToThu: bool, iso: int -> string)

  function FindMode(modes: seq<Mode>, name: string): Option<Mode> {
    if modes == [] then None else if modes[0].name == name then Some(modes[0]) else FindMode(modes[1..], name)
  }

  function DefaultLevels(h: Harness, m: Mode): seq<string> {
    if m.levels.Some? then m.levels.value else if h.defaultLevels.Some? then h.defaultLevels.value else h.levels
  }

  function EffectiveLevels(q: Query, m: Mode): seq<string> {
    if q.levels.Some? then q.levels.value else DefaultLevels(q.harness, m)
  }

  // ----- Identities

  function PrimarySlot(provider: string, configured: string): Result<string, Problem> {
    var primary := Lower(Strip(Or(configured, "a")));
    if IsLetter(primary) then Ok(provider + ":" + primary) else Err(BadLetter(provider, primary))
  }

  function ResolveSlot(spec: string, cfg: Config): Result<string, Problem> {
    if spec == "google:primary" then PrimarySlot("google", cfg.googlePrimary)
    else if spec == "microsoft:primary" then PrimarySlot("microsoft", cfg.microsoftPrimary)
    else Ok(spec)
  }

  /** Slots that a login command can be shown for. */
  predicate IsSlot(slot: string) {
    || ("google:" <= slot && IsLetter(slot[|"google:"|..]))
    || ("microsoft:" <= slot && IsLetter(slot[|"microsoft:"|..]))
  }

  predicate IsPrefix(prefix: string) {
    prefix == "SCHEDULER" || prefix == "A" || prefix == "B" || prefix == "C"
  }

  /** The variables of one identity under a prefix; `iso` prints the mint time. */
  function ProjectIdentity(prefix: string, t: Tokens, iso: int -> string): Env
    requires IsPrefix(prefix)
  {
    (if prefix == "SCHEDULER" then
       map["SCHEDULER_BEARER" := t.bearer, "SCHEDULER_REFRESH_TOKEN" := t.refresh, "EXPECTED_TEST_ACCOUNT" := t.email]
     else
       map[prefix + "_BEARER" := t.bearer, prefix + "_REFRESH" := t.refresh, prefix + "_EXPECTED_EMAIL" := t.email])
    + (if t.clientId != DEFAULT_CLIENT_ID then map[prefix + "_CLIENT_ID" := t.clientId] else map[])
    + (if t.mintedAt.Some? then map[prefix + "_MINTED_AT" := iso(t.mintedAt.value)] else map[])
  }

  function IdentityProblem(q: Query, id: (string, string)): Option<Problem> {
    match ResolveSlot(id.1, q.cfg)
    case Err(p) => Some(p)
    case Ok(slot) =>
      if slot !in q.identities then Some(if IsSlot(slot) then MissingIdentity(slot, id.0) else UnknownSlot(slot))
      else if !IsPrefix(id.0) then Some(UnknownPrefix(id.0))
      else None
  }

  /** The first problem among the identities, in order. */
  function IdentitiesProblem(q: Query, ids: seq<(string, string)>): Option<Problem> {
    if ids == [] then None
    else
      var before := IdentitiesProblem(q, ids[..|ids| - 1]);
      if before.Some? then before else IdentityProblem(q, ids[|ids| - 1])
  }

  /** What one identity contributes. */
  function Projection(q: Query, id: (string, string)): Env {
    if IdentityProblem(q, id).Some? then map[]
    else ProjectIdentity(id.0, q.identities[ResolveSlot(id.1, q.cfg).value], q.iso)
  }

  function Projections(q: Query, ids: seq<(string, string)>): Env {
    if ids == [] then map[] else Projections(q, ids[..|ids| - 1]) + Projection(q, ids[|ids| - 1])
  }

  // ----- What is placed, and what stops a run

  function Scrub(base: Env): Env {
    map k | k in base && !IsSmokeVar(k) :: base[k]
  }

  function TargetVars(t: Target): Env {
    map["SCHEDULER_URL" := t.url, "D1_DATABASE_ID" := t.dbId, "SMOKE_WRANGLER_ENV" := t.wranglerEnv, "COLUMNS" := "200"]
  }

  predicate NeedsAttendee(q: Query, m: Mode) {
    q.harness.name == "ms-smoke" && "6" in EffectiveLevels(q, m)
  }

  predicate NeedsInvitees(q: Query) {
    q.harness.name == "poll-smoke"
  }

  function AttendeeVar(q: Query, m: Mode): Env {
    if NeedsAttendee(q, m) then map["MS2_ATTENDEE_EMAIL" := Strip(q.cfg.microsoftAttendee)] else map[]
  }

  function InviteeVars(q: Query): Env {
    if NeedsInvitees(q) then
      map["INVITEE_A_EMAIL" := Strip(q.cfg.PollInviteeA()), "INVITEE_B_EMAIL" := Strip(q.cfg.PollInviteeB())]
    else map[]
  }

  function RunDayVar(q: Query): Env {
    if q.harness.runDays == Some("mon-thu") && q.overrideRunDay
    then map["POLL_SMOKE_ALLOW_ANY_DAY" := "true"] else map[]
  }

  function Extras(q: Query, m: Mode): Env {
    AttendeeVar(q, m) + InviteeVars(q) + RunDayVar(q)
  }

  function UpperChar(c: char): char {
    if 'a' <= c <= 'z' then c - 'a' + 'A' else c
  }

  function Upper(s: string): string {
    seq(|s|, i requires 0 <= i < |s| => UpperChar(s[i]))
  }

  const API_TOKEN: string := "CLOUDFLARE_API_TOKEN"

  function TurnstileVar(t: Target): string {
    "TURNSTILE_SECRET_" + Upper(t.wranglerEnv)
  }

  function Needs(q: Query, m: Mode): set<string> {
    q.harness.needs + m.needs
    + if q.harness.name == "ms-smoke" && "5" in EffectiveLevels(q, m) then {"d1"} else {}
  }

  /** Problems found before the inherited environment is looked at. */
  function EarlyProblem(q: Query, m: Mode, t: Target): Option<Problem> {
    if q.target !in m.targets then Some(WrongTarget)
    else if m.provider.Some? && m.provider.value !in t.providers then Some(ProviderNotHosted(m.provider.value))
    else if IdentitiesProblem(q, m.identities).Some? then IdentitiesProblem(q, m.identities)
    else if NeedsAttendee(q, m) && Strip(q.cfg.microsoftAttendee) == "" then Some(NoAttendee)
    else if NeedsInvitees(q) && (Strip(q.cfg.PollInviteeA()) == "" || Strip(q.cfg.PollInviteeB()) == "")
    then Some(NoInvitees)
    else None
  }

  function LateProblem(q: Query, m: Mode, t: Target, base: Env): Option<Problem> {
    if "d1" in Needs(q, m) && Get(base, API_TOKEN) == "" then Some(NoApiToken)
    else if "turnstile" in Needs(q, m) && Get(base, TurnstileVar(t)) == "" then Some(NoTurnstile(TurnstileVar(t)))
    else if q.harness.runDays == Some("mon-thu") && !q.monToThu && !q.overrideRunDay then Some(RunDay)
    else None
  }

  function Join(xs: seq<string>): string {
    if xs == [] then "" else if |xs| == 1 then xs[0] else xs[0] + "," + Join(xs[1..])
  }

  function Argv(q: Query, m: Mode): seq<string> {
    ["uv", "run", q.harness.script] + m.args
    + (if q.harness.providerFlag.Some? && m.provider.Some?
       then [q.harness.providerFlag.value, m.provider.value] else [])
    + q.extraArgs
    + (if q.levels.Some? && q.levels.value != []
          && (DefaultLevels(q.harness, m) != [] || (m.levels.Some? && m.levels.value != []))
          && q.levels.value != DefaultLevels(q.harness, m)
       then [q.harness.levelsFlag, Join(q.levels.value)] else [])
  }

  /** Everything a run is given on top of the scrubbed environment. */
  function Placed(q: Query, m: Mode, t: Target): Env {
    TargetVars(t) + Projections(q, m.identities) + Extras(q, m)
  }

  /** The specification: a decision, and a scrubbed environment with a layer that does not depend on it. */
  function Compose(q: Query, base: Env): Outcome {
    match FindMode(q.harness.modes, q.mode)
    case None => Failed(UnknownMode)
    case Some(m) =>
      if q.target !in q.targets then Failed(UnknownTarget)
      else
        var t := q.targets[q.target];
        match EarlyProblem(q, m, t)
        case Some(p) => Failed(p)
        case None =>
          match LateProblem(q, m, t, base)
          case Some(p) => Failed(p)
          case None => Composed(Argv(q, m), Scrub(base) + Placed(q, m, t))
  }

  // ----- The code

  method ComposeEnv(q: Query, base: Env) returns (r: Outcome)
    ensures r == Compose(q, base)
  {
    var found := FindMode(q.harness.modes, q.mode);
    if found.None? {
      return Failed(UnknownMode);
    }
    var m := found.value;
    if q.target !in q.targets {
      return Failed(UnknownTarget);
    }
    var t := q.targets[q.target];
    var env := ScrubAndTarget(base, t);
    if q.target !in m.targets {
      return Failed(WrongTarget);
    }
    if m.provider.Some? && m.provider.value !in t.providers {
      return Failed(ProviderNotHosted(m.provider.value));
    }
    var projected, problem := ProjectAll(q, m.identities, env);
    if problem.Some? {
      return Failed(problem.value);
    }
    env := projected;
    if NeedsAttendee(q, m) && Strip(q.cfg.microsoftAttendee) == "" {
      return Failed(NoAttendee);
    }
    if NeedsInvitees(q) && (Strip(q.cfg.PollInviteeA()) == "" || Strip(q.cfg.PollInviteeB()) == "") {
      return Failed(NoInvitees);
    }
    assert EarlyProblem(q, m, t) == None;
    var late := LateProblem(q, m, t, base);
    if late.Some? {
      return Failed(late.value);
    }
    env := AddExtras(q, m, env);
    MapLayers(Scrub(base), TargetVars(t), Projections(q, m.identities), Extras(q, m));
    return Composed(Argv(q, m), env);
  }

  method ScrubAndTarget(base: Env, t: Target) returns (env: Env)
    ensures env == Scrub(base) + TargetVars(t)
  {
    env := map k | k in base && !IsSmokeVar(k) :: base[k];
    env := env["SCHEDULER_URL" := t.url];
    env := env["D1_DATABASE_ID" := t.dbId];
    env := env["SMOKE_WRANGLER_ENV" := t.wranglerEnv];
    env := env["COLUMNS" := "200"];
  }

  lemma MapLayers(a: Env, b: Env, c: Env, d: Env)
    ensures a + b + c + d == a + (b + c + d)
  {
  }

  method AddInvitees(q: Query, given: Env) returns (env: Env)
    ensures env == given + InviteeVars(q)
  {
    env := given;
    if NeedsInvitees(q) {
      env := env["INVITEE_A_EMAIL" := Strip(q.cfg.PollInviteeA())];
      env := env["INVITEE_B_EMAIL" := Strip(q.cfg.PollInviteeB())];
    }
  }

  method AddExtras(q: Query, m: Mode, given: Env) returns (env: Env)
    ensures env == given + Extras(q, m)
  {
    env := given;
    if NeedsAttendee(q, m) {
      env := env["MS2_ATTENDEE_EMAIL" := Strip(q.cfg.microsoftAttendee)];
    }
    assert env == given + AttendeeVar(q, m);
    env := AddInvitees(q, env);
    ghost var before := env;
    if q.harness.runDays == Some("mon-thu") && q.overrideRunDay {
      env := env["POLL_SMOKE_ALLOW_ANY_DAY" := "true"];
    }
    assert env == before + RunDayVar(q);
    MapLayers(given, AttendeeVar(q, m), InviteeVars(q), RunDayVar(q));
  }

  lemma {:induction false} ProblemStays(q: Query, ids: seq<(string, string)>, n: nat)
    requires n <= |ids| && IdentitiesProblem(q, ids[..n]).Some?
    ensures IdentitiesProblem(q, ids) == IdentitiesProblem(q, ids[..n])
    decreases |ids|
  {
    if n < |ids| {
      assert ids[..|ids| - 1][..n] == ids[..n];
      ProblemStays(q, ids[..|ids| - 1], n);
    } else {
      assert ids[..n] == ids;
    }
  }

  lemma NextProblem(q: Query, ids: seq<(string, string)>, i: nat)
    requires i < |ids| && IdentitiesProblem(q, ids[..i]) == None
    ensures IdentitiesProblem(q, ids[..i + 1]) == IdentityProblem(q, ids[i])
    ensures IdentityProblem(q, ids[i]).Some? ==> IdentitiesProblem(q, ids) == IdentityProblem(q, ids[i])
  {
    assert ids[..i + 1][..i] == ids[..i];
    if IdentityProblem(q, ids[i]).Some? {
      ProblemStays(q, ids, i + 1);
    }
  }

  lemma NextProjection(q: Query, ids: seq<(string, string)>, i: nat)
    requires i < |ids|
    ensures Projections(q, ids[..i + 1]) == Projections(q, ids[..i]) + Projection(q, ids[i])
  {
    assert ids[..i + 1][..i] == ids[..i];
  }

  lemma AddLayer(given: Env, before: Env, vars: Env)
    ensures given + (before + vars) == given + before + vars
  {
  }

  method ProjectOne(q: Query, id: (string, string)) returns (vars: Env, problem: Option<Problem>)
    ensures problem == IdentityProblem(q, id) && vars == Projection(q, id)
  {
    var slot := ResolveSlot(id.1, q.cfg);
    if slot.Err? {
      return map[], Some(slot.error);
    }
    if slot.value !in q.identities {
      return map[], Some(if IsSlot(slot.value) then MissingIdentity(slot.value, id.0) else UnknownSlot(slot.value));
    }
    if !IsPrefix(id.0) {
      return map[], Some(UnknownPrefix(id.0));
    }
    return ProjectIdentity(id.0, q.identities[slot.value], q.iso), None;
  }

  method ProjectAll(q: Query, ids: seq<(string, string)>, given: Env) returns (env: Env, problem: Option<Problem>)
    ensures problem == IdentitiesProblem(q, ids)
    ensures problem.None? ==> env == given + Projections(q, ids)
  {
    env, problem := given, None;
    for i := 0 to |ids|
      invariant IdentitiesProblem(q, ids[..i]) == None && problem == None
      invariant env == given + Projections(q, ids[..i])
    {
      var vars;
      vars, problem := ProjectOne(q, ids[i]);
      NextProblem(q, ids, i);
      NextProjection(q, ids, i);
      AddLayer(given, Projections(q, ids[..i]), vars);
      if problem.Some? {
        return;
      }
      env := env + vars;
    }
    assert ids[..|ids|] == ids;
  }
}
