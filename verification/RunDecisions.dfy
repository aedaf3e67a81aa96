/**
Whether bin/_smoke_registry.py composes a run: every cause that stops it, which one is reported, and
what the command line of a run is.
*/
module RunDecisions {
  import opened Wrappers
  import opened Text
  import opened IdentityTokens
  import opened RunnerConfig
  import opened Registry
  import opened ComposedRuns

  // ----- The causes

  /** The first mode of the harness with this name. */
  ghost predicate IsMode(q: Query, m: Mode) {
    exists i :: 0 <= i < |q.harness.modes| && q.harness.modes[i] == m && m.name == q.mode
      && forall j | 0 <= j < i :: q.harness.modes[j].name != q.mode
  }

  lemma {:induction false} FindModeFinds(modes: seq<Mode>, name: string)
    ensures match FindMode(modes, name)
            case None => forall i | 0 <= i < |modes| :: modes[i].name != name
            case Some(m) => exists i :: 0 <= i < |modes| && modes[i] == m && m.name == name
                              && forall j | 0 <= j < i :: modes[j].name != name
  {
    if modes != [] && modes[0].name != name {
      FindModeFinds(modes[1..], name);
      var rest := FindMode(modes[1..], name);
      if rest.Some? {
        var i :| 0 <= i < |modes[1..]| && modes[1..][i] == rest.value
                 && forall j | 0 <= j < i :: modes[1..][j].name != name;
        assert modes[i + 1] == rest.value;
        assert forall j | 1 <= j < i + 1 :: modes[j] == modes[1..][j - 1];
      }
    }
  }

  lemma ModeIs(q: Query, m: Mode)
    ensures IsMode(q, m) <==> FindMode(q.harness.modes, q.mode) == Some(m)
  {
    FindModeFinds(q.harness.modes, q.mode);
  }

  /** The configured primary, as it is compared with the letters. */
  function Primary(configured: string): string {
    Lower(Strip(if configured == "" then "a" else configured))
  }

  /** One identity cannot be given: its primary is no letter, its slot is empty, or its prefix is unknown. */
  predicate IdentityCause(q: Query, id: (string, string), p: Problem) {
    match p
    case BadLetter(provider, letter) =>
      && !IsLetter(letter)
      && (|| (id.1 == "google:primary" && provider == "google" && letter == Primary(q.cfg.googlePrimary))
          || (id.1 == "microsoft:primary" && provider == "microsoft" && letter == Primary(q.cfg.microsoftPrimary)))
    case MissingIdentity(slot, prefix) =>
      ResolveSlot(id.1, q.cfg) == Ok(slot) && slot !in q.identities && IsSlot(slot) && prefix == id.0
    case UnknownSlot(slot) => ResolveSlot(id.1, q.cfg) == Ok(slot) && slot !in q.identities && !IsSlot(slot)
    case UnknownPrefix(prefix) =>
      && ResolveSlot(id.1, q.cfg).Ok? && ResolveSlot(id.1, q.cfg).value in q.identities
      && prefix == id.0 && prefix != "SCHEDULER" && prefix != "A" && prefix != "B" && prefix != "C"
    case _ => false
  }

  ghost predicate NoCause(q: Query, id: (string, string)) {
    forall p :: !IdentityCause(q, id, p)
  }

  lemma IdentityCauseIff(q: Query, id: (string, string))
    ensures NoCause(q, id) <==> IdentityProblem(q, id).None?
    ensures forall p :: IdentityCause(q, id, p) <==> IdentityProblem(q, id) == Some(p)
  {
    assert "google:primary"[0] != "microsoft:primary"[0];
    forall p ensures IdentityCause(q, id, p) <==> IdentityProblem(q, id) == Some(p) {
    }
    if IdentityProblem(q, id).Some? {
      assert IdentityCause(q, id, IdentityProblem(q, id).value);
    }
  }

  /** The cause is that of the first identity that has one. */
  ghost predicate FirstCause(q: Query, ids: seq<(string, string)>, p: Problem) {
    exists i :: 0 <= i < |ids| && IdentityCause(q, ids[i], p) && forall j | 0 <= j < i :: NoCause(q, ids[j])
  }

  lemma FirstCauseSnoc(q: Query, before: seq<(string, string)>, id: (string, string), p: Problem)
    ensures FirstCause(q, before + [id], p) <==>
      FirstCause(q, before, p) || ((forall i | 0 <= i < |before| :: NoCause(q, before[i])) && IdentityCause(q, id, p))
  {
    var ids := before + [id];
    assert forall i | 0 <= i < |before| :: ids[i] == before[i];
    assert ids[|before|] == id;
    if FirstCause(q, before, p) {
      var i :| 0 <= i < |before| && IdentityCause(q, before[i], p) && forall j | 0 <= j < i :: NoCause(q, before[j]);
      assert IdentityCause(q, ids[i], p);
    }
    if FirstCause(q, ids, p) {
      var i :| 0 <= i < |ids| && IdentityCause(q, ids[i], p) && forall j | 0 <= j < i :: NoCause(q, ids[j]);
      if i < |before| {
        assert IdentityCause(q, before[i], p);
      } else {
        assert forall j | 0 <= j < |before| :: NoCause(q, ids[j]);
      }
    }
  }

  lemma {:induction false} FirstCauseIff(q: Query, ids: seq<(string, string)>, p: Problem)
    ensures FirstCause(q, ids, p) <==> IdentitiesProblem(q, ids) == Some(p)
    ensures IdentitiesProblem(q, ids).None? <==> forall i | 0 <= i < |ids| :: NoCause(q, ids[i])
  {
    if ids != [] {
      var before, id := ids[..|ids| - 1], ids[|ids| - 1];
      assert ids == before + [id];
      FirstCauseIff(q, before, p);
      IdentityCauseIff(q, id);
      FirstCauseSnoc(q, before, id, p);
      assert forall i | 0 <= i < |before| :: ids[i] == before[i];
    }
  }

  predicate NeedsThing(q: Query, m: Mode, thing: string) {
    || thing in q.harness.needs || thing in m.needs
    || (thing == "d1" && q.harness.name == "ms-smoke" && RunsLevel(q, m, "5"))
  }

  predicate Absent(base: Env, k: string) {
    k in base ==> base[k] == ""
  }

  /** What must be the case for a run of mode `m` against target `t` to be stopped by `p`. */
  ghost predicate ModeCause(q: Query, m: Mode, t: Target, base: Env, p: Problem) {
    match p
    case UnknownMode => false
    case UnknownTarget => false
    case WrongTarget => q.target !in m.targets
    case ProviderNotHosted(provider) => m.provider == Some(provider) && provider !in t.providers
    case NoAttendee => q.harness.name == "ms-smoke" && RunsLevel(q, m, "6") && Strip(q.cfg.microsoftAttendee) == ""
    case NoInvitees =>
      q.harness.name == "poll-smoke" && (Strip(InviteeA(q.cfg)) == "" || Strip(InviteeB(q.cfg)) == "")
    case NoApiToken => NeedsThing(q, m, "d1") && Absent(base, "CLOUDFLARE_API_TOKEN")
    case NoTurnstile(name) =>
      && NeedsThing(q, m, "turnstile") && Absent(base, name)
      && name == "TURNSTILE_SECRET_" + Upper(t.wranglerEnv)
    case RunDay => q.harness.runDays == Some("mon-thu") && !q.monToThu && !q.overrideRunDay
    case _ => FirstCause(q, m.identities, p)
  }

  ghost predicate Cause(q: Query, base: Env, p: Problem) {
    match p
    case UnknownMode => forall m :: !IsMode(q, m)
    case UnknownTarget => (exists m :: IsMode(q, m)) && q.target !in q.targets
    case _ => exists m :: IsMode(q, m) && q.target in q.targets && ModeCause(q, m, q.targets[q.target], base, p)
  }

  /** The order in which causes are looked for: the target before the identities, the shell near the end. */
  function Stage(p: Problem): nat {
    match p
    case UnknownMode => 0
    case UnknownTarget => 1
    case WrongTarget => 2
    case ProviderNotHosted(_) => 3
    case NoAttendee => 5
    case NoInvitees => 6
    case NoApiToken => 7
    case NoTurnstile(_) => 8
    case RunDay => 9
    case _ => 4
  }

  // ----- The decision

  lemma LevelsSelected(q: Query, m: Mode, level: string)
    ensures level in EffectiveLevels(q, m) <==> RunsLevel(q, m, level)
  {
  }

  lemma NeedsAre(q: Query, m: Mode, thing: string)
    ensures thing in Needs(q, m) <==> NeedsThing(q, m, thing)
  {
    LevelsSelected(q, m, "5");
    assert "d1" == thing || "d1" != thing;
  }

  lemma IdentitiesDecide(q: Query, m: Mode)
    ensures forall p :: FirstCause(q, m.identities, p) <==> IdentitiesProblem(q, m.identities) == Some(p)
  {
    forall p ensures FirstCause(q, m.identities, p) <==> IdentitiesProblem(q, m.identities) == Some(p) {
      FirstCauseIff(q, m.identities, p);
    }
  }

  /** `p` stops the run, and nothing that is looked for earlier does. */
  ghost predicate IsFirst(q: Query, m: Mode, t: Target, base: Env, p: Problem) {
    ModeCause(q, m, t, base, p) && forall r | ModeCause(q, m, t, base, r) :: Stage(p) <= Stage(r)
  }

  /** Nothing about the target stops the run, nor any identity. */
  ghost predicate TargetFits(q: Query, m: Mode, t: Target) {
    q.target in m.targets && (m.provider.Some? ==> m.provider.value in t.providers)
  }

  lemma TargetCauses(q: Query, m: Mode, t: Target, base: Env)
    ensures TargetFits(q, m, t) <==> forall r | ModeCause(q, m, t, base, r) :: Stage(r) >= 4
    ensures q.target in m.targets <==> !ModeCause(q, m, t, base, WrongTarget)
    ensures m.provider.Some? ==>
      (m.provider.value !in t.providers <==> ModeCause(q, m, t, base, ProviderNotHosted(m.provider.value)))
  {
    if m.provider.Some? {
      assert ModeCause(q, m, t, base, ProviderNotHosted(m.provider.value)) <==> m.provider.value !in t.providers;
    }
    assert ModeCause(q, m, t, base, WrongTarget) <==> q.target !in m.targets;
  }

  lemma IdentityCauses(q: Query, m: Mode, t: Target, base: Env)
    ensures IdentitiesProblem(q, m.identities).None? <==> forall r | ModeCause(q, m, t, base, r) :: Stage(r) != 4
    ensures forall p | IdentitiesProblem(q, m.identities) == Some(p) :: ModeCause(q, m, t, base, p) && Stage(p) == 4
  {
    IdentitiesDecide(q, m);
    if IdentitiesProblem(q, m.identities).Some? {
      var p := IdentitiesProblem(q, m.identities).value;
      assert FirstCause(q, m.identities, p);
      IdentityStage(q, m.identities, p);
      assert ModeCause(q, m, t, base, p);
    }
  }

  lemma IdentityStage(q: Query, ids: seq<(string, string)>, p: Problem)
    requires FirstCause(q, ids, p)
    ensures Stage(p) == 4
  {
  }

  lemma EarlyFound(q: Query, m: Mode, t: Target, base: Env)
    ensures match EarlyProblem(q, m, t)
            case Some(p) => IsFirst(q, m, t, base, p)
            case None => forall r | ModeCause(q, m, t, base, r) :: Stage(r) >= 7
  {
    TargetCauses(q, m, t, base);
    IdentityCauses(q, m, t, base);
    LevelsSelected(q, m, "6");
    if TargetFits(q, m, t) && IdentitiesProblem(q, m.identities).None? {
      assert ModeCause(q, m, t, base, NoAttendee) <==> NeedsAttendee(q, m) && Strip(q.cfg.microsoftAttendee) == "";
      assert ModeCause(q, m, t, base, NoInvitees) <==>
        NeedsInvitees(q) && (Strip(q.cfg.PollInviteeA()) == "" || Strip(q.cfg.PollInviteeB()) == "");
    }
  }

  lemma LateFound(q: Query, m: Mode, t: Target, base: Env)
    requires EarlyProblem(q, m, t).None?
    ensures match LateProblem(q, m, t, base)
            case Some(p) => IsFirst(q, m, t, base, p)
            case None => forall r :: !ModeCause(q, m, t, base, r)
  {
    EarlyFound(q, m, t, base);
    NeedsAre(q, m, "d1");
    NeedsAre(q, m, "turnstile");
  }

  lemma OneCausePerStage(q: Query, m: Mode, t: Target, base: Env, p: Problem, r: Problem)
    requires ModeCause(q, m, t, base, p) && ModeCause(q, m, t, base, r) && Stage(p) == Stage(r)
    ensures p == r
  {
    IdentitiesDecide(q, m);
  }

  lemma ModeDecides(q: Query, m: Mode, t: Target, base: Env, p: Problem)
    ensures var early, late := EarlyProblem(q, m, t), LateProblem(q, m, t, base);
      var found := if early.Some? then early else late;
      && (found == Some(p) <==> IsFirst(q, m, t, base, p))
      && (found == None <==> forall r :: !ModeCause(q, m, t, base, r))
  {
    EarlyFound(q, m, t, base);
    if EarlyProblem(q, m, t).None? {
      LateFound(q, m, t, base);
    }
    var early, late := EarlyProblem(q, m, t), LateProblem(q, m, t, base);
    var found := if early.Some? then early else late;
    if found.Some? && IsFirst(q, m, t, base, p) {
      OneCausePerStage(q, m, t, base, p, found.value);
    }
  }

  lemma KnownCauses(q: Query, m: Mode, base: Env)
    requires FindMode(q.harness.modes, q.mode) == Some(m) && q.target in q.targets
    ensures forall r :: Cause(q, base, r) <==> ModeCause(q, m, q.targets[q.target], base, r)
  {
    forall n ensures IsMode(q, n) <==> n == m { ModeIs(q, n); }
    assert IsMode(q, m);
  }

  lemma UnknownCauses(q: Query, base: Env)
    requires FindMode(q.harness.modes, q.mode).None? || q.target !in q.targets
    ensures forall r :: Cause(q, base, r) <==>
      r == if FindMode(q.harness.modes, q.mode).None? then UnknownMode else UnknownTarget
  {
    var found := FindMode(q.harness.modes, q.mode);
    forall n ensures IsMode(q, n) <==> found == Some(n) { ModeIs(q, n); }
    if found.Some? {
      assert IsMode(q, found.value);
    }
  }

  /** The problem that is reported is the first cause there is; a run is composed exactly if there is none. */
  lemma FirstCauseDecides(q: Query, base: Env, p: Problem)
    ensures Compose(q, base) == Failed(p) <==>
      Cause(q, base, p) && forall r | Cause(q, base, r) :: Stage(p) <= Stage(r)
    ensures Compose(q, base).Composed? <==> forall r :: !Cause(q, base, r)
  {
    var found := FindMode(q.harness.modes, q.mode);
    if found.None? || q.target !in q.targets {
      UnknownCauses(q, base);
      assert Cause(q, base, if found.None? then UnknownMode else UnknownTarget);
    } else {
      KnownCauses(q, found.value, base);
      ModeDecides(q, found.value, q.targets[q.target], base, p);
    }
  }

  /** The slots that a login command exists for: two providers, three letters. */
  lemma IsSlotIff(slot: string)
    ensures IsSlot(slot) <==>
      || slot == "google:a" || slot == "google:b" || slot == "google:c"
      || slot == "microsoft:a" || slot == "microsoft:b" || slot == "microsoft:c"
  {
    if "google:" <= slot {
      assert slot == "google:" + slot[7..];
    }
    if "microsoft:" <= slot {
      assert slot == "microsoft:" + slot[10..];
    }
    assert forall l: string :: ("google:" + l)[7..] == l;
    assert forall l: string :: ("microsoft:" + l)[10..] == l;
    assert "google:a" == "google:" + "a" && "google:b" == "google:" + "b" && "google:c" == "google:" + "c";
    assert "microsoft:a" == "microsoft:" + "a" && "microsoft:b" == "microsoft:" + "b";
    assert "microsoft:c" == "microsoft:" + "c";
  }

  // ----- The command line

  /** Texts joined by commas. */
  lemma {:induction false} JoinMore(xs: seq<string>, x: string)
    ensures Join([x]) == x
    ensures xs != [] ==> Join(xs + [x]) == Join(xs) + "," + x
  {
    if |xs| > 1 {
      JoinMore(xs[1..], x);
      assert (xs + [x])[1..] == xs[1..] + [x];
    } else if |xs| == 1 {
      assert (xs + [x])[1..] == [x];
    }
  }

  /** The levels that are run when the caller selects none. */
  function Defaults(q: Query, m: Mode): seq<string> {
    match (m.levels, q.harness.defaultLevels)
    case (Some(ls), _) => ls
    case (None, Some(ls)) => ls
    case (None, None) => q.harness.levels
  }

  /** A selection is passed on exactly if it says something: not empty, not the default, and there are levels. */
  predicate PassesLevels(q: Query, m: Mode) {
    q.levels.Some? && q.levels.value != [] && Defaults(q, m) != [] && q.levels.value != Defaults(q, m)
  }

  predicate PassesProvider(q: Query, m: Mode) {
    q.harness.providerFlag.Some? && m.provider.Some?
  }

  /** The command line of a run, part by part: script, the mode's own arguments, provider, extra arguments, levels. */
  lemma CommandLine(q: Query, m: Mode, base: Env)
    returns (start: seq<string>, provider: seq<string>, levels: seq<string>)
    requires Compose(q, base).Composed? && FindMode(q.harness.modes, q.mode) == Some(m)
    ensures Compose(q, base).argv == start + provider + q.extraArgs + levels
    ensures |start| == 3 + |m.args| && start[3..] == m.args
    ensures start[0] == "uv" && start[1] == "run" && start[2] == q.harness.script
    ensures if PassesProvider(q, m)
            then |provider| == 2 && Some(provider[0]) == q.harness.providerFlag && Some(provider[1]) == m.provider
            else provider == []
    ensures if PassesLevels(q, m)
            then |levels| == 2 && levels[0] == q.harness.levelsFlag && levels[1] == Join(q.levels.value)
            else levels == []
  {
    start := ["uv", "run", q.harness.script] + m.args;
    provider := if PassesProvider(q, m) then [q.harness.providerFlag.value, m.provider.value] else [];
    levels := if PassesLevels(q, m) then [q.harness.levelsFlag, Join(q.levels.value)] else [];
    assert DefaultLevels(q.harness, m) == Defaults(q, m);
  }

  // ----- The smoke variables

  const EXACT: set<string> := {
    "EXPECTED_TEST_ACCOUNT", "D1_DATABASE_ID", "MS2_ATTENDEE_EMAIL", "POLL_SMOKE_ALLOW_ANY_DAY",
    "POLL_SMOKE_DEADLINE_HOURS", "NUDGE_INVITEE_EMAIL", "EDIT_C_EMAIL", "NUDGE_TOKEN",
    "UNHAPPY_A_TOKEN", "UNHAPPY_B_TOKEN", "HIDDEN_A_TOKEN", "HIDDEN_B_TOKEN",
    "GUESTWAIT_A_TOKEN", "GUESTWAIT_B_TOKEN", "BOOKBEST_A_TOKEN",
    "EDIT_A_TOKEN", "EDIT_B_TOKEN", "EDIT_C_TOKEN", "EDIT_D_TOKEN" }

  const SUFFIXES: set<string> :=
    { "_BEARER", "_REFRESH", "_EXPECTED_EMAIL", "_CLIENT_ID", "_MINTED_AT", "_HOME_TZ" }

  /** A letter's variable: a letter and one of the suffixes. */
  ghost predicate IsLetterName(s: string) {
    exists suffix :: suffix in SUFFIXES && (s == "A" + suffix || s == "B" + suffix || s == "C" + suffix)
  }

  lemma LetterVarIff(s: string)
    ensures IsLetterVar(s) <==> IsLetterName(s)
  {
    if IsLetterVar(s) {
      var suffix := s[1..];
      assert suffix in SUFFIXES && s == [s[0]] + suffix;
    }
    if suffix :| suffix in SUFFIXES && (s == "A" + suffix || s == "B" + suffix || s == "C" + suffix) {
      assert s[1..] == suffix;
    }
  }

  lemma ExactIff(s: string)
    ensures IsExactSmokeVar(s) <==> s in EXACT
  {
  }

  lemma MicrosoftVarIff(s: string)
    ensures IsMicrosoftLetterVar(s) <==> exists name :: IsLetterName(name) && s == "MS_" + name
  {
    if "MS_" <= s {
      LetterVarIff(s[3..]);
      BehindPrefix(s);
    }
    forall name | IsLetterName(name) && s == "MS_" + name ensures "MS_" <= s && s[3..] == name {
      BehindPrefix(s);
    }
  }

  lemma BehindPrefix(s: string)
    ensures "MS_" <= s ==> s == "MS_" + s[3..]
    ensures forall name :: s == "MS_" + name ==> "MS_" <= s && s[3..] == name
  {
  }

  /** The variables that are scrubbed: the listed names, three families, and each letter's own, plain or Microsoft. */
  lemma SmokeVarIff(s: string)
    ensures IsSmokeVar(s) <==>
      || s in EXACT || "SCHEDULER_" <= s || "SMOKE_" <= s || "INVITEE_" <= s
      || IsLetterName(s) || (exists name :: IsLetterName(name) && s == "MS_" + name)
  {
    ExactIff(s);
    LetterVarIff(s);
    MicrosoftVarIff(s);
  }
}
