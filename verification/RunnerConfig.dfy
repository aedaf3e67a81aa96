/**
The smoke runner's config file (bin/_smoke_identity.py): a hand-written TOML printer and the loader
it is paired with. Saving and loading gives the normal form of a config, and loading that again
changes nothing.
*/
module RunnerConfig {
  import opened Wrappers
  import opened Text
  import opened Toml

  datatype Config = Config(
    target: string, provider: string,
    google: map<string, string>, googlePrimary: string,
    microsoft: map<string, string>, microsoftPrimary: string, microsoftAttendee: string,
    pollInviteeASet: string, pollInviteeBSet: string)
  {
    /** The configured invitee, else derived from the Google cast at read time. */
    function PollInviteeA(): string {
      if pollInviteeASet != "" then pollInviteeASet else Get(google, "b")
    }

    function PollInviteeB(): string {
      if pollInviteeBSet != "" then pollInviteeBSet else Get(google, "c")
    }
  }

  datatype Error = MalformedToml | UnknownProvider | BadPrimary

  function Get(m: map<string, string>, k: string): string {
    if k in m then m[k] else ""
  }

  function Or(s: string, default: string): string {
    if s != "" then s else default
  }

  predicate IsProvider(s: string) {
    s == "google" || s == "microsoft"
  }

  predicate IsLetter(s: string) {
    s == "a" || s == "b" || s == "c"
  }

  /** The letters that have an address. */
  function Cast(m: map<string, string>): map<string, string> {
    map k | k in m && IsLetter(k) && m[k] != "" :: m[k]
  }

  // ----- Saving

  /** The primary letter and the cast it implies: a legacy email becomes letter a, unless a is taken. */
  function NormalizeMicrosoftPrimary(cfg: Config): Result<(string, map<string, string>), Error> {
    var raw := Strip(cfg.microsoftPrimary);
    if raw == "" then Ok(("a", cfg.microsoft))
    else if '@' in raw then
      Ok(("a", if Get(cfg.microsoft, "a") == "" then cfg.microsoft["a" := raw] else cfg.microsoft))
    else if IsLetter(Lower(raw)) then Ok((Lower(raw), cfg.microsoft))
    else Err(BadPrimary)
  }

  function Maybe(k: string, v: string): Entries {
    if v != "" then [(k, v)] else []
  }

  function Letters(m: map<string, string>): Entries {
    Maybe("a", Get(m, "a")) + Maybe("b", Get(m, "b")) + Maybe("c", Get(m, "c"))
  }

  function Defaults(cfg: Config): Entries {
    [("target", cfg.target), ("provider", cfg.provider)]
  }

  function GoogleTable(cfg: Config): Entries {
    Letters(cfg.google) + [("primary", cfg.googlePrimary)]
  }

  function MicrosoftTable(cast: map<string, string>, primary: string, attendee: string): Entries {
    Letters(cast) + [("primary", primary), ("attendee", attendee)]
  }

  function PollTable(cfg: Config): Entries {
    Maybe("invitee_a", cfg.pollInviteeASet) + Maybe("invitee_b", cfg.pollInviteeBSet)
  }

  /** The tables that are written for a config with this Microsoft primary and cast. */
  function Tables(cfg: Config, primary: string, cast: map<string, string>): Doc {
    FourTables(Defaults(cfg), GoogleTable(cfg), MicrosoftTable(cast, primary, cfg.microsoftAttendee), PollTable(cfg))
  }

  /** The invitee table is left out when it would be empty. */
  function FourTables(defaults: Entries, google: Entries, microsoft: Entries, poll: Entries): Doc {
    [("defaults", defaults), ("google", google), ("microsoft", microsoft)]
    + if poll == [] then [] else [("poll", poll)]
  }

  method SaveConfig(cfg: Config) returns (text: Result<string, Error>)
    ensures text == match NormalizeMicrosoftPrimary(cfg)
                    case Err(e) => Err(e)
                    case Ok((primary, cast)) => Ok(RenderDoc(Tables(cfg, primary, cast)))
  {
    var normalized := NormalizeMicrosoftPrimary(cfg);
    if normalized.Err? {
      return Err(normalized.error);
    }
    var (primary, cast) := normalized.value;
    var google := LetterLines(cfg.google);
    var microsoft := LetterLines(cast);
    var lines := [Header("defaults")] + [Entry("target", cfg.target), Entry("provider", cfg.provider)];
    lines := lines + [Blank, Header("google")];
    lines := lines + (google + [Entry("primary", cfg.googlePrimary)]);
    lines := lines + [Blank, Header("microsoft")];
    lines := lines + (microsoft + [Entry("primary", primary), Entry("attendee", cfg.microsoftAttendee)]);
    var poll := PollLines(cfg);
    if poll != [] {
      lines := lines + [Blank, Header("poll")] + poll;
    }
    TableLines(cfg, primary, cast);
    var table := MicrosoftTable(cast, primary, cfg.microsoftAttendee);
    FourTablesLines(Defaults(cfg), GoogleTable(cfg), table, PollTable(cfg));
    return Ok(Unlines(RenderAll(lines)));
  }

  lemma EntryLinesAppend(xs: Entries, ys: Entries)
    ensures EntryLines(xs + ys) == EntryLines(xs) + EntryLines(ys)
  {
  }

  lemma TableLines(cfg: Config, primary: string, cast: map<string, string>)
    ensures EntryLines(Defaults(cfg)) == [Entry("target", cfg.target), Entry("provider", cfg.provider)]
    ensures EntryLines(GoogleTable(cfg)) == EntryLines(Letters(cfg.google)) + [Entry("primary", cfg.googlePrimary)]
    ensures EntryLines(MicrosoftTable(cast, primary, cfg.microsoftAttendee)) ==
      EntryLines(Letters(cast)) + [Entry("primary", primary), Entry("attendee", cfg.microsoftAttendee)]
  {
    var g, m := [("primary", cfg.googlePrimary)], [("primary", primary), ("attendee", cfg.microsoftAttendee)];
    EntryLinesAppend(Letters(cfg.google), g);
    EntryLinesAppend(Letters(cast), m);
    assert EntryLines(g) == [Entry("primary", cfg.googlePrimary)];
    assert EntryLines(m) == [Entry("primary", primary), Entry("attendee", cfg.microsoftAttendee)];
  }

  /** The invitees that were set. */
  method PollLines(cfg: Config) returns (lines: seq<Line>)
    ensures lines == EntryLines(PollTable(cfg))
  {
    lines := [];
    if cfg.pollInviteeASet != "" {
      lines := lines + [Entry("invitee_a", cfg.pollInviteeASet)];
    }
    if cfg.pollInviteeBSet != "" {
      lines := lines + [Entry("invitee_b", cfg.pollInviteeBSet)];
    }
  }

  method LetterLines(m: map<string, string>) returns (lines: seq<Line>)
    ensures lines == EntryLines(Letters(m))
  {
    lines := [];
    var letters := ["a", "b", "c"];
    for i := 0 to 3
      invariant lines == EntryLines(
        (if i > 0 then Maybe("a", Get(m, "a")) else []) + (if i > 1 then Maybe("b", Get(m, "b")) else [])
        + (if i > 2 then Maybe("c", Get(m, "c")) else []))
    {
      var v := Get(m, letters[i]);
      if v != "" {
        lines := lines + [Entry(letters[i], v)];
      }
    }
  }

  lemma DocLinesStep(doc: Doc, name: string, es: Entries)
    ensures DocLines(doc + [(name, es)]) ==
      DocLines(doc) + (if doc != [] then [Blank, Header(name)] else [Header(name)]) + EntryLines(es)
  {
    var more := doc + [(name, es)];
    assert more[..|doc|] == doc;
    assert [Blank] + [Header(name)] == [Blank, Header(name)];
  }

  lemma FourTablesLines(d: Entries, g: Entries, m: Entries, p: Entries)
    ensures var three := [Header("defaults")] + EntryLines(d) + [Blank, Header("google")] + EntryLines(g)
                         + [Blank, Header("microsoft")] + EntryLines(m);
      DocLines(FourTables(d, g, m, p)) == if p == [] then three else three + [Blank, Header("poll")] + EntryLines(p)
  {
    var one, two := [("defaults", d)], [("defaults", d), ("google", g)];
    var three := [("defaults", d), ("google", g), ("microsoft", m)];
    assert one == [] + [("defaults", d)] && two == one + [("google", g)] && three == two + [("microsoft", m)];
    DocLinesStep([], "defaults", d);
    assert DocLines([]) + [Header("defaults")] == [Header("defaults")];
    DocLinesStep(one, "google", g);
    DocLinesStep(two, "microsoft", m);
    DocLinesStep(three, "poll", p);
    assert FourTables(d, g, m, p) == if p == [] then three else three + [("poll", p)];
  }

  // ----- Loading

  /** `_as_str(section.get(k))`: an absent key reads as "". */
  function Field(es: Entries, k: string): string {
    match Find(es, k) case None => "" case Some(v) => v
  }

  function ReadCast(es: Entries): map<string, string> {
    Cast(map["a" := Field(es, "a"), "b" := Field(es, "b"), "c" := Field(es, "c")])
  }

  function LoadDoc(doc: Doc): Result<Config, Error> {
    var defaults, google, microsoft, poll :=
      Section(doc, "defaults"), Section(doc, "google"), Section(doc, "microsoft"), Section(doc, "poll");
    var rawPrimary := Or(Field(microsoft, "primary"), "a");
    var cast := ReadCast(microsoft);
    var provider := Or(Field(defaults, "provider"), "google");
    if !IsProvider(provider) then Err(UnknownProvider)
    else Ok(Config(
      Or(Field(defaults, "target"), "dev"), provider,
      ReadCast(google), Or(Field(google, "primary"), "a"),
      if '@' in rawPrimary && "a" !in cast then cast["a" := rawPrimary] else cast,
      if '@' in rawPrimary then "a" else rawPrimary,
      Field(microsoft, "attendee"), Field(poll, "invitee_a"), Field(poll, "invitee_b")))
  }

  function LoadConfig(text: string): Result<Config, Error> {
    match ParseToml(text)
    case None => Err(MalformedToml)
    case Some(doc) => LoadDoc(doc)
  }

  // ----- The normal form

  /**
  What saving and loading make of a config: letters with addresses, blanks filled with their
  defaults, a letter as primary. Saving refuses a junk primary, loading an unknown provider.
  */
  function Normal(cfg: Config): Result<Config, Error> {
    match NormalizeMicrosoftPrimary(cfg)
    case Err(e) => Err(e)
    case Ok((primary, cast)) =>
      if !IsProvider(Or(cfg.provider, "google")) then Err(UnknownProvider)
      else Ok(cfg.(
        target := Or(cfg.target, "dev"), provider := Or(cfg.provider, "google"),
        google := Cast(cfg.google), googlePrimary := Or(cfg.googlePrimary, "a"),
        microsoft := Cast(cast), microsoftPrimary := primary))
  }

  lemma {:induction false} FindAppend(xs: Entries, ys: Entries, k: string)
    ensures Find(xs + ys, k) == if Find(xs, k).Some? then Find(xs, k) else Find(ys, k)
  {
    if xs == [] {
      assert xs + ys == ys;
    } else {
      assert (xs + ys)[1..] == xs[1..] + ys;
      FindAppend(xs[1..], ys, k);
    }
  }

  lemma FindCons(k: string, v: string, rest: Entries, q: string)
    ensures Find([(k, v)] + rest, q) == if k == q then Some(v) else Find(rest, q)
  {
    assert ([(k, v)] + rest)[1..] == rest;
  }

  lemma FindMaybe(k: string, v: string, q: string)
    ensures Find(Maybe(k, v), q) == if k == q && v != "" then Some(v) else None
  {
  }

  lemma FindLetters(m: map<string, string>, q: string)
    ensures Find(Letters(m), q) == if IsLetter(q) && Get(m, q) != "" then Some(Get(m, q)) else None
  {
    var a, b, c := Maybe("a", Get(m, "a")), Maybe("b", Get(m, "b")), Maybe("c", Get(m, "c"));
    FindAppend(a + b, c, q);
    FindAppend(a, b, q);
    FindMaybe("a", Get(m, "a"), q);
    FindMaybe("b", Get(m, "b"), q);
    FindMaybe("c", Get(m, "c"), q);
  }

  /** Behind the letters, a field that is not a letter is found as if they were not there. */
  lemma FindBehindLetters(m: map<string, string>, more: Entries, q: string)
    ensures !IsLetter(q) ==> Field(Letters(m) + more, q) == Field(more, q)
    ensures IsLetter(q) && Find(more, q).None? ==> Field(Letters(m) + more, q) == Get(m, q)
  {
    FindAppend(Letters(m), more, q);
    FindLetters(m, q);
  }

  lemma CastOfFields(es: Entries, m: map<string, string>)
    requires Field(es, "a") == Get(m, "a") && Field(es, "b") == Get(m, "b") && Field(es, "c") == Get(m, "c")
    ensures ReadCast(es) == Cast(m)
  {
  }

  lemma SectionCons(name: string, es: Entries, rest: Doc, q: string)
    ensures Section([(name, es)] + rest, q) == if name == q then es else Section(rest, q)
  {
    assert ([(name, es)] + rest)[1..] == rest;
  }

  lemma SectionOfFour(d: Entries, g: Entries, m: Entries, p: Entries, q: string)
    ensures Section(FourTables(d, g, m, p), q) ==
      if q == "defaults" then d else if q == "google" then g else if q == "microsoft" then m
      else if q == "poll" then p else []
  {
    var last := if p == [] then [] else [("poll", p)];
    var three := [("microsoft", m)] + last;
    var two := [("google", g)] + three;
    assert FourTables(d, g, m, p) == [("defaults", d)] + two;
    SectionCons("defaults", d, two, q);
    SectionCons("google", g, three, q);
    SectionCons("microsoft", m, last, q);
    if p != [] {
      assert last == last + [];
      SectionCons("poll", p, [], q);
    }
  }

  lemma MicrosoftField(cast: map<string, string>, primary: string, attendee: string, q: string)
    ensures Field(MicrosoftTable(cast, primary, attendee), q) ==
      if IsLetter(q) then Get(cast, q) else if q == "primary" then primary else if q == "attendee" then attendee else ""
  {
    var last := [("attendee", attendee)];
    var more := [("primary", primary), ("attendee", attendee)];
    assert more == [("primary", primary)] + last && last == last + [];
    FindCons("primary", primary, last, q);
    FindCons("attendee", attendee, [], q);
    FindBehindLetters(cast, more, q);
  }

  lemma ReadMicrosoft(cast: map<string, string>, primary: string, attendee: string)
    ensures var t := MicrosoftTable(cast, primary, attendee);
      ReadCast(t) == Cast(cast) && Field(t, "primary") == primary && Field(t, "attendee") == attendee
  {
    forall q ensures Field(MicrosoftTable(cast, primary, attendee), q) ==
      if IsLetter(q) then Get(cast, q) else if q == "primary" then primary else if q == "attendee" then attendee else ""
    {
      MicrosoftField(cast, primary, attendee, q);
    }
    CastOfFields(MicrosoftTable(cast, primary, attendee), cast);
  }

  lemma GoogleField(cfg: Config, q: string)
    ensures Field(GoogleTable(cfg), q) ==
      if IsLetter(q) then Get(cfg.google, q) else if q == "primary" then cfg.googlePrimary else ""
  {
    var more := [("primary", cfg.googlePrimary)];
    assert more == more + [];
    FindCons("primary", cfg.googlePrimary, [], q);
    FindBehindLetters(cfg.google, more, q);
  }

  lemma ReadGoogle(cfg: Config)
    ensures ReadCast(GoogleTable(cfg)) == Cast(cfg.google)
    ensures Field(GoogleTable(cfg), "primary") == cfg.googlePrimary
  {
    forall q ensures Field(GoogleTable(cfg), q) ==
      if IsLetter(q) then Get(cfg.google, q) else if q == "primary" then cfg.googlePrimary else ""
    {
      GoogleField(cfg, q);
    }
    CastOfFields(GoogleTable(cfg), cfg.google);
  }

  lemma ReadDefaultsAndPoll(cfg: Config)
    ensures Field(Defaults(cfg), "target") == cfg.target && Field(Defaults(cfg), "provider") == cfg.provider
    ensures Field(PollTable(cfg), "invitee_a") == cfg.pollInviteeASet
    ensures Field(PollTable(cfg), "invitee_b") == cfg.pollInviteeBSet
  {
    var provider := [("provider", cfg.provider)];
    assert Defaults(cfg) == [("target", cfg.target)] + provider && provider == provider + [];
    FindCons("target", cfg.target, provider, "target");
    FindCons("target", cfg.target, provider, "provider");
    FindCons("provider", cfg.provider, [], "provider");
    var a, b := Maybe("invitee_a", cfg.pollInviteeASet), Maybe("invitee_b", cfg.pollInviteeBSet);
    FindAppend(a, b, "invitee_a");
    FindAppend(a, b, "invitee_b");
    FindMaybe("invitee_a", cfg.pollInviteeASet, "invitee_a");
    FindMaybe("invitee_a", cfg.pollInviteeASet, "invitee_b");
    FindMaybe("invitee_b", cfg.pollInviteeBSet, "invitee_a");
    FindMaybe("invitee_b", cfg.pollInviteeBSet, "invitee_b");
  }

  /** Reading the tables that were written, whatever primary was put in them. */
  lemma LoadTables(cfg: Config, primary: string, cast: map<string, string>)
    requires primary != ""
    ensures var legacy := '@' in primary;
      LoadDoc(Tables(cfg, primary, cast)) ==
        if !IsProvider(Or(cfg.provider, "google")) then Err(UnknownProvider)
        else Ok(cfg.(
          target := Or(cfg.target, "dev"), provider := Or(cfg.provider, "google"),
          google := Cast(cfg.google), googlePrimary := Or(cfg.googlePrimary, "a"),
          microsoft := if legacy && "a" !in Cast(cast) then Cast(cast)["a" := primary] else Cast(cast),
          microsoftPrimary := if legacy then "a" else primary))
  {
    var d, g, m, p :=
      Defaults(cfg), GoogleTable(cfg), MicrosoftTable(cast, primary, cfg.microsoftAttendee), PollTable(cfg);
    SectionOfFour(d, g, m, p, "defaults");
    SectionOfFour(d, g, m, p, "google");
    SectionOfFour(d, g, m, p, "microsoft");
    SectionOfFour(d, g, m, p, "poll");
    ReadMicrosoft(cast, primary, cfg.microsoftAttendee);
    ReadGoogle(cfg);
    ReadDefaultsAndPoll(cfg);
  }

  lemma NormalizedIsLetter(cfg: Config)
    requires NormalizeMicrosoftPrimary(cfg).Ok?
    ensures IsLetter(NormalizeMicrosoftPrimary(cfg).value.0)
  {
  }

  lemma BareNames()
    ensures Bare("defaults") && Bare("google") && Bare("microsoft") && Bare("poll")
    ensures Bare("a") && Bare("b") && Bare("c") && Bare("primary") && Bare("attendee")
    ensures Bare("target") && Bare("provider") && Bare("invitee_a") && Bare("invitee_b")
  {
  }

  lemma OneMoreKey(es: Entries, k: string, v: string)
    requires WellKeyed(es) && Bare(k) && !HasKey(es, k)
    ensures WellKeyed(es + [(k, v)])
    ensures forall q :: HasKey(es + [(k, v)], q) <==> HasKey(es, q) || q == k
  {
    var more := es + [(k, v)];
    forall q ensures HasKey(more, q) <==> HasKey(es, q) || q == k {
      assert more[|es|].0 == k;
      if HasKey(es, q) {
        var i :| 0 <= i < |es| && es[i].0 == q;
        assert more[i].0 == q;
      }
    }
  }

  lemma MaybeMoreKey(es: Entries, k: string, v: string)
    requires WellKeyed(es) && Bare(k) && !HasKey(es, k)
    ensures WellKeyed(es + Maybe(k, v))
    ensures forall q :: HasKey(es + Maybe(k, v), q) ==> HasKey(es, q) || q == k
  {
    if v == "" {
      assert es + Maybe(k, v) == es;
    } else {
      OneMoreKey(es, k, v);
    }
  }

  lemma LettersWellKeyed(m: map<string, string>)
    ensures WellKeyed(Letters(m)) && forall q :: HasKey(Letters(m), q) ==> IsLetter(q)
  {
    BareNames();
    var a, b, c := Maybe("a", Get(m, "a")), Maybe("b", Get(m, "b")), Maybe("c", Get(m, "c"));
    assert [] + a == a;
    MaybeMoreKey([], "a", Get(m, "a"));
    MaybeMoreKey(a, "b", Get(m, "b"));
    MaybeMoreKey(a + b, "c", Get(m, "c"));
  }

  lemma GoogleWellKeyed(cfg: Config)
    ensures WellKeyed(GoogleTable(cfg))
  {
    BareNames();
    LettersWellKeyed(cfg.google);
    OneMoreKey(Letters(cfg.google), "primary", cfg.googlePrimary);
  }

  lemma MicrosoftWellKeyed(cast: map<string, string>, primary: string, attendee: string)
    ensures WellKeyed(MicrosoftTable(cast, primary, attendee))
  {
    BareNames();
    LettersWellKeyed(cast);
    OneMoreKey(Letters(cast), "primary", primary);
    var most := Letters(cast) + [("primary", primary)];
    OneMoreKey(most, "attendee", attendee);
    assert MicrosoftTable(cast, primary, attendee) == most + [("attendee", attendee)];
  }

  lemma OthersWellKeyed(cfg: Config)
    ensures WellKeyed(Defaults(cfg)) && WellKeyed(PollTable(cfg))
  {
    BareNames();
    var a := Maybe("invitee_a", cfg.pollInviteeASet);
    assert [] + a == a;
    MaybeMoreKey([], "invitee_a", cfg.pollInviteeASet);
    MaybeMoreKey(a, "invitee_b", cfg.pollInviteeBSet);
  }

  lemma FourWellNamed(d: Entries, g: Entries, m: Entries, p: Entries)
    requires WellKeyed(d) && WellKeyed(g) && WellKeyed(m) && WellKeyed(p)
    ensures WellNamed(FourTables(d, g, m, p))
  {
    BareNames();
  }

  lemma TablesWellNamed(cfg: Config, primary: string, cast: map<string, string>)
    ensures WellNamed(Tables(cfg, primary, cast))
  {
    GoogleWellKeyed(cfg);
    MicrosoftWellKeyed(cast, primary, cfg.microsoftAttendee);
    OthersWellKeyed(cfg);
    var table := MicrosoftTable(cast, primary, cfg.microsoftAttendee);
    FourWellNamed(Defaults(cfg), GoogleTable(cfg), table, PollTable(cfg));
  }

  /**
  Load after save, for every config that saving accepts: the normal form, unless a written value
  holds a control character, and then the file is malformed.
  */
  lemma SaveThenLoad(cfg: Config)
    requires NormalizeMicrosoftPrimary(cfg).Ok?
    ensures var (primary, cast) := NormalizeMicrosoftPrimary(cfg).value;
      LoadConfig(RenderDoc(Tables(cfg, primary, cast))) ==
        if CleanDoc(Tables(cfg, primary, cast)) then Normal(cfg) else Err(MalformedToml)
  {
    var (primary, cast) := NormalizeMicrosoftPrimary(cfg).value;
    NormalizedIsLetter(cfg);
    TablesWellNamed(cfg, primary, cast);
    ReadsBackIff(Tables(cfg, primary, cast));
    LoadTables(cfg, primary, cast);
  }

  /** The normal form is a fixed point, of normalising and so of saving and loading. */
  lemma NormalIsFixed(cfg: Config)
    requires Normal(cfg).Ok?
    ensures Normal(Normal(cfg).value) == Normal(cfg)
  {
    NormalizedIsLetter(cfg);
    var n := Normal(cfg).value;
    StripTrims(n.microsoftPrimary);
    assert Strip(n.microsoftPrimary) == n.microsoftPrimary;
    assert Lower(n.microsoftPrimary) == n.microsoftPrimary;
    assert Cast(n.google) == n.google && Cast(n.microsoft) == n.microsoft;
  }

  /**
  A file of the older schema, with an email as `[microsoft].primary`, loads as what saving the same
  config and loading it would give, exactly if its values are clean and the email has no surrounding
  white space or letter a is set; with an unknown provider both are refused alike.
  */
  lemma LegacyFileLoadsAlike(cfg: Config)
    requires '@' in cfg.microsoftPrimary
    ensures var older := Tables(cfg, cfg.microsoftPrimary, cfg.microsoft);
      LoadConfig(RenderDoc(older)) == Normal(cfg) <==>
      && CleanDoc(older)
      && (|| !IsProvider(Or(cfg.provider, "google"))
          || Strip(cfg.microsoftPrimary) == cfg.microsoftPrimary
          || Get(cfg.microsoft, "a") != "")
  {
    var older := Tables(cfg, cfg.microsoftPrimary, cfg.microsoft);
    TablesWellNamed(cfg, cfg.microsoftPrimary, cfg.microsoft);
    ReadsBackIff(older);
    LoadTables(cfg, cfg.microsoftPrimary, cfg.microsoft);
    var raw := Strip(cfg.microsoftPrimary);
    StripKeeps(cfg.microsoftPrimary, '@');
    CastUpdate(cfg.microsoft, raw);
    if Get(cfg.microsoft, "a") == "" {
      var loaded, normal := Cast(cfg.microsoft)["a" := cfg.microsoftPrimary], Cast(cfg.microsoft)["a" := raw];
      assert loaded["a"] == cfg.microsoftPrimary && normal["a"] == raw;
    }
  }

  lemma CastUpdate(m: map<string, string>, raw: string)
    requires raw != ""
    ensures Cast(m["a" := raw]) == Cast(m)["a" := raw]
  {
  }

  /**
  A derived invitee is never frozen into the file: after save and load, any later Google address of
  any letter gives the invitees that it would have given without saving.
  */
  lemma DerivedInviteeNotFrozen(cfg: Config, letter: string, email: string)
    requires Normal(cfg).Ok?
    ensures var n := Normal(cfg).value;
      && n.PollInviteeA() == cfg.PollInviteeA() && n.PollInviteeB() == cfg.PollInviteeB()
      && var saved, unsaved := n.(google := n.google[letter := email]), cfg.(google := cfg.google[letter := email]);
      && saved.PollInviteeA() == unsaved.PollInviteeA()
      && saved.PollInviteeB() == unsaved.PollInviteeB()
  {
  }

  // ----- What the normal form holds

  /** The letter that a primary stands for, in either case; a blank one and an address stand for `a`. */
  lemma PrimaryNormalised(cfg: Config)
    ensures var raw, result := Strip(cfg.microsoftPrimary), NormalizeMicrosoftPrimary(cfg);
      && (result.Err? <==> raw != "" && '@' !in raw && raw !in {"a", "b", "c", "A", "B", "C"})
      && (result.Ok? ==>
            && (result.value.0 == "b" <==> raw == "b" || raw == "B")
            && (result.value.0 == "c" <==> raw == "c" || raw == "C")
            && (result.value.0 == "a" || result.value.0 == "b" || result.value.0 == "c")
            && (forall k | k != "a" :: (k in result.value.1 <==> k in cfg.microsoft)
                  && Get(result.value.1, k) == Get(cfg.microsoft, k))
            && Get(result.value.1, "a") ==
                 if '@' in raw && Get(cfg.microsoft, "a") == "" then raw else Get(cfg.microsoft, "a"))
  {
    var raw := Strip(cfg.microsoftPrimary);
    if |raw| == 1 {
      assert Lower(raw)[0] == LowerChar(raw[0]);
      assert raw == [raw[0]] && Lower(raw) == [LowerChar(raw[0])];
      assert raw[0] != '@' ==> '@' !in raw;
    }
  }

  /** The addresses of the letters a, b and c that have one, and no others. */
  predicate SameLetters(cast: map<string, string>, of: map<string, string>) {
    && (forall l | l in cast :: (l == "a" || l == "b" || l == "c") && cast[l] != "")
    && Get(cast, "a") == Get(of, "a") && Get(cast, "b") == Get(of, "b") && Get(cast, "c") == Get(of, "c")
  }

  /** The normal form keeps every letter's address and every other setting, and fills blanks only. */
  lemma NormalKeeps(cfg: Config)
    requires Normal(cfg).Ok?
    ensures var n := Normal(cfg).value;
      && SameLetters(n.google, cfg.google)
      && SameLetters(n.microsoft, NormalizeMicrosoftPrimary(cfg).value.1)
      && n.microsoftPrimary == NormalizeMicrosoftPrimary(cfg).value.0
      && n.target == (if cfg.target == "" then "dev" else cfg.target)
      && n.provider == (if cfg.provider == "" then "google" else cfg.provider)
      && (n.provider == "google" || n.provider == "microsoft")
      && n.googlePrimary == (if cfg.googlePrimary == "" then "a" else cfg.googlePrimary)
      && n.microsoftAttendee == cfg.microsoftAttendee
      && n.pollInviteeASet == cfg.pollInviteeASet && n.pollInviteeBSet == cfg.pollInviteeBSet
  {
  }

  // ----- Inputs that do not come back

  const Plain: Config := Config("dev", "google", map[], "a", map[], "a", "", "", "")

  /** A line break in the target makes the saved file malformed. */
  lemma LineBreakExample()
    ensures var cfg := Plain.(target := "\n");
      NormalizeMicrosoftPrimary(cfg) == Ok(("a", map[])) &&
      LoadConfig(RenderDoc(Tables(cfg, "a", map[]))) == Err(MalformedToml)
  {
    var cfg := Plain.(target := "\n");
    StripTrims("a");
    assert Strip("a") == "a" && Lower("a") == "a";
    SaveThenLoad(cfg);
    var doc := Tables(cfg, "a", map[]);
    assert doc[0].1[0].1 == "\n" && !CleanChar('\n');
    assert !Clean("\n") by { assert "\n"[0] == '\n'; }
    assert !CleanEntries(doc[0].1);
  }

  /** A space before an older file's email stays when it is loaded and goes when it is saved. */
  lemma SpaceBeforeEmailExample()
    ensures var cfg := Plain.(microsoftPrimary := " @");
      LoadConfig(RenderDoc(Tables(cfg, " @", map[]))) != Normal(cfg)
  {
    var cfg := Plain.(microsoftPrimary := " @");
    StripTrims(" @");
    assert !Trimmed(" @") by { assert " @"[0] == ' '; }
    assert " @"[1] == '@';
    LegacyFileLoadsAlike(cfg);
  }
}
