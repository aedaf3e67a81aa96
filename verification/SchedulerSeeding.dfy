/**
Seeding undoes projecting for the SCHEDULER_* triple too: from the projection of a cast member's
tokens, exactly these tokens come back, in the slot whose address they bear.
*/
module SchedulerSeeding {
  import opened Wrappers
  import opened Text
  import opened IdentityTokens
  import opened RunnerConfig
  import opened Seeding
  import opened SeedingLaws
  import opened Registry
  import RegistryLaws
  import opened ComposedRuns

  /** The address of a seat as the config has it, white space included. */
  function Address(cfg: Config, seat: Seat): string {
    Get(if seat.microsoft then cfg.microsoft else cfg.google, seat.lower)
  }

  lemma NoLetterNames(t: Tokens, iso: int -> string, k: string)
    requires k != "" && (k[0] == 'A' || k[0] == 'B' || k[0] == 'C' || k[0] == 'M')
    ensures k !in ProjectIdentity("SCHEDULER", t, iso)
  {
    if k in ProjectIdentity("SCHEDULER", t, iso) {
      RegistryLaws.SchedulerNames(t, iso, k);
      assert false;
    }
  }

  /** The projection says nothing of any letter. */
  lemma SeatsSilent(p: Env, t: Tokens, iso: int -> string, seat: Seat)
    requires p == ProjectIdentity("SCHEDULER", t, iso)
    requires
      || seat.prefix == "MS_"
      || (seat.prefix == "" && (seat.upper == "A" || seat.upper == "B" || seat.upper == "C"))
    ensures !Attempted(p, seat) && forall cfg :: !Occupied(p, cfg, seat)
  {
    StripFacts("");
    NoLetterNames(t, iso, Name(seat, "_BEARER"));
    NoLetterNames(t, iso, Name(seat, "_REFRESH"));
    NoLetterNames(t, iso, Name(seat, "_EXPECTED_EMAIL"));
  }

  /** The variables of the triple read back. */
  lemma SchedulerReads(p: Env, t: Tokens, iso: int -> string)
    requires p == ProjectIdentity("SCHEDULER", t, iso)
    ensures Get(p, "SCHEDULER_BEARER") == t.bearer && Get(p, "SCHEDULER_REFRESH_TOKEN") == t.refresh
    ensures Get(p, "EXPECTED_TEST_ACCOUNT") == t.email
    ensures Get(p, "SCHEDULER_CLIENT_ID") == if t.clientId != DEFAULT_CLIENT_ID then t.clientId else ""
    ensures Get(p, "SCHEDULER_MINTED_AT") == if t.mintedAt.Some? then iso(t.mintedAt.value) else ""
  {
    ProjectionCarries("SCHEDULER", t, iso);
    SchedulerVarsDiffer();
  }

  /** Every part there, no part with white space around it; the address may have some, as the config may. */
  predicate CleanTriple(t: Tokens) {
    && t.bearer != "" && Trimmed(t.bearer) && t.refresh != "" && Trimmed(t.refresh)
    && Strip(t.email) != "" && t.clientId != "" && Trimmed(t.clientId)
  }

  lemma TripleReadBack(lib: Library, p: Env, cfg: Config, seat: Seat, t: Tokens, iso: int -> string)
    requires p == ProjectIdentity("SCHEDULER", t, iso) && MintTimesReadBack(lib, iso)
    ensures SchedulerPresent(p) && SchedulerTokens(lib, p, cfg, seat) == t <==>
            CleanTriple(t) && t.slot == seat.slot && t.email == Address(cfg, seat)
  {
    SchedulerReads(p, t, iso);
    StripFacts(t.bearer);
    StripFacts(t.refresh);
    ClientIdReadBack(t, Or(Read(p, "SCHEDULER_CLIENT_ID"), DEFAULT_CLIENT_ID));
    MintTimeReadBack(lib, p, t, iso, "SCHEDULER_MINTED_AT");
  }

  /** If no letter has variables, only the seat of the triple is reported. */
  lemma OnlyTripleSlot(lib: Library, p: Env, cfg: Config, seats: seq<Seat>, at: Option<nat>, r: Report, slot: string)
    requires DistinctSlots(seats) && SlotsSeeded(lib, p, cfg, seats, at, r) && (at.Some? ==> at.value < |seats|)
    requires forall i | 0 <= i < |seats| :: !Attempted(p, seats[i]) && !Occupied(p, cfg, seats[i])
    ensures slot !in r.partial
    ensures slot in r.identities <==> at.Some? && slot == seats[at.value].slot
    ensures slot in r.identities ==> r.identities[slot] == SchedulerTokens(lib, p, cfg, seats[at.value])
  {
    if HasSlot(seats, slot) {
      var i :| 0 <= i < |seats| && seats[i].slot == slot;
      assert SlotSeeded(lib, p, cfg, seats[i], at == Some(i), r);
      if at.Some? {
        assert at.value < i ==> seats[at.value].slot != seats[i].slot;
        assert i < at.value ==> seats[i].slot != seats[at.value].slot;
      }
    } else if at.Some? {
      assert seats[at.value].slot != slot;
    }
  }

  /** What the triple seeds. */
  function TripleSeeds(lib: Library, p: Env, cfg: Config, seats: seq<Seat>, at: Option<nat>): map<string, Tokens>
    requires at.Some? ==> at.value < |seats|
  {
    match at case None => map[] case Some(n) => map[seats[n].slot := SchedulerTokens(lib, p, cfg, seats[n])]
  }

  lemma OnlyTripleOf(lib: Library, p: Env, cfg: Config, seats: seq<Seat>, at: Option<nat>, r: Report)
    requires DistinctSlots(seats) && SlotsSeeded(lib, p, cfg, seats, at, r) && (at.Some? ==> at.value < |seats|)
    requires forall i | 0 <= i < |seats| :: !Attempted(p, seats[i]) && !Occupied(p, cfg, seats[i])
    ensures r.partial == map[] && r.identities == TripleSeeds(lib, p, cfg, seats, at)
  {
    var seeds := TripleSeeds(lib, p, cfg, seats, at);
    forall slot ensures slot !in r.partial && (slot in r.identities <==> slot in seeds)
      && (slot in r.identities ==> r.identities[slot] == seeds[slot])
    {
      OnlyTripleSlot(lib, p, cfg, seats, at, r, slot);
    }
  }

  lemma AtIsSeat(lib: Library, p: Env, cfg: Config, at: Option<nat>, r: Report)
    requires Seeded(lib, p, cfg, at, r)
    ensures at.Some? ==> at.value < |SEATS| && SchedulerPresent(p)
  {
  }

  lemma AllSilent(p: Env, t: Tokens, iso: int -> string)
    requires p == ProjectIdentity("SCHEDULER", t, iso)
    ensures forall i | 0 <= i < |SEATS| :: !Attempted(p, SEATS[i]) && forall cfg :: !Occupied(p, cfg, SEATS[i])
  {
    forall i | 0 <= i < |SEATS| ensures !Attempted(p, SEATS[i]) && forall cfg :: !Occupied(p, cfg, SEATS[i]) {
      SeatsSilent(p, t, iso, SEATS[i]);
    }
  }

  /** The triple is seeded where its address is, and nothing else is reported of the slots. */
  lemma OnlyTriple(lib: Library, p: Env, cfg: Config, t: Tokens, iso: int -> string, at: Option<nat>, r: Report)
    requires p == ProjectIdentity("SCHEDULER", t, iso) && Seeded(lib, p, cfg, at, r)
    ensures at.Some? ==> at.value < |SEATS| && SchedulerPresent(p)
    ensures r.partial == map[] && r.identities == TripleSeeds(lib, p, cfg, SEATS, at)
  {
    AllSilent(p, t, iso);
    SlotsDistinct();
    AtIsSeat(lib, p, cfg, at, r);
    OnlyTripleOf(lib, p, cfg, SEATS, at, r);
  }

  lemma SameSeed(slot: string, tokens: Tokens, t: Tokens)
    requires tokens.slot == slot
    ensures map[slot := tokens] == map[t.slot := t] <==> tokens == t
  {
    var m := map[slot := tokens];
    assert slot in m && m[slot] == tokens;
    if m == map[t.slot := t] {
      assert t.slot in m;
    }
  }

  /** Without warnings about letters, since no letter is occupied. */
  lemma TripleWarnings(p: Env, t: Tokens, iso: int -> string, cfg: Config, at: Option<nat>)
    requires p == ProjectIdentity("SCHEDULER", t, iso) && (at.Some? ==> at.value < |SEATS|)
    ensures Warnings(p, cfg, at) == if SchedulerPresent(p) && at.None? then [NotInCast(Strip(t.email))] else []
  {
    SchedulerReads(p, t, iso);
    AllSilent(p, t, iso);
  }

  lemma PresentIff(p: Env, t: Tokens, iso: int -> string)
    requires p == ProjectIdentity("SCHEDULER", t, iso)
    ensures CleanTriple(t) ==> SchedulerPresent(p) && Read(p, "EXPECTED_TEST_ACCOUNT") == Strip(t.email)
  {
    SchedulerReads(p, t, iso);
    StripFacts(t.bearer);
    StripFacts(t.refresh);
  }

  /**
  Seeding a SCHEDULER projection gives exactly the projected tokens back, if and only if they are
  clean and their slot is the first seat of the cast with that address, as the config writes it.
  */
  lemma SeedingInvertsScheduler(lib: Library, p: Env, cfg: Config, t: Tokens, iso: int -> string,
                                at: Option<nat>, r: Report)
    requires p == ProjectIdentity("SCHEDULER", t, iso) && MintTimesReadBack(lib, iso)
    requires Seeded(lib, p, cfg, at, r)
    ensures r.partial == map[]
    ensures r.identities == map[t.slot := t] <==>
      CleanTriple(t) && at.Some? && t.slot == SEATS[at.value].slot && t.email == Address(cfg, SEATS[at.value])
    ensures CleanTriple(t) ==> ClassifiedAs(lib, cfg, Strip(t.email), at)
    ensures r.warnings == if SchedulerPresent(p) && at.None? then [NotInCast(Strip(t.email))] else []
  {
    OnlyTriple(lib, p, cfg, t, iso, at, r);
    TripleWarnings(p, t, iso, cfg, at);
    PresentIff(p, t, iso);
    if at.Some? {
      var seat := SEATS[at.value];
      TripleReadBack(lib, p, cfg, seat, t, iso);
      SameSeed(seat.slot, SchedulerTokens(lib, p, cfg, seat), t);
    } else {
      assert t.slot in map[t.slot := t];
    }
  }

  // ----- What is missing, and who comes first

  /** What the environment exports under a seat's name. */
  function Exports(env: Env, seat: Seat, suffix: string): string {
    Strip(Get(env, seat.prefix + seat.upper + suffix))
  }

  /** Tokens and an address: from the config, or where the config has none, exported. */
  predicate Complete(env: Env, cfg: Config, seat: Seat) {
    && Exports(env, seat, "_BEARER") != "" && Exports(env, seat, "_REFRESH") != ""
    && (Strip(Address(cfg, seat)) != "" || Exports(env, seat, "_EXPECTED_EMAIL") != "")
  }

  /** Something was exported for the letter. */
  predicate Begun(env: Env, seat: Seat) {
    || Exports(env, seat, "_BEARER") != "" || Exports(env, seat, "_REFRESH") != ""
    || Exports(env, seat, "_EXPECTED_EMAIL") != ""
  }

  /** The address that counts for a letter. */
  function Known(env: Env, cfg: Config, seat: Seat): string {
    if Strip(Address(cfg, seat)) != "" then Strip(Address(cfg, seat)) else Exports(env, seat, "_EXPECTED_EMAIL")
  }

  lemma SeatMeans(env: Env, cfg: Config, seat: Seat)
    ensures Occupied(env, cfg, seat) <==> Complete(env, cfg, seat)
    ensures Attempted(env, seat) <==> Begun(env, seat)
    ensures Email(env, cfg, seat) == Known(env, cfg, seat)
  {
  }

  lemma SeatReported(lib: Library, env: Env, cfg: Config, seat: Seat, scheduler: bool, r: Report)
    requires SlotSeeded(lib, env, cfg, seat, scheduler, r)
    ensures seat.slot in r.identities <==> Complete(env, cfg, seat) || scheduler
    ensures seat.slot in r.partial <==> (seat.slot !in r.identities && Begun(env, seat))
    ensures Complete(env, cfg, seat) ==>
      var t := r.identities[seat.slot];
      && t.slot == seat.slot && t.email == Known(env, cfg, seat)
      && t.bearer == Exports(env, seat, "_BEARER") && t.refresh == Exports(env, seat, "_REFRESH")
  {
    SeatMeans(env, cfg, seat);
  }

  lemma SeatSeededAt(lib: Library, env: Env, cfg: Config, seats: seq<Seat>, at: Option<nat>, r: Report, i: nat)
    requires SlotsSeeded(lib, env, cfg, seats, at, r) && i < |seats|
    ensures SlotSeeded(lib, env, cfg, seats[i], at == Some(i), r)
  {
  }

  /**
  A slot is seeded exactly if its letter is complete or the SCHEDULER_* triple belongs there; it is
  partial exactly if it is not seeded and anything was exported for its letter. A complete letter's
  slot holds what was exported, under the address that counts.
  */
  lemma SeededOrPartial(lib: Library, env: Env, cfg: Config, at: Option<nat>, r: Report, i: nat, seat: Seat)
    requires Seeded(lib, env, cfg, at, r) && i < |SEATS| && SEATS[i] == seat
    ensures seat.slot in r.identities <==> Complete(env, cfg, seat) || at == Some(i)
    ensures seat.slot in r.partial <==> (seat.slot !in r.identities && Begun(env, seat))
    ensures Complete(env, cfg, seat) ==>
      var t := r.identities[seat.slot];
      && t.slot == seat.slot && t.email == Known(env, cfg, seat)
      && t.bearer == Exports(env, seat, "_BEARER") && t.refresh == Exports(env, seat, "_REFRESH")
  {
    SeatSeededAt(lib, env, cfg, SEATS, at, r, i);
    SeatReported(lib, env, cfg, seat, at == Some(i), r);
  }

  /** All three variables of the triple are there. */
  predicate TripleExported(env: Env) {
    && Strip(Get(env, "SCHEDULER_BEARER")) != "" && Strip(Get(env, "SCHEDULER_REFRESH_TOKEN")) != ""
    && Strip(Get(env, "EXPECTED_TEST_ACCOUNT")) != ""
  }

  /** The triple is looked at exactly if all of it is there; a letter with another bearer wins, with a warning. */
  lemma TripleNeedsAll(lib: Library, env: Env, cfg: Config, at: Option<nat>, r: Report)
    requires Seeded(lib, env, cfg, at, r)
    ensures !TripleExported(env) ==> at.None? && r.warnings == []
    ensures TripleExported(env) && at.None? ==> r.warnings == [NotInCast(Strip(Get(env, "EXPECTED_TEST_ACCOUNT")))]
    ensures at.Some? ==> at.value < |SEATS|
    ensures at.Some? ==>
      var seat := SEATS[at.value];
      var other := Complete(env, cfg, seat) && Exports(env, seat, "_BEARER") != Strip(Get(env, "SCHEDULER_BEARER"));
      r.warnings == if other then [LetterWins(seat.slot)] else []
  {
    AtIsSeat(lib, env, cfg, at, r);
    if at.Some? {
      SeatMeans(env, cfg, SEATS[at.value]);
    }
  }

  /** A partial letter is told exactly what it lacks. */
  lemma MissingIff(env: Env, cfg: Config, seat: Seat, what: string)
    ensures what in Missing(env, cfg, seat) <==>
      || (what == seat.prefix + seat.upper + "_BEARER" && Strip(Get(env, what)) == "")
      || (what == seat.prefix + seat.upper + "_REFRESH" && Strip(Get(env, what)) == "")
      || (what == "config " + seat.slot && Strip(Address(cfg, seat)) == ""
          && Strip(Get(env, seat.prefix + seat.upper + "_EXPECTED_EMAIL")) == "")
  {
  }

  /** The account belongs to the Google letter that has its address; to a Microsoft letter only if no Google one has. */
  lemma GoogleBeforeMicrosoft(lib: Library, cfg: Config, account: string, at: Option<nat>, i: nat)
    requires ClassifiedAs(lib, cfg, account, at) && i < |SEATS| && lib.fold(Strip(account)) != ""
    requires Strip(Address(cfg, SEATS[i])) != "" && lib.fold(Strip(Address(cfg, SEATS[i]))) == lib.fold(Strip(account))
    ensures at.Some? && at.value <= i && (i < 3 ==> !SEATS[at.value].microsoft)
    ensures lib.fold(Strip(Address(cfg, SEATS[at.value]))) == lib.fold(Strip(account))
  {
    assert Matches(lib, cfg, account, SEATS[i]);
  }

  /** The account of a seat is its address, and an account without a seat is nobody's address. */
  lemma ClassifiedByAddress(lib: Library, cfg: Config, account: string, at: Option<nat>)
    requires ClassifiedAs(lib, cfg, account, at)
    ensures at.Some? ==>
      && at.value < |SEATS| && Strip(Address(cfg, SEATS[at.value])) != ""
      && lib.fold(Strip(Address(cfg, SEATS[at.value]))) == lib.fold(Strip(account)) != ""
    ensures at.None? && lib.fold(Strip(account)) != "" ==> forall i | 0 <= i < |SEATS| ::
      Strip(Address(cfg, SEATS[i])) == "" || lib.fold(Strip(Address(cfg, SEATS[i]))) != lib.fold(Strip(account))
  {
    forall i | 0 <= i < |SEATS| && at.None? && lib.fold(Strip(account)) != ""
      ensures Strip(Address(cfg, SEATS[i])) == "" || lib.fold(Strip(Address(cfg, SEATS[i]))) != lib.fold(Strip(account))
    {
      assert !Matches(lib, cfg, account, SEATS[i]);
    }
  }

  /** The seats: three Google letters, then three Microsoft ones. */
  lemma Seats(i: nat)
    requires i < 3
    ensures SEATS[i].slot == "google:" + SEATS[i].lower && !SEATS[i].microsoft && SEATS[i].prefix == ""
    ensures SEATS[3 + i].slot == "microsoft:" + SEATS[i].lower && SEATS[3 + i].microsoft && SEATS[3 + i].prefix == "MS_"
    ensures SEATS[i].lower == SEATS[3 + i].lower == [['a', 'b', 'c'][i]]
    ensures SEATS[i].upper == SEATS[3 + i].upper == [['A', 'B', 'C'][i]]
  {
  }
}
