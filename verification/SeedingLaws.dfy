/** What a seeding report guarantees, and that seeding undoes projecting. */
module SeedingLaws {
  import opened Wrappers
  import opened Text
  import opened IdentityTokens
  import opened RunnerConfig
  import opened Seeding
  import Registry
  import RegistryLaws

  /** Occupied and partial slots are disjoint, and a complete letter triple wins over SCHEDULER_*. */
  lemma OccupiedIsNotPartial(lib: Library, env: Env, cfg: Config, at: Option<nat>, r: Report, slot: string)
    requires Seeded(lib, env, cfg, at, r)
    ensures !(slot in r.identities && slot in r.partial)
    ensures forall i | 0 <= i < |SEATS| && Occupied(env, cfg, SEATS[i]) ::
      SEATS[i].slot in r.identities && r.identities[SEATS[i].slot] == LetterTokens(lib, env, cfg, SEATS[i])
  {
    if slot in r.partial {
      assert HasSlot(SEATS, slot);
      var i :| 0 <= i < |SEATS| && SEATS[i].slot == slot;
      assert SlotSeeded(lib, env, cfg, SEATS[i], at == Some(i), r);
    }
    forall i | 0 <= i < |SEATS| && Occupied(env, cfg, SEATS[i])
      ensures SEATS[i].slot in r.identities && r.identities[SEATS[i].slot] == LetterTokens(lib, env, cfg, SEATS[i])
    {
      assert SlotSeeded(lib, env, cfg, SEATS[i], at == Some(i), r);
    }
  }

  lemma StripOfTrimmed(s: string)
    requires Trimmed(s)
    ensures Strip(s) == s
  {
    StripTrims(s);
  }

  /**
  The config anchors every seeded identity: where it has an address for the slot, that is the
  identity's address, whatever the environment says.
  */
  lemma ConfigAnchorsEmail(lib: Library, env: Env, cfg: Config, at: Option<nat>, r: Report, i: nat)
    requires Seeded(lib, env, cfg, at, r) && i < |SEATS|
    requires SEATS[i].slot in r.identities && CastEmail(cfg, SEATS[i]) != ""
    ensures Strip(r.identities[SEATS[i].slot].email) == CastEmail(cfg, SEATS[i])
  {
    var seat := SEATS[i];
    assert SlotSeeded(lib, env, cfg, seat, at == Some(i), r);
    StripTrims(Get(if seat.microsoft then cfg.microsoft else cfg.google, seat.lower));
    StripOfTrimmed(CastEmail(cfg, seat));
  }

  // ----- Seeding undoes projecting

  /** Printing and reading back mint times are inverse. */
  ghost predicate MintTimesReadBack(lib: Library, iso: int -> string) {
    forall m :: Strip(iso(m)) != "" && lib.fromIso(Strip(iso(m))) == Some(m)
  }

  /** Trimmed, with every part there, and with the address the config has, if it has one. */
  predicate CleanFor(t: Tokens, cfg: Config, seat: Seat) {
    && t.bearer != "" && Trimmed(t.bearer) && t.refresh != "" && Trimmed(t.refresh)
    && t.email != "" && Trimmed(t.email) && (CastEmail(cfg, seat) != "" ==> t.email == CastEmail(cfg, seat))
    && t.clientId != "" && Trimmed(t.clientId)
  }

  /** A Google seat: its variables are those the registry projects for its letter. */
  predicate GoogleSeat(seat: Seat) {
    seat.prefix == "" && (seat.upper == "A" || seat.upper == "B" || seat.upper == "C")
  }

  lemma SuffixesDiffer(l: string)
    ensures l + "_BEARER" != l + "_REFRESH" && l + "_BEARER" != l + "_EXPECTED_EMAIL"
    ensures l + "_REFRESH" != l + "_EXPECTED_EMAIL"
    ensures l + "_CLIENT_ID" != l + "_BEARER" && l + "_CLIENT_ID" != l + "_REFRESH"
    ensures l + "_CLIENT_ID" != l + "_EXPECTED_EMAIL"
    ensures l + "_MINTED_AT" != l + "_BEARER" && l + "_MINTED_AT" != l + "_REFRESH"
    ensures l + "_MINTED_AT" != l + "_EXPECTED_EMAIL"
    ensures l + "_MINTED_AT" != l + "_CLIENT_ID"
  {
    var n := |l|;
    assert (l + "_BEARER")[n + 1] == 'B' && (l + "_REFRESH")[n + 1] == 'R' && (l + "_EXPECTED_EMAIL")[n + 1] == 'E';
    assert (l + "_CLIENT_ID")[n + 1] == 'C' && (l + "_MINTED_AT")[n + 1] == 'M';
  }

  lemma ProjectedValues(l: string, t: Tokens, iso: int -> string)
    requires l == "A" || l == "B" || l == "C"
    ensures var p := Registry.ProjectIdentity(l, t, iso);
      && Get(p, l + "_BEARER") == t.bearer && Get(p, l + "_REFRESH") == t.refresh
      && Get(p, l + "_EXPECTED_EMAIL") == t.email
      && Get(p, l + "_CLIENT_ID") == (if t.clientId != DEFAULT_CLIENT_ID then t.clientId else "")
      && Get(p, l + "_MINTED_AT") == (if t.mintedAt.Some? then iso(t.mintedAt.value) else "")
  {
    SuffixesDiffer(l);
    var p := Registry.ProjectIdentity(l, t, iso);
    assert l + "_BEARER" in p && l + "_REFRESH" in p && l + "_EXPECTED_EMAIL" in p;
    assert l + "_CLIENT_ID" in p <==> t.clientId != DEFAULT_CLIENT_ID;
    assert l + "_MINTED_AT" in p <==> t.mintedAt.Some?;
  }

  /** The seat's own five variables are the projected ones; anything else may be in the environment. */
  ghost predicate Exported(env: Env, p: Env, seat: Seat) {
    && Get(env, Name(seat, "_BEARER")) == Get(p, seat.upper + "_BEARER")
    && Get(env, Name(seat, "_REFRESH")) == Get(p, seat.upper + "_REFRESH")
    && Get(env, Name(seat, "_EXPECTED_EMAIL")) == Get(p, seat.upper + "_EXPECTED_EMAIL")
    && Get(env, Name(seat, "_CLIENT_ID")) == Get(p, seat.upper + "_CLIENT_ID")
    && Get(env, Name(seat, "_MINTED_AT")) == Get(p, seat.upper + "_MINTED_AT")
  }

  lemma StripFacts(s: string)
    ensures Strip(s) == s <==> Trimmed(s)
    ensures Trimmed(Strip(s)) && Strip("") == ""
  {
    StripTrims(s);
  }

  lemma DefaultClientIdTrimmed()
    ensures Trimmed(DEFAULT_CLIENT_ID)
  {
    assert DEFAULT_CLIENT_ID[0] == 's' && DEFAULT_CLIENT_ID[8] == 'i';
  }

  lemma EmailReadBack(t: Tokens, cfg: Config, seat: Seat, read: string)
    requires read == Or(CastEmail(cfg, seat), Strip(t.email))
    ensures read != "" && read == t.email <==>
      t.email != "" && Trimmed(t.email) && (CastEmail(cfg, seat) != "" ==> t.email == CastEmail(cfg, seat))
  {
    StripFacts(t.email);
    StripFacts(Get(if seat.microsoft then cfg.microsoft else cfg.google, seat.lower));
  }

  lemma ClientIdReadBack(t: Tokens, read: string)
    requires read == Or(Strip(if t.clientId != DEFAULT_CLIENT_ID then t.clientId else ""), DEFAULT_CLIENT_ID)
    ensures read == t.clientId <==> t.clientId != "" && Trimmed(t.clientId)
  {
    StripFacts(t.clientId);
    StripFacts("");
    DefaultClientIdTrimmed();
  }

  lemma MintTimeReadBack(lib: Library, env: Env, t: Tokens, iso: int -> string, k: string)
    requires MintTimesReadBack(lib, iso)
    requires Get(env, k) == if t.mintedAt.Some? then iso(t.mintedAt.value) else ""
    ensures ParseMinted(lib, env, k) == t.mintedAt
  {
    StripFacts("");
    if t.mintedAt.Some? {
      var m: int := t.mintedAt.value;
      assert Strip(iso(m)) != "" && lib.fromIso(Strip(iso(m))) == Some(m);
    }
  }

  /**
  Seeding a projected identity gives exactly that identity back, if and only if it is clean. Whatever
  else the environment holds, a SCHEDULER_* triple included, does not matter.
  */
  lemma SeedingInvertsProjection(lib: Library, env: Env, cfg: Config, seat: Seat, t: Tokens, iso: int -> string)
    requires GoogleSeat(seat) && t.slot == seat.slot && MintTimesReadBack(lib, iso)
    requires Exported(env, Registry.ProjectIdentity(seat.upper, t, iso), seat)
    ensures Occupied(env, cfg, seat) && LetterTokens(lib, env, cfg, seat) == t <==> CleanFor(t, cfg, seat)
  {
    ProjectedValues(seat.upper, t, iso);
    StripFacts(t.bearer);
    StripFacts(t.refresh);
    EmailReadBack(t, cfg, seat, Email(env, cfg, seat));
    ClientIdReadBack(t, Or(Read(env, Name(seat, "_CLIENT_ID")), DEFAULT_CLIENT_ID));
    MintTimeReadBack(lib, env, t, iso, Name(seat, "_MINTED_AT"));
  }

  // ----- From a projection alone

  lemma NothingElse(p: Env, letter: string, t: Tokens, iso: int -> string, k: string)
    requires letter == "A" || letter == "B" || letter == "C"
    requires p == Registry.ProjectIdentity(letter, t, iso) && k != "" && k[0] != letter[0]
    ensures Get(p, k) == ""
  {
    if k in p {
      RegistryLaws.ProjectedNames(letter, t, iso, k);
      assert false;
    }
  }

  lemma OtherSeatEmpty(p: Env, t: Tokens, iso: int -> string, seat: Seat, other: Seat)
    requires GoogleSeat(seat) && p == Registry.ProjectIdentity(seat.upper, t, iso)
    requires other.prefix == "MS_" || (GoogleSeat(other) && other.upper != seat.upper)
    ensures forall cfg :: !Occupied(p, cfg, other)
    ensures !Attempted(p, other)
  {
    StripFacts("");
    var b, r, e := Name(other, "_BEARER"), Name(other, "_REFRESH"), Name(other, "_EXPECTED_EMAIL");
    NothingElse(p, seat.upper, t, iso, b);
    NothingElse(p, seat.upper, t, iso, r);
    NothingElse(p, seat.upper, t, iso, e);
  }

  /** If the seats have different variables, only the projected one is reported. */
  lemma SeatReport(lib: Library, p: Env, cfg: Config, seats: seq<Seat>, i: nat, seat: Seat, t: Tokens,
                   iso: int -> string, r: Report)
    requires i < |seats| && seats[i] == seat && GoogleSeat(seat) && p == Registry.ProjectIdentity(seat.upper, t, iso)
    requires t.slot == seat.slot && MintTimesReadBack(lib, iso) && CleanFor(t, cfg, seat)
    requires forall j | 0 <= j < |seats| && j != i ::
      seats[j].prefix == "MS_" || (GoogleSeat(seats[j]) && seats[j].upper != seat.upper)
    requires SlotsSeeded(lib, p, cfg, seats, None, r)
    ensures r.identities == map[t.slot := t] && r.partial == map[]
  {
    SeatSeedsItself(lib, p, cfg, seat, t, iso);
    forall j | 0 <= j < |seats| && j != i ensures !Occupied(p, cfg, seats[j]) && !Attempted(p, seats[j]) {
      OtherSeatEmpty(p, t, iso, seat, seats[j]);
    }
    OnlySeat(lib, p, cfg, seats, i, t, r);
  }

  lemma QuietReport(lib: Library, p: Env, cfg: Config, at: Option<nat>, r: Report)
    requires Seeded(lib, p, cfg, at, r) && !SchedulerPresent(p)
    ensures SlotsSeeded(lib, p, cfg, SEATS, None, r) && r.warnings == []
  {
  }

  /** Seeding from the projection of a clean Google identity alone reports that identity and nothing else. */
  lemma SeedOfProjection(lib: Library, p: Env, cfg: Config, i: nat, seat: Seat, t: Tokens,
                         iso: int -> string, at: Option<nat>, r: Report)
    requires i < 3 && seat == SEATS[i] && p == Registry.ProjectIdentity(seat.upper, t, iso)
    requires t.slot == seat.slot && MintTimesReadBack(lib, iso) && CleanFor(t, cfg, seat)
    requires Seeded(lib, p, cfg, at, r)
    ensures r.identities == map[t.slot := t] && r.partial == map[] && r.warnings == []
  {
    OtherSeats(i);
    NoScheduler(p, seat, t, iso);
    QuietReport(lib, p, cfg, at, r);
    SeatReport(lib, p, cfg, SEATS, i, seat, t, iso, r);
  }

  lemma SeatSeedsItself(lib: Library, p: Env, cfg: Config, seat: Seat, t: Tokens, iso: int -> string)
    requires GoogleSeat(seat) && t.slot == seat.slot && MintTimesReadBack(lib, iso) && CleanFor(t, cfg, seat)
    requires p == Registry.ProjectIdentity(seat.upper, t, iso)
    ensures Occupied(p, cfg, seat) && LetterTokens(lib, p, cfg, seat) == t
  {
    OwnNames(seat, p);
    SeedingInvertsProjection(lib, p, cfg, seat, t, iso);
  }

  lemma NoScheduler(p: Env, seat: Seat, t: Tokens, iso: int -> string)
    requires GoogleSeat(seat) && p == Registry.ProjectIdentity(seat.upper, t, iso)
    ensures !SchedulerPresent(p)
  {
    NothingElse(p, seat.upper, t, iso, "SCHEDULER_BEARER");
    StripFacts("");
  }

  lemma OtherSeats(i: nat)
    requires i < 3
    ensures GoogleSeat(SEATS[i])
    ensures forall j | 0 <= j < |SEATS| && j != i ::
      SEATS[j].prefix == "MS_" || (GoogleSeat(SEATS[j]) && SEATS[j].upper != SEATS[i].upper)
  {
  }

  /** If only one seat's variables are set, only its slot is reported. */
  lemma OnlySeat(lib: Library, p: Env, cfg: Config, seats: seq<Seat>, i: nat, t: Tokens, r: Report)
    requires i < |seats| && SlotsSeeded(lib, p, cfg, seats, None, r)
    requires Occupied(p, cfg, seats[i]) && LetterTokens(lib, p, cfg, seats[i]) == t
    requires forall j | 0 <= j < |seats| && j != i :: !Occupied(p, cfg, seats[j]) && !Attempted(p, seats[j])
    ensures r.identities == map[seats[i].slot := t] && r.partial == map[]
  {
    forall j | 0 <= j < |seats| && j != i ensures seats[j].slot !in r.identities && seats[j].slot !in r.partial {
      assert SlotSeeded(lib, p, cfg, seats[j], false, r);
    }
    assert SlotSeeded(lib, p, cfg, seats[i], false, r);
    OnlySlot(seats, i, r.identities, r.partial);
  }

  lemma OwnNames(seat: Seat, p: Env)
    requires GoogleSeat(seat)
    ensures Exported(p, p, seat)
  {
    assert forall s :: "" + seat.upper + s == seat.upper + s;
  }

  lemma OnlySlot(seats: seq<Seat>, i: nat, identities: map<string, Tokens>, partial: map<string, seq<string>>)
    requires i < |seats| && seats[i].slot in identities && seats[i].slot !in partial
    requires forall s | s in identities :: HasSlot(seats, s)
    requires forall s | s in partial :: HasSlot(seats, s)
    requires forall j | 0 <= j < |seats| && j != i :: seats[j].slot !in identities && seats[j].slot !in partial
    ensures identities == map[seats[i].slot := identities[seats[i].slot]] && partial == map[]
  {
    forall s | s in identities ensures s == seats[i].slot {
      var j :| 0 <= j < |seats| && seats[j].slot == s;
    }
    forall s ensures s !in partial {
      if HasSlot(seats, s) {
        var j :| 0 <= j < |seats| && seats[j].slot == s;
      }
    }
  }
}
