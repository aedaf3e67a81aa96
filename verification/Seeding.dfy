/**
`seed_identities` of bin/_smoke_identity.py: identities read out of the runner's own environment,
letter by letter, then one SCHEDULER_* triple. It undoes the registry's projection.
*/
module Seeding {
  import opened Wrappers
  import opened Text
  import opened IdentityTokens
  import opened RunnerConfig
  import Registry

  /** One letter of one provider's cast. */
  datatype Seat = Seat(prefix: string, upper: string, lower: string, slot: string, microsoft: bool)

  const SEATS: seq<Seat> := [
    Seat("", "A", "a", "google:a", false), Seat("", "B", "b", "google:b", false), Seat("", "C", "c", "google:c", false),
    Seat("MS_", "A", "a", "microsoft:a", true), Seat("MS_", "B", "b", "microsoft:b", true),
    Seat("MS_", "C", "c", "microsoft:c", true)]

  /** `casefold`, and the ISO parsing inside `parse_minted_at` for a text that is not blank. */
  datatype Library = Library(fold: string -> string, fromIso: string -> Option<int>)

  datatype Warning = NotInCast(account: string) | LetterWins(slot: string)

  datatype Report = Report(identities: map<string, Tokens>, partial: map<string, seq<string>>, warnings: seq<Warning>)

  function Read(env: Env, k: string): string {
    Strip(Get(env, k))
  }

  function ParseMinted(lib: Library, env: Env, k: string): Option<int> {
    if Strip(Get(env, k)) == "" then None else lib.fromIso(Strip(Get(env, k)))
  }

  function Name(seat: Seat, suffix: string): string {
    seat.prefix + seat.upper + suffix
  }

  function CastEmail(cfg: Config, seat: Seat): string {
    Strip(Get(if seat.microsoft then cfg.microsoft else cfg.google, seat.lower))
  }

  /** The config's address wins; the environment's fills a letter the config leaves empty. */
  function Email(env: Env, cfg: Config, seat: Seat): string {
    Or(CastEmail(cfg, seat), Read(env, Name(seat, "_EXPECTED_EMAIL")))
  }

  predicate Occupied(env: Env, cfg: Config, seat: Seat) {
    Read(env, Name(seat, "_BEARER")) != "" && Read(env, Name(seat, "_REFRESH")) != "" && Email(env, cfg, seat) != ""
  }

  function LetterTokens(lib: Library, env: Env, cfg: Config, seat: Seat): Tokens {
    Tokens(seat.slot, Read(env, Name(seat, "_BEARER")), Read(env, Name(seat, "_REFRESH")), Email(env, cfg, seat),
           Or(Read(env, Name(seat, "_CLIENT_ID")), DEFAULT_CLIENT_ID), ParseMinted(lib, env, Name(seat, "_MINTED_AT")))
  }

  /** Something was exported for the letter, whatever the config knows of it. */
  predicate Attempted(env: Env, seat: Seat) {
    || Read(env, Name(seat, "_BEARER")) != "" || Read(env, Name(seat, "_REFRESH")) != ""
    || Read(env, Name(seat, "_EXPECTED_EMAIL")) != ""
  }

  function Missing(env: Env, cfg: Config, seat: Seat): seq<string> {
    (if Read(env, Name(seat, "_BEARER")) == "" then [Name(seat, "_BEARER")] else [])
    + (if Read(env, Name(seat, "_REFRESH")) == "" then [Name(seat, "_REFRESH")] else [])
    + (if Email(env, cfg, seat) == "" then ["config " + seat.slot] else [])
  }

  // ----- The SCHEDULER_* triple

  predicate Matches(lib: Library, cfg: Config, account: string, seat: Seat) {
    CastEmail(cfg, seat) != "" && lib.fold(CastEmail(cfg, seat)) == lib.fold(Strip(account))
  }

  /** The first seat, Google before Microsoft, whose address is the account, white space and case aside. */
  ghost predicate ClassifiedAs(lib: Library, cfg: Config, account: string, at: Option<nat>) {
    if lib.fold(Strip(account)) == "" then at == None
    else
      match at
      case None => forall i | 0 <= i < |SEATS| :: !Matches(lib, cfg, account, SEATS[i])
      case Some(n) => n < |SEATS| && Matches(lib, cfg, account, SEATS[n])
                      && forall i | 0 <= i < n :: !Matches(lib, cfg, account, SEATS[i])
  }

  method ClassifySchedulerSlot(lib: Library, cfg: Config, account: string) returns (at: Option<nat>)
    ensures ClassifiedAs(lib, cfg, account, at)
  {
    if lib.fold(Strip(account)) == "" {
      return None;
    }
    for i := 0 to |SEATS|
      invariant forall j | 0 <= j < i :: !Matches(lib, cfg, account, SEATS[j])
    {
      if Matches(lib, cfg, account, SEATS[i]) {
        return Some(i);
      }
    }
    return None;
  }

  predicate SchedulerPresent(env: Env) {
    && Read(env, "SCHEDULER_BEARER") != "" && Read(env, "SCHEDULER_REFRESH_TOKEN") != ""
    && Read(env, "EXPECTED_TEST_ACCOUNT") != ""
  }

  /** The stored address is the config's, as it stands there. */
  function SchedulerTokens(lib: Library, env: Env, cfg: Config, seat: Seat): Tokens {
    Tokens(seat.slot, Read(env, "SCHEDULER_BEARER"), Read(env, "SCHEDULER_REFRESH_TOKEN"),
           Get(if seat.microsoft then cfg.microsoft else cfg.google, seat.lower),
           Or(Read(env, "SCHEDULER_CLIENT_ID"), DEFAULT_CLIENT_ID), ParseMinted(lib, env, "SCHEDULER_MINTED_AT"))
  }

  // ----- Seeding

  ghost predicate DistinctSlots(seats: seq<Seat>) {
    forall i, j | 0 <= i < j < |seats| :: seats[i].slot != seats[j].slot
  }

  ghost predicate HasSlot(seats: seq<Seat>, slot: string) {
    exists i :: 0 <= i < |seats| && seats[i].slot == slot
  }

  /** What a letter's own variables give its slot. */
  ghost predicate SeatSeeded(lib: Library, env: Env, cfg: Config, seat: Seat,
                             identities: map<string, Tokens>, partial: map<string, seq<string>>) {
    && (seat.slot in identities <==> Occupied(env, cfg, seat))
    && (Occupied(env, cfg, seat) ==> identities[seat.slot] == LetterTokens(lib, env, cfg, seat))
    && (seat.slot in partial <==> !Occupied(env, cfg, seat) && Attempted(env, seat))
    && (seat.slot in partial ==> partial[seat.slot] == Missing(env, cfg, seat))
  }

  ghost predicate LettersSeeded(lib: Library, env: Env, cfg: Config, seats: seq<Seat>,
                                identities: map<string, Tokens>, partial: map<string, seq<string>>) {
    && (forall s | s in identities :: HasSlot(seats, s))
    && (forall s | s in partial :: HasSlot(seats, s))
    && (forall i | 0 <= i < |seats| :: SeatSeeded(lib, env, cfg, seats[i], identities, partial))
  }

  /** What a slot holds in the end: the letter's tokens, else those of a SCHEDULER_* triple that belongs here. */
  ghost predicate SlotSeeded(lib: Library, env: Env, cfg: Config, seat: Seat, scheduler: bool, r: Report) {
    && (seat.slot in r.identities <==> Occupied(env, cfg, seat) || scheduler)
    && (Occupied(env, cfg, seat) ==> r.identities[seat.slot] == LetterTokens(lib, env, cfg, seat))
    && (!Occupied(env, cfg, seat) && scheduler ==> r.identities[seat.slot] == SchedulerTokens(lib, env, cfg, seat))
    && (seat.slot in r.partial <==> seat.slot !in r.identities && Attempted(env, seat))
    && (seat.slot in r.partial ==> r.partial[seat.slot] == Missing(env, cfg, seat))
  }

  ghost predicate SlotsSeeded(lib: Library, env: Env, cfg: Config, seats: seq<Seat>, at: Option<nat>, r: Report) {
    && (forall s | s in r.identities :: HasSlot(seats, s))
    && (forall s | s in r.partial :: HasSlot(seats, s))
    && (forall i | 0 <= i < |seats| :: SlotSeeded(lib, env, cfg, seats[i], at == Some(i), r))
  }

  /** The whole report; `at` is the seat of the SCHEDULER_* triple, if it is complete and in the cast. */
  ghost predicate Seeded(lib: Library, env: Env, cfg: Config, at: Option<nat>, r: Report) {
    && (if SchedulerPresent(env) then ClassifiedAs(lib, cfg, Read(env, "EXPECTED_TEST_ACCOUNT"), at) else at == None)
    && SlotsSeeded(lib, env, cfg, SEATS, at, r)
    && r.warnings == Warnings(env, cfg, at)
  }

  ghost function Warnings(env: Env, cfg: Config, at: Option<nat>): seq<Warning> {
    if !SchedulerPresent(env) then []
    else
      match at
      case None => [NotInCast(Read(env, "EXPECTED_TEST_ACCOUNT"))]
      case Some(n) => if n < |SEATS| then ConflictWarning(env, cfg, SEATS[n]) else []
  }

  /** The letter wins; only a different bearer is worth a warning. */
  function ConflictWarning(env: Env, cfg: Config, seat: Seat): seq<Warning> {
    if Occupied(env, cfg, seat) && Read(env, Name(seat, "_BEARER")) != Read(env, "SCHEDULER_BEARER")
    then [LetterWins(seat.slot)] else []
  }

  /** A complete letter takes its slot. */
  function WithLetter(lib: Library, env: Env, cfg: Config, seat: Seat, identities: map<string, Tokens>)
    : map<string, Tokens>
  {
    if Occupied(env, cfg, seat) then identities[seat.slot := LetterTokens(lib, env, cfg, seat)] else identities
  }

  /** A letter that was begun and is not complete leaves a note of what it misses. */
  function WithGap(env: Env, cfg: Config, seat: Seat, partial: map<string, seq<string>>): map<string, seq<string>> {
    if !Occupied(env, cfg, seat) && Attempted(env, seat) then partial[seat.slot := Missing(env, cfg, seat)]
    else partial
  }

  lemma SlotsDistinct()
    ensures DistinctSlots(SEATS)
  {
    assert forall i | 0 <= i < 3 :: SEATS[i].slot[0] == 'g';
    assert forall i | 3 <= i < 6 :: SEATS[i].slot[0] == 'm';
    assert SEATS[0].slot[7] == 'a' && SEATS[1].slot[7] == 'b' && SEATS[2].slot[7] == 'c';
    assert SEATS[3].slot[10] == 'a' && SEATS[4].slot[10] == 'b' && SEATS[5].slot[10] == 'c';
  }

  lemma NextSeat(lib: Library, env: Env, cfg: Config, seats: seq<Seat>, seat: Seat,
                 identities: map<string, Tokens>, partial: map<string, seq<string>>,
                 identities': map<string, Tokens>, partial': map<string, seq<string>>)
    requires DistinctSlots(seats + [seat]) && LettersSeeded(lib, env, cfg, seats, identities, partial)
    requires identities' == WithLetter(lib, env, cfg, seat, identities)
    requires partial' == WithGap(env, cfg, seat, partial)
    ensures LettersSeeded(lib, env, cfg, seats + [seat], identities', partial')
  {
    var more := seats + [seat];
    assert more[|seats|] == seat;
    forall s | HasSlot(seats, s) ensures HasSlot(more, s) && s != seat.slot {
      var i :| 0 <= i < |seats| && seats[i].slot == s;
      assert more[i].slot == s && more[i].slot != more[|seats|].slot;
    }
    forall i | 0 <= i < |more| ensures SeatSeeded(lib, env, cfg, more[i], identities', partial') {
      if i < |seats| {
        assert more[i] == seats[i] && more[i].slot != more[|seats|].slot;
        SeatFrame(lib, env, cfg, seats[i], identities, partial, identities', partial');
      } else {
        assert !HasSlot(seats, seat.slot);
        SeatNew(lib, env, cfg, seat, identities, partial, identities', partial');
      }
    }
    SlotsFrame(seats, seat, identities, identities');
    SlotsFrame(seats, seat, partial, partial');
  }

  lemma SlotsFrame<V>(seats: seq<Seat>, seat: Seat, m: map<string, V>, m': map<string, V>)
    requires forall s | s in m :: HasSlot(seats, s)
    requires forall s | s in m' :: s in m || s == seat.slot
    ensures forall s | s in m' :: HasSlot(seats + [seat], s)
  {
    var more := seats + [seat];
    forall s | s in m' ensures HasSlot(more, s) {
      if s in m {
        var i :| 0 <= i < |seats| && seats[i].slot == s;
        assert more[i].slot == s;
      } else {
        assert more[|seats|].slot == s;
      }
    }
  }

  lemma SeatFrame(lib: Library, env: Env, cfg: Config, seat: Seat,
                  identities: map<string, Tokens>, partial: map<string, seq<string>>,
                  identities': map<string, Tokens>, partial': map<string, seq<string>>)
    requires SeatSeeded(lib, env, cfg, seat, identities, partial)
    requires seat.slot in identities <==> seat.slot in identities'
    requires seat.slot in partial <==> seat.slot in partial'
    requires seat.slot in identities ==> identities[seat.slot] == identities'[seat.slot]
    requires seat.slot in partial ==> partial[seat.slot] == partial'[seat.slot]
    ensures SeatSeeded(lib, env, cfg, seat, identities', partial')
  {
  }

  lemma SeatNew(lib: Library, env: Env, cfg: Config, seat: Seat,
                identities: map<string, Tokens>, partial: map<string, seq<string>>,
                identities': map<string, Tokens>, partial': map<string, seq<string>>)
    requires seat.slot !in identities && seat.slot !in partial
    requires identities' == WithLetter(lib, env, cfg, seat, identities)
    requires partial' == WithGap(env, cfg, seat, partial)
    ensures SeatSeeded(lib, env, cfg, seat, identities', partial')
  {
  }

  method SeedSeat(lib: Library, env: Env, cfg: Config, seat: Seat,
                  identities: map<string, Tokens>, partial: map<string, seq<string>>)
    returns (identities': map<string, Tokens>, partial': map<string, seq<string>>)
    ensures identities' == WithLetter(lib, env, cfg, seat, identities)
    ensures partial' == WithGap(env, cfg, seat, partial)
  {
    identities', partial' := identities, partial;
    if Occupied(env, cfg, seat) {
      identities' := identities[seat.slot := LetterTokens(lib, env, cfg, seat)];
    } else if Attempted(env, seat) {
      partial' := partial[seat.slot := Missing(env, cfg, seat)];
    }
  }

  lemma UpToSeat(seats: seq<Seat>, i: nat)
    requires DistinctSlots(seats) && i < |seats|
    ensures seats[..i + 1] == seats[..i] + [seats[i]] && DistinctSlots(seats[..i] + [seats[i]])
  {
    assert seats[..i] + [seats[i]] == seats[..i + 1];
  }

  method SeedLetters(lib: Library, env: Env, cfg: Config, seats: seq<Seat>)
    returns (identities: map<string, Tokens>, partial: map<string, seq<string>>)
    requires DistinctSlots(seats)
    ensures LettersSeeded(lib, env, cfg, seats, identities, partial)
  {
    identities, partial := map[], map[];
    for i := 0 to |seats|
      invariant LettersSeeded(lib, env, cfg, seats[..i], identities, partial)
    {
      var more, open := SeedSeat(lib, env, cfg, seats[i], identities, partial);
      UpToSeat(seats, i);
      NextSeat(lib, env, cfg, seats[..i], seats[i], identities, partial, more, open);
      identities, partial := more, open;
    }
    assert seats[..|seats|] == seats;
  }

  /** Adding the SCHEDULER_* triple, unless a letter holds its slot, and dropping what it completes. */
  lemma WithScheduler(lib: Library, env: Env, cfg: Config, seats: seq<Seat>, at: Option<nat>,
                      identities: map<string, Tokens>, partial: map<string, seq<string>>, r: Report)
    requires DistinctSlots(seats) && LettersSeeded(lib, env, cfg, seats, identities, partial)
    requires at.Some? ==> at.value < |seats|
    requires r.identities == if at.Some? && !Occupied(env, cfg, seats[at.value])
                             then identities[seats[at.value].slot := SchedulerTokens(lib, env, cfg, seats[at.value])]
                             else identities
    requires r.partial == map s | s in partial && s !in r.identities :: partial[s]
    ensures SlotsSeeded(lib, env, cfg, seats, at, r)
  {
    forall i | 0 <= i < |seats| ensures SlotSeeded(lib, env, cfg, seats[i], at == Some(i), r) {
      assert SeatSeeded(lib, env, cfg, seats[i], identities, partial);
      if at.Some? {
        assert i < at.value ==> seats[i].slot != seats[at.value].slot;
        assert at.value < i ==> seats[at.value].slot != seats[i].slot;
      }
    }
    if at.Some? {
      assert seats[at.value].slot == seats[at.value].slot;
    }
  }

  method SeedIdentities(lib: Library, env: Env, cfg: Config) returns (r: Report, ghost at: Option<nat>)
    ensures Seeded(lib, env, cfg, at, r)
  {
    SlotsDistinct();
    var letters, partial := SeedLetters(lib, env, cfg, SEATS);
    var identities, warnings: seq<Warning> := letters, [];
    at := None;
    if SchedulerPresent(env) {
      var account := Read(env, "EXPECTED_TEST_ACCOUNT");
      var matched := ClassifySchedulerSlot(lib, cfg, account);
      at := matched;
      if matched == None {
        warnings := [NotInCast(account)];
      } else {
        identities, warnings := AddScheduler(lib, env, cfg, SEATS, matched.value, letters, partial);
      }
    }
    var open := map s | s in partial && s !in identities :: partial[s];
    r := Report(identities, open, warnings);
    WithScheduler(lib, env, cfg, SEATS, at, letters, partial, r);
  }

  method AddScheduler(lib: Library, env: Env, cfg: Config, seats: seq<Seat>, n: nat,
                      letters: map<string, Tokens>, ghost partial: map<string, seq<string>>)
    returns (identities: map<string, Tokens>, warnings: seq<Warning>)
    requires n < |seats| && LettersSeeded(lib, env, cfg, seats, letters, partial)
    ensures identities == if Occupied(env, cfg, seats[n]) then letters
                          else letters[seats[n].slot := SchedulerTokens(lib, env, cfg, seats[n])]
    ensures warnings == ConflictWarning(env, cfg, seats[n])
  {
    identities, warnings := letters, [];
    var seat := seats[n];
    assert SeatSeeded(lib, env, cfg, seat, letters, partial);
    if seat.slot !in identities {
      identities := identities[seat.slot := SchedulerTokens(lib, env, cfg, seat)];
    } else if identities[seat.slot].bearer != Read(env, "SCHEDULER_BEARER") {
      warnings := [LetterWins(seat.slot)];
    }
  }
}
