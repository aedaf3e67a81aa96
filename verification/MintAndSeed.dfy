/**
What bin/mu-smoke-login.py prints is what bin/_smoke_identity.py reads: after a letter's block has
been run in a shell, seeding finds the minted identity there. Only the client id may be an older one.
*/
module MintAndSeed {
  import opened Wrappers
  import opened Text
  import opened IdentityTokens
  import opened RunnerConfig
  import opened Seeding
  import opened SeedingLaws
  import opened ExportBlocks
  import opened MintedBlocks

  /** The seat of the cast that the letter was minted for. */
  predicate SeatOf(m: Mint, seat: Seat) {
    MintedBlocks.IsLetter(m.letter) && seat in SEATS && seat.microsoft == m.microsoft && seat.upper == m.letter
  }

  /** Minting and seeding use the same names. */
  lemma SameNames(m: Mint, seat: Seat)
    requires SeatOf(m, seat)
    ensures seat.prefix == Prefix(m.microsoft)
    ensures forall suffix :: Name(seat, suffix) == Prefix(m.microsoft) + m.letter + suffix
  {
  }

  /** A block as it is built: exactly the lines the mint calls for. */
  ghost predicate BlockOf(m: Mint, block: seq<Assign>) {
    WellBuilt(m, block) && forall a :: a in block <==> Says(m, a)
  }

  function Value(env: Shell, k: string): string {
    RunnerConfig.Get(env, k)
  }

  /** The shell after any earlier blocks and this one, merged. */
  function After(env: Shell, earlier: seq<Assign>, block: seq<Assign>): Shell {
    Run(env, Merged(earlier + block))
  }

  lemma SaidIsRead(env: Shell, earlier: seq<Assign>, m: Mint, block: seq<Assign>, k: string, v: string)
    requires BlockOf(m, block) && Says(m, Assign(k, Some(v)))
    ensures Value(After(env, earlier, block), k) == v
  {
    LatestBlockDecides(env, earlier, m, block, Assign(k, Some(v)));
  }

  /** What no line mentions is as the earlier blocks left it. */
  lemma UnsaidStays(env: Shell, earlier: seq<Assign>, block: seq<Assign>, k: string)
    requires forall a | a in block :: a.key != k
    ensures Value(After(env, earlier, block), k) == Value(Run(env, earlier), k)
  {
    KeysFacts(block);
    forall i | 0 <= i < |block| ensures block[i].key != k { assert block[i] in block; }
    AppendLast(earlier, block, k);
    MergedSameEffect(env, earlier + block);
    RunGet(env, earlier + block, k);
    RunGet(env, earlier, k);
  }

  lemma ClientUnsaid(m: Mint, seat: Seat, a: Assign)
    requires SeatOf(m, seat) && m.clientId == MintedBlocks.DEFAULT_CLIENT_ID && Says(m, a)
    ensures a.key != Name(seat, "_CLIENT_ID")
  {
    SameNames(m, seat);
    var k := Name(seat, "_CLIENT_ID");
    LetterName(m.microsoft, m.letter, "_CLIENT_ID");
    MintedBlocks.OwnNames(m.microsoft, m.letter, Name(seat, "_BEARER"), Name(seat, "_REFRESH"),
                          Name(seat, "_EXPECTED_EMAIL"), Name(seat, "_MINTED_AT"), k);
    assert k[0] == 'A' || k[0] == 'B' || k[0] == 'C' || k[0] == 'M';
    if i :| 0 <= i < |LETTERS| && SaysEmail(m, i, a) {
      LetterName(m.microsoft, LETTERS[i], "_EXPECTED_EMAIL");
      if LETTERS[i] != m.letter {
        assert LETTERS[i][0] != m.letter[0];
      }
    }
    assert "SCHEDULER_URL"[0] == 'S' && D1_KEY[0] == 'D';
    assert "INVITEE_A_EMAIL"[0] == 'I' && "INVITEE_B_EMAIL"[0] == 'I';
  }

  /** Something to seed: trimmed, nothing blank, and a mint time that reads back. */
  predicate Usable(lib: Library, m: Mint, minted: int) {
    && m.bearer != "" && Trimmed(m.bearer) && m.refresh != "" && Trimmed(m.refresh)
    && m.clientId != "" && Trimmed(m.clientId)
    && Strip(m.mintedAt) != "" && lib.fromIso(Strip(m.mintedAt)) == Some(minted)
  }

  /** The client id that seeding finds: the minted one if it was printed, else what the shell had before. */
  function FoundClient(env: Shell, earlier: seq<Assign>, m: Mint, seat: Seat): string {
    if m.clientId != MintedBlocks.DEFAULT_CLIENT_ID then m.clientId
    else Or(Strip(Value(Run(env, earlier), Name(seat, "_CLIENT_ID"))), MintedBlocks.DEFAULT_CLIENT_ID)
  }

  lemma OwnSaid(m: Mint, seat: Seat, email: string)
    requires SeatOf(m, seat) && EmailFor(m.letter, m.emails) == Some(email)
    ensures Says(m, Assign(Name(seat, "_BEARER"), Some(m.bearer)))
    ensures Says(m, Assign(Name(seat, "_REFRESH"), Some(m.refresh)))
    ensures Says(m, Assign(Name(seat, "_EXPECTED_EMAIL"), Some(email)))
    ensures Says(m, Assign(Name(seat, "_MINTED_AT"), Some(m.mintedAt)))
    ensures m.clientId != MintedBlocks.DEFAULT_CLIENT_ID ==> Says(m, Assign(Name(seat, "_CLIENT_ID"), Some(m.clientId)))
  {
    SameNames(m, seat);
    var mine := if m.letter == "A" then 0 else if m.letter == "B" then 1 else 2;
    assert LETTERS[mine] == m.letter;
    assert SaysEmail(m, mine, Assign(Name(seat, "_EXPECTED_EMAIL"), Some(email)));
  }

  /**
  Minting and then seeding: in any shell, after any earlier blocks, the letter's slot holds the
  minted tokens, with the config's address where it has one; and with the minted client id exactly
  if that was printed, or no other was set before.
  */
  lemma MintThenSeed(lib: Library, env: Shell, earlier: seq<Assign>, m: Mint, block: seq<Assign>, cfg: Config,
                     seat: Seat, email: string, minted: int)
    requires SeatOf(m, seat) && BlockOf(m, block) && Usable(lib, m, minted)
    requires EmailFor(m.letter, m.emails) == Some(email)
    ensures var after := After(env, earlier, block);
      && Occupied(after, cfg, seat)
      && LetterTokens(lib, after, cfg, seat) ==
           Tokens(seat.slot, m.bearer, m.refresh, Or(CastEmail(cfg, seat), email),
                  FoundClient(env, earlier, m, seat), Some(minted))
  {
    var after := After(env, earlier, block);
    OwnSaid(m, seat, email);
    SaidIsRead(env, earlier, m, block, Name(seat, "_BEARER"), m.bearer);
    SaidIsRead(env, earlier, m, block, Name(seat, "_REFRESH"), m.refresh);
    SaidIsRead(env, earlier, m, block, Name(seat, "_EXPECTED_EMAIL"), email);
    SaidIsRead(env, earlier, m, block, Name(seat, "_MINTED_AT"), m.mintedAt);
    StripFacts(m.bearer);
    StripFacts(m.refresh);
    StripFacts(m.clientId);
    EmailIsStripped(m, email);
    StripFacts(email);
    ClientIdFound(env, earlier, m, block, seat);
  }

  lemma EmailIsStripped(m: Mint, email: string)
    requires EmailFor(m.letter, m.emails) == Some(email)
    ensures email != "" && Trimmed(email)
    ensures m.letter in m.emails && email == Strip(m.emails[m.letter])
  {
    StripFacts("");
    StripFacts(if m.letter in m.emails then m.emails[m.letter] else "");
  }

  lemma ClientIdFound(env: Shell, earlier: seq<Assign>, m: Mint, block: seq<Assign>, seat: Seat)
    requires SeatOf(m, seat) && BlockOf(m, block) && m.clientId != "" && Trimmed(m.clientId)
    ensures Or(Read(After(env, earlier, block), Name(seat, "_CLIENT_ID")), IdentityTokens.DEFAULT_CLIENT_ID) ==
      FoundClient(env, earlier, m, seat)
  {
    if m.clientId == MintedBlocks.DEFAULT_CLIENT_ID {
      forall a | a in block ensures a.key != Name(seat, "_CLIENT_ID") { ClientUnsaid(m, seat, a); }
      UnsaidStays(env, earlier, block, Name(seat, "_CLIENT_ID"));
    } else {
      assert Says(m, Assign(Name(seat, "_CLIENT_ID"), Some(m.clientId)));
      SaidIsRead(env, earlier, m, block, Name(seat, "_CLIENT_ID"), m.clientId);
      StripFacts(m.clientId);
    }
  }

  /** The minted client id is found exactly if it was printed, or the shell had none or the same. */
  lemma MintedClientFoundIff(env: Shell, earlier: seq<Assign>, m: Mint, seat: Seat)
    requires m.clientId != ""
    ensures FoundClient(env, earlier, m, seat) == m.clientId <==>
      || m.clientId != MintedBlocks.DEFAULT_CLIENT_ID
      || Strip(Value(Run(env, earlier), Name(seat, "_CLIENT_ID"))) == ""
      || Strip(Value(Run(env, earlier), Name(seat, "_CLIENT_ID"))) == m.clientId
  {
  }

  /** An older client id survives a mint with the default one. */
  lemma StaleClientExample(m: Mint, seat: Seat)
    requires seat == SEATS[0] && m.clientId == MintedBlocks.DEFAULT_CLIENT_ID
    ensures FoundClient(map["A_CLIENT_ID" := "other"], [], m, seat) == "other"
  {
    assert "other"[0] == 'o' && "other"[4] == 'r' && Trimmed("other");
    StripFacts("other");
    assert Name(seat, "_CLIENT_ID") == "A_CLIENT_ID";
  }
}
