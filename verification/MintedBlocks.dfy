/**
`build_exports` of bin/mu-smoke-login.py: the block of one minted letter, which lines it holds, and
what a shell looks like after it.
*/
module MintedBlocks {
  import opened Wrappers
  import opened Text
  import opened ExportBlocks

  const D1_KEY: string := "D1_DATABASE_ID"
  const LETTERS: seq<string> := ["A", "B", "C"]
  const DEFAULT_CLIENT_ID: string := "smoke-cli"

  predicate IsLetter(l: string) {
    l == "A" || l == "B" || l == "C"
  }

  /** The Microsoft cast has variables of its own. */
  function Prefix(microsoft: bool): string {
    if microsoft then "MS_" else ""
  }

  /** The address supplied for a letter; blank counts as not supplied. */
  function EmailFor(letter: string, emails: map<string, string>): Option<string> {
    var value := Strip(if letter in emails then emails[letter] else "");
    if value == "" then None else Some(value)
  }

  /** What a run of the script is given for one letter; `d1` is the database id of the host, if it is a known one. */
  datatype Mint = Mint(
    letter: string, url: string, bearer: string, refresh: string, mintedAt: string,
    emails: map<string, string>, clientId: string, microsoft: bool, d1: Option<string>)

  // ----- What a block says

  /** The host's two lines, known or not. */
  predicate SaysHost(m: Mint, a: Assign) {
    a == Assign("SCHEDULER_URL", Some(m.url)) || a == Assign(D1_KEY, m.d1)
  }

  /** What the minted letter itself contributes; the client id only if it is not the default one. */
  predicate SaysOwn(m: Mint, a: Assign) {
    var name := Prefix(m.microsoft) + m.letter;
    || a == Assign(name + "_BEARER", Some(m.bearer))
    || a == Assign(name + "_REFRESH", Some(m.refresh))
    || a == Assign(name + "_MINTED_AT", Some(m.mintedAt))
    || (m.clientId != DEFAULT_CLIENT_ID && a == Assign(name + "_CLIENT_ID", Some(m.clientId)))
  }

  /** Letter `i`'s expected address, where one was supplied. */
  predicate SaysEmail(m: Mint, i: nat, a: Assign)
    requires i < |LETTERS|
  {
    && EmailFor(LETTERS[i], m.emails).Some?
    && a == Assign(Prefix(m.microsoft) + LETTERS[i] + "_EXPECTED_EMAIL", EmailFor(LETTERS[i], m.emails))
  }

  ghost predicate SaysSomeEmail(m: Mint, a: Assign) {
    exists i :: 0 <= i < |LETTERS| && SaysEmail(m, i, a)
  }

  /** The poll's invitees are the Google accounts B and C, and go together. */
  predicate SaysInvitee(m: Mint, a: Assign) {
    && !m.microsoft && EmailFor("B", m.emails).Some? && EmailFor("C", m.emails).Some?
    && (|| a == Assign("INVITEE_A_EMAIL", EmailFor("B", m.emails))
        || a == Assign("INVITEE_B_EMAIL", EmailFor("C", m.emails)))
  }

  ghost predicate Says(m: Mint, a: Assign) {
    SaysHost(m, a) || SaysOwn(m, a) || SaysSomeEmail(m, a) || SaysInvitee(m, a)
  }

  /** The host's lines come first; every name is a shell name, and none occurs twice. */
  ghost predicate WellBuilt(m: Mint, block: seq<Assign>) {
    && |block| >= 2 && block[0] == Assign("SCHEDULER_URL", Some(m.url)) && block[1] == Assign(D1_KEY, m.d1)
    && AllNames(block) && NoRepeats(block)
  }

  ghost predicate NoRepeats(block: seq<Assign>) {
    forall i, j | 0 <= i < j < |block| :: block[i].key != block[j].key
  }

  // ----- Names

  /** The suffixes a letter's variables have. */
  predicate IsSuffix(s: string) {
    s == "_BEARER" || s == "_REFRESH" || s == "_EXPECTED_EMAIL" || s == "_MINTED_AT" || s == "_CLIENT_ID"
  }

  lemma SuffixChars(s: string)
    requires IsSuffix(s)
    ensures forall i | 0 <= i < |s| :: IsNameChar(s[i])
  {
  }

  lemma LetterName(microsoft: bool, letter: string, suffix: string)
    requires IsLetter(letter) && IsSuffix(suffix)
    ensures var k := Prefix(microsoft) + letter + suffix;
      && IsName(k) && k[|Prefix(microsoft)|] == letter[0]
      && k[0] in "ABCM"
  {
    SuffixChars(suffix);
    var k := Prefix(microsoft) + letter + suffix;
    assert forall i | 0 <= i < |suffix| :: k[|Prefix(microsoft)| + 1 + i] == suffix[i];
    assert "ABCM"[0] == 'A' && "ABCM"[1] == 'B' && "ABCM"[2] == 'C' && "ABCM"[3] == 'M';
  }

  lemma FixedNames()
    ensures IsName("SCHEDULER_URL") && IsName(D1_KEY) && IsName("INVITEE_A_EMAIL") && IsName("INVITEE_B_EMAIL")
    ensures "INVITEE_A_EMAIL" != "INVITEE_B_EMAIL"
  {
    assert "INVITEE_A_EMAIL"[8] != "INVITEE_B_EMAIL"[8];
  }

  // ----- Building

  /** A line of one of a cast's letters. */
  ghost predicate LetterLine(microsoft: bool, letter: string, a: Assign) {
    IsLetter(letter) && exists suffix :: IsSuffix(suffix) && a.key == Prefix(microsoft) + letter + suffix
  }

  lemma Joined(xs: seq<Assign>, ys: seq<Assign>)
    requires AllNames(xs) && AllNames(ys) && NoRepeats(xs) && NoRepeats(ys)
    requires forall x, y | x in xs && y in ys :: x.key != y.key
    ensures AllNames(xs + ys) && NoRepeats(xs + ys)
  {
    var all := xs + ys;
    forall i, j | 0 <= i < j < |all| ensures all[i].key != all[j].key {
      if i < |xs| <= j {
        assert all[i] in xs && all[j] in ys;
      }
    }
  }

  method OwnLines(m: Mint, email: string) returns (own: seq<Assign>)
    requires IsLetter(m.letter) && EmailFor(m.letter, m.emails) == Some(email)
    ensures AllNames(own) && NoRepeats(own)
    ensures forall a | a in own :: LetterLine(m.microsoft, m.letter, a)
    ensures forall a :: a in own <==> SaysOwn(m, a) || a == MineLine(m, email)
    ensures |own| >= 4 && own[..4] == FirstLines(m, email)
  {
    var name := Prefix(m.microsoft) + m.letter;
    var b, r, t := Assign(name + "_BEARER", Some(m.bearer)), Assign(name + "_REFRESH", Some(m.refresh)),
                   Assign(name + "_MINTED_AT", Some(m.mintedAt));
    var e, c := MineLine(m, email), Assign(name + "_CLIENT_ID", Some(m.clientId));
    own := [b, r, e, t];
    OwnNames(m.microsoft, m.letter, b.key, r.key, e.key, t.key, c.key);
    FourLines(b, r, e, t);
    if m.clientId != DEFAULT_CLIENT_ID {
      own := own + [c];
    }
    forall a ensures a in own <==> SaysOwn(m, a) || a == e {
      assert a in own <==> a == b || a == r || a == e || a == t || (m.clientId != DEFAULT_CLIENT_ID && a == c);
    }
    forall a | a in own ensures LetterLine(m.microsoft, m.letter, a) { OwnIsLetterLine(m, email, a); }
  }

  /** The four lines that a letter always has, in this order. */
  function FirstLines(m: Mint, email: string): seq<Assign> {
    var name := Prefix(m.microsoft) + m.letter;
    [Assign(name + "_BEARER", Some(m.bearer)), Assign(name + "_REFRESH", Some(m.refresh)), MineLine(m, email),
     Assign(name + "_MINTED_AT", Some(m.mintedAt))]
  }

  function MineLine(m: Mint, email: string): Assign {
    Assign(Prefix(m.microsoft) + m.letter + "_EXPECTED_EMAIL", Some(email))
  }

  lemma FourLines(b: Assign, r: Assign, e: Assign, t: Assign)
    requires IsName(b.key) && IsName(r.key) && IsName(e.key) && IsName(t.key)
    requires b.key != r.key && b.key != e.key && b.key != t.key && r.key != e.key && r.key != t.key && e.key != t.key
    ensures AllNames([b, r, e, t]) && NoRepeats([b, r, e, t])
  {
  }

  lemma OwnIsLetterLine(m: Mint, email: string, a: Assign)
    requires IsLetter(m.letter) && (SaysOwn(m, a) || a == MineLine(m, email))
    ensures LetterLine(m.microsoft, m.letter, a)
  {
    var name := Prefix(m.microsoft) + m.letter;
    if a.key == name + "_BEARER" {
      assert IsSuffix("_BEARER");
    } else if a.key == name + "_REFRESH" {
      assert IsSuffix("_REFRESH");
    } else if a.key == name + "_EXPECTED_EMAIL" {
      assert IsSuffix("_EXPECTED_EMAIL");
    } else if a.key == name + "_MINTED_AT" {
      assert IsSuffix("_MINTED_AT");
    } else {
      assert IsSuffix("_CLIENT_ID");
    }
  }

  lemma OwnNames(microsoft: bool, letter: string, b: string, r: string, e: string, t: string, c: string)
    requires IsLetter(letter)
    requires var name := Prefix(microsoft) + letter;
      && b == name + "_BEARER" && r == name + "_REFRESH" && e == name + "_EXPECTED_EMAIL"
      && t == name + "_MINTED_AT" && c == name + "_CLIENT_ID"
    ensures IsName(b) && IsName(r) && IsName(e) && IsName(t) && IsName(c)
    ensures b != r && b != e && b != t && b != c && r != e && r != t && r != c && e != t && e != c && t != c
  {
    var n := |Prefix(microsoft) + letter| + 1;
    LetterName(microsoft, letter, "_BEARER");
    LetterName(microsoft, letter, "_REFRESH");
    LetterName(microsoft, letter, "_EXPECTED_EMAIL");
    LetterName(microsoft, letter, "_MINTED_AT");
    LetterName(microsoft, letter, "_CLIENT_ID");
    assert b[n] == 'B' && r[n] == 'R' && e[n] == 'E' && t[n] == 'M' && c[n] == 'C';
  }

  /** Letter `i` is another letter and has an address. */
  predicate OtherEmail(m: Mint, i: nat, a: Assign)
    requires i < |LETTERS|
  {
    LETTERS[i] != m.letter && SaysEmail(m, i, a)
  }

  method OtherLines(m: Mint) returns (more: seq<Assign>)
    requires IsLetter(m.letter)
    ensures AllNames(more) && NoRepeats(more)
    ensures forall a :: a in more <==> exists i :: 0 <= i < |LETTERS| && OtherEmail(m, i, a)
  {
    more := [];
    for i := 0 to 3
      invariant AllNames(more) && NoRepeats(more)
      invariant forall a :: a in more <==> exists j :: 0 <= j < i && OtherEmail(m, j, a)
    {
      var email := EmailFor(LETTERS[i], m.emails);
      if LETTERS[i] != m.letter && email.Some? {
        var line := Assign(Prefix(m.microsoft) + LETTERS[i] + "_EXPECTED_EMAIL", email);
        assert OtherEmail(m, i, line);
        NextOther(m, i, more, line);
        more := more + [line];
      }
    }
  }

  lemma NextOther(m: Mint, i: nat, more: seq<Assign>, line: Assign)
    requires i < |LETTERS| && OtherEmail(m, i, line) && AllNames(more) && NoRepeats(more)
    requires forall a | a in more :: exists j :: 0 <= j < i && OtherEmail(m, j, a)
    ensures AllNames(more + [line]) && NoRepeats(more + [line])
  {
    LetterName(m.microsoft, LETTERS[i], "_EXPECTED_EMAIL");
    forall a | a in more ensures a.key != line.key {
      var j :| 0 <= j < i && OtherEmail(m, j, a);
      LetterName(m.microsoft, LETTERS[j], "_EXPECTED_EMAIL");
      assert LETTERS[j][0] != LETTERS[i][0];
    }
    Joined(more, [line]);
  }

  /** One minted letter's block, as assignments in line order. Fails exactly when the letter has no address. */
  method BuildExports(m: Mint) returns (r: Option<seq<Assign>>)
    requires IsLetter(m.letter)
    ensures r.None? <==> EmailFor(m.letter, m.emails).None?
    ensures r.Some? ==> WellBuilt(m, r.value) && forall a :: a in r.value <==> Says(m, a)
    ensures r.Some? ==> |r.value| >= 6 && r.value[2..6] == FirstLines(m, EmailFor(m.letter, m.emails).value)
  {
    var mine := EmailFor(m.letter, m.emails);
    if mine.None? {
      return None;
    }
    var host := [Assign("SCHEDULER_URL", Some(m.url)), Assign(D1_KEY, m.d1)];
    var own := OwnLines(m, mine.value);
    var others := OtherLines(m);
    var invitees: seq<Assign> := [];
    var inviteeA, inviteeB := EmailFor("B", m.emails), EmailFor("C", m.emails);
    if !m.microsoft && inviteeA.Some? && inviteeB.Some? {
      invitees := [Assign("INVITEE_A_EMAIL", inviteeA), Assign("INVITEE_B_EMAIL", inviteeB)];
    }
    Apart(m, host, own, others, invitees);
    AllSaid(m, host, own, others, invitees);
    BehindHost(host, own, others, invitees);
    return Some(host + own + others + invitees);
  }

  lemma BehindHost(host: seq<Assign>, own: seq<Assign>, others: seq<Assign>, invitees: seq<Assign>)
    requires |host| == 2 && |own| >= 4
    ensures (host + own + others + invitees)[2..6] == own[..4]
  {
  }

  /** The name has letter `l` after the prefix, and so is none of the fixed names. */
  predicate NamesLetter(microsoft: bool, l: char, k: string) {
    |k| > 4 && k[|Prefix(microsoft)|] == l && (k[0] == 'A' || k[0] == 'B' || k[0] == 'C' || k[0] == 'M')
  }

  lemma OwnNamesLetter(m: Mint, a: Assign)
    requires LetterLine(m.microsoft, m.letter, a)
    ensures NamesLetter(m.microsoft, m.letter[0], a.key)
  {
    var suffix :| IsSuffix(suffix) && a.key == Prefix(m.microsoft) + m.letter + suffix;
    LetterName(m.microsoft, m.letter, suffix);
  }

  lemma OtherNamesLetter(m: Mint, i: nat, a: Assign)
    requires IsLetter(m.letter) && i < |LETTERS| && OtherEmail(m, i, a)
    ensures LETTERS[i][0] != m.letter[0] && NamesLetter(m.microsoft, LETTERS[i][0], a.key)
  {
    LetterName(m.microsoft, LETTERS[i], "_EXPECTED_EMAIL");
  }

  lemma Apart(m: Mint, host: seq<Assign>, own: seq<Assign>, others: seq<Assign>, invitees: seq<Assign>)
    requires IsLetter(m.letter)
    requires host == [Assign("SCHEDULER_URL", Some(m.url)), Assign(D1_KEY, m.d1)]
    requires AllNames(own) && NoRepeats(own) && forall a | a in own :: LetterLine(m.microsoft, m.letter, a)
    requires AllNames(others) && NoRepeats(others)
    requires forall a | a in others :: exists i :: 0 <= i < |LETTERS| && OtherEmail(m, i, a)
    requires invitees == [] ||
      (|invitees| == 2 && invitees[0].key == "INVITEE_A_EMAIL" && invitees[1].key == "INVITEE_B_EMAIL")
    ensures WellBuilt(m, host + own + others + invitees)
  {
    FixedNames();
    forall a | a in own ensures NamesLetter(m.microsoft, m.letter[0], a.key) { OwnNamesLetter(m, a); }
    forall a | a in others
      ensures exists l :: l != m.letter[0] && NamesLetter(m.microsoft, l, a.key)
    {
      var i :| 0 <= i < |LETTERS| && OtherEmail(m, i, a);
      OtherNamesLetter(m, i, a);
    }
    InOrder(m, host, own, others, invitees);
  }

  lemma InOrder(m: Mint, host: seq<Assign>, own: seq<Assign>, others: seq<Assign>, invitees: seq<Assign>)
    requires m.letter != ""
    requires host == [Assign("SCHEDULER_URL", Some(m.url)), Assign(D1_KEY, m.d1)] && AllNames(host)
    requires AllNames(own) && NoRepeats(own) && AllNames(others) && NoRepeats(others)
    requires AllNames(invitees) && NoRepeats(invitees)
    requires forall a | a in own :: NamesLetter(m.microsoft, m.letter[0], a.key)
    requires forall a | a in others :: exists l :: l != m.letter[0] && NamesLetter(m.microsoft, l, a.key)
    requires forall a | a in invitees :: a.key != "" && a.key[0] == 'I'
    ensures WellBuilt(m, host + own + others + invitees)
  {
    assert forall a | a in host :: a.key[0] == 'S' || a.key[0] == 'D';
    Joined(host, own);
    Joined(host + own, others);
    Joined(host + own + others, invitees);
  }

  lemma AllSaid(m: Mint, host: seq<Assign>, own: seq<Assign>, others: seq<Assign>, invitees: seq<Assign>)
    requires IsLetter(m.letter) && EmailFor(m.letter, m.emails).Some?
    requires forall a :: a in host <==> SaysHost(m, a)
    requires forall a :: a in own <==>
      SaysOwn(m, a) || a == Assign(Prefix(m.microsoft) + m.letter + "_EXPECTED_EMAIL", EmailFor(m.letter, m.emails))
    requires forall a :: a in others <==> exists i :: 0 <= i < |LETTERS| && OtherEmail(m, i, a)
    requires forall a :: a in invitees <==> SaysInvitee(m, a)
    ensures forall a :: a in host + own + others + invitees <==> Says(m, a)
  {
    forall a ensures SaysSomeEmail(m, a) <==>
      (exists i :: 0 <= i < |LETTERS| && OtherEmail(m, i, a))
      || a == Assign(Prefix(m.microsoft) + m.letter + "_EXPECTED_EMAIL", EmailFor(m.letter, m.emails))
    {
      if i :| 0 <= i < |LETTERS| && SaysEmail(m, i, a) {
        assert LETTERS[i] != m.letter ==> OtherEmail(m, i, a);
      }
      if i :| 0 <= i < |LETTERS| && OtherEmail(m, i, a) {
        assert SaysEmail(m, i, a);
      }
      var mine := if m.letter == "A" then 0 else if m.letter == "B" then 1 else 2;
      assert LETTERS[mine] == m.letter;
      var line := Assign(Prefix(m.microsoft) + m.letter + "_EXPECTED_EMAIL", EmailFor(m.letter, m.emails));
      assert SaysEmail(m, mine, line);
    }
  }

  // ----- After the block

  /** The last line for a key is the one after which the key does not occur. */
  lemma {:induction false} LastAt(assigns: seq<Assign>, i: nat)
    requires i < |assigns| && forall j | i < j < |assigns| :: assigns[j].key != assigns[i].key
    ensures Last(assigns, assigns[i].key) == assigns[i].value && assigns[i].key in Keys(assigns)
    decreases |assigns|
  {
    var n := |assigns| - 1;
    if i < n {
      assert assigns[n].key != assigns[i].key;
      LastAt(assigns[..n], i);
    }
  }

  /**
  In every shell, after any earlier blocks and this one, merged: each variable the block mentions is
  as the block says, exported or unset. No older value survives, in particular no database id.
  */
  lemma LatestBlockDecides(env: Shell, earlier: seq<Assign>, m: Mint, block: seq<Assign>, a: Assign)
    requires WellBuilt(m, block) && (forall b :: b in block <==> Says(m, b)) && Says(m, a)
    ensures Get(Run(env, Merged(earlier + block)), a.key) == a.value
  {
    var i :| 0 <= i < |block| && block[i] == a;
    LastAt(block, i);
    AppendLast(earlier, block, a.key);
    MergedSameEffect(env, earlier + block);
    RunGet(env, earlier + block, a.key);
  }

  /** A last block for an unknown host leaves the database id unset, one for a known host sets it. */
  lemma LatestHostDecides(env: Shell, earlier: seq<Assign>, m: Mint, block: seq<Assign>)
    requires WellBuilt(m, block) && forall b :: b in block <==> Says(m, b)
    ensures Get(Run(env, Merged(earlier + block)), D1_KEY) == m.d1
  {
    LatestBlockDecides(env, earlier, m, block, Assign(D1_KEY, m.d1));
  }
}
