/**
The brace scanner of bin/engine-smoke.py, which finds the end of a JSON object in a log
message with three variables (`depth`, `in_str`, `escaped`), and the proof that it cuts
out exactly the object for every JSON text in the sense of RFC 8259.
*/
module PayloadScan {
  import opened Wrappers

  // ----- The scanner's state

  datatype Scan = Scan(depth: int, inStr: bool, escaped: bool)

  const OUTSIDE: Scan := Scan(0, false, false)

  /** One character of the scan, except that the closing brace of the whole object is not a step. */
  function Step(s: Scan, ch: char): Option<Scan> {
    if s.inStr then
      Some(if s.escaped then s.(escaped := false)
           else if ch == '\\' then s.(escaped := true)
           else if ch == '"' then s.(inStr := false)
           else s)
    else if ch == '"' then Some(s.(inStr := true))
    else if ch == '{' then Some(s.(depth := s.depth + 1))
    else if ch == '}' then if s.depth - 1 == 0 then None else Some(s.(depth := s.depth - 1))
    else Some(s)
  }

  /** The state after all of `text`; `None` if the object was closed on the way. */
  function Through(text: string, s: Scan): Option<Scan> {
    if text == [] then Some(s)
    else
      match Through(text[..|text| - 1], s)
      case None => None
      case Some(before) => Step(before, text[|text| - 1])
  }

  /** `text[open..end + 1]` is the first brace-balanced object at or after `start`. */
  ghost predicate FirstObject(text: string, start: nat, open: nat, end: nat) {
    && start <= open < end < |text|
    && text[open] == '{' && (forall i | start <= i < open :: text[i] != '{')
    && text[end] == '}'
    && Through(text[open..end], OUTSIDE) == Some(Scan(1, false, false))
  }

  /** No object starts at or after `start`, or the first one is never closed. */
  ghost predicate NoObject(text: string, start: nat) {
    || (forall i | start <= i < |text| :: text[i] != '{')
    || (exists open ::
          && start <= open < |text|
          && text[open] == '{' && (forall i | start <= i < open :: text[i] != '{')
          && Through(text[open..], OUTSIDE).Some?)
  }

  method FindBrace(text: string, start: nat) returns (at: Option<nat>)
    ensures match at
      case None => forall i | start <= i < |text| :: text[i] != '{'
      case Some(p) => start <= p < |text| && text[p] == '{' && forall i | start <= i < p :: text[i] != '{'
  {
    var i := start;
    while i < |text|
      invariant start <= i
      invariant forall j | start <= j < i && j < |text| :: text[j] != '{'
    {
      if text[i] == '{' {
        return Some(i);
      }
      i := i + 1;
    }
    return None;
  }

  lemma Rest(text: string, p: nat)
    requires p <= |text|
    ensures text[p..|text|] == text[p..]
  {
  }

  /** `loads` stands for `json.loads`, with `None` for the `ValueError` the caller turns into `None`. */
  method PayloadAfter<J>(text: string, start: nat, loads: string -> Option<J>)
    returns (payload: Option<J>, ghost cut: Option<(nat, nat)>)
    ensures IsCut(text, start, cut)
    ensures payload == match cut case None => None case Some((open, end)) => loads(text[open..end + 1])
  {
    var at := FindBrace(text, start);
    if at == None {
      return None, None;
    }
    var openAt := at.value;
    var depth, inStr, escaped := 0, false, false;
    for i := openAt to |text|
      invariant Through(text[openAt..i], OUTSIDE) == Some(Scan(depth, inStr, escaped))
      invariant i > openAt ==> depth > 0
      invariant depth >= 0 && (escaped ==> inStr)
    {
      var ch := text[i];
      assert text[openAt..i + 1][..i - openAt] == text[openAt..i];
      if inStr {
        if escaped {
          escaped := false;
        } else if ch == '\\' {
          escaped := true;
        } else if ch == '"' {
          inStr := false;
        }
        continue;
      }
      if ch == '"' {
        inStr := true;
      } else if ch == '{' {
        depth := depth + 1;
      } else if ch == '}' {
        depth := depth - 1;
        if depth == 0 {
          return loads(text[openAt..i + 1]), Some((openAt, i));
        }
      }
    }
    Rest(text, openAt);
    return None, None;
  }

  // ----- JSON texts (RFC 8259, sections 2 to 7), as concrete syntax

  /** Section 7: an unescaped character, a two-character escape, or a `\uXXXX` escape. */
  datatype StrChar = Plain(c: char) | Escape(c: char) | Unicode(hex: string)

  datatype Value =
    | Token(text: string)                                   // true, false, null or a number
    | Str(chars: seq<StrChar>)
    | Arr(ws: string, items: Items)
    | Obj(ws: string, members: Members)

  datatype Items =
    | NoItems
    | Item(before: string, value: Value, after: string, rest: Items)

  datatype Members =
    | NoMembers
    | Member(before: string, key: seq<StrChar>, mid: string, colon: string, value: Value, after: string, rest: Members)

  predicate IsWs(s: string) {
    forall i | 0 <= i < |s| :: s[i] == ' ' || s[i] == '\t' || s[i] == '\n' || s[i] == '\r'
  }

  predicate IsHex(c: char) {
    '0' <= c <= '9' || 'a' <= c <= 'f' || 'A' <= c <= 'F'
  }

  predicate ValidChar(c: StrChar) {
    match c
    case Plain(p) => p >= ' ' && p != '"' && p != '\\'
    case Escape(e) => e in ['"', '\\', '/', 'b', 'f', 'n', 'r', 't']
    case Unicode(hex) => |hex| == 4 && forall i | 0 <= i < 4 :: IsHex(hex[i])
  }

  predicate ValidChars(cs: seq<StrChar>) {
    forall i | 0 <= i < |cs| :: ValidChar(cs[i])
  }

  /** The literal names, or any text over the alphabet of section 6's numbers. */
  predicate ValidToken(s: string) {
    || s == "true" || s == "false" || s == "null"
    || forall i | 0 <= i < |s| :: '0' <= s[i] <= '9' || s[i] in ['+', '-', '.', 'e', 'E']
  }

  predicate Valid(v: Value) {
    match v
    case Token(text) => ValidToken(text)
    case Str(chars) => ValidChars(chars)
    case Arr(ws, items) => IsWs(ws) && ValidItems(items)
    case Obj(ws, members) => IsWs(ws) && ValidMembers(members)
  }

  predicate ValidItems(items: Items) {
    match items
    case NoItems => true
    case Item(before, v, after, rest) => IsWs(before) && Valid(v) && IsWs(after) && ValidItems(rest)
  }

  predicate ValidMembers(members: Members) {
    match members
    case NoMembers => true
    case Member(before, key, mid, colon, v, after, rest) =>
      && IsWs(before) && ValidChars(key) && IsWs(mid) && IsWs(colon) && Valid(v) && IsWs(after)
      && ValidMembers(rest)
  }

  function PrintChar(c: StrChar): string {
    match c
    case Plain(p) => [p]
    case Escape(e) => ['\\', e]
    case Unicode(hex) => "\\u" + hex
  }

  function PrintChars(cs: seq<StrChar>): string {
    if cs == [] then "" else PrintChar(cs[0]) + PrintChars(cs[1..])
  }

  function PrintStr(cs: seq<StrChar>): string {
    "\"" + PrintChars(cs) + "\""
  }

  function Print(v: Value): string {
    match v
    case Token(text) => text
    case Str(chars) => PrintStr(chars)
    case Arr(ws, items) => "[" + ws + PrintItems(items) + "]"
    case Obj(ws, members) => "{" + (ws + PrintMembers(members)) + "}"
  }

  function PrintItems(items: Items): string {
    match items
    case NoItems => ""
    case Item(before, v, after, rest) =>
      before + Print(v) + after + (if rest.NoItems? then "" else ",") + PrintItems(rest)
  }

  function PrintMembers(members: Members): string {
    match members
    case NoMembers => ""
    case Member(before, key, mid, colon, v, after, rest) =>
      before + PrintStr(key) + mid + ":" + colon + Print(v) + after
      + (if rest.NoMembers? then "" else ",") + PrintMembers(rest)
  }

  // ----- The scan passes over any JSON value inside an object and comes out as it went in

  lemma {:induction false} ThroughAppend(a: string, b: string, s: Scan)
    ensures Through(a + b, s) == match Through(a, s) case None => None case Some(m) => Through(b, m)
  {
    if b == [] {
      assert a + b == a;
    } else {
      var ab := a + b;
      ThroughAppend(a, b[..|b| - 1], s);
      assert ab[..|ab| - 1] == a + b[..|b| - 1];
      assert ab[|ab| - 1] == b[|b| - 1];
    }
  }

  lemma ThroughOne(c: char, s: Scan)
    ensures Through([c], s) == Step(s, c)
  {
    assert [c][..0] == [];
  }

  /** Text without quotes or braces does not move the scan outside strings. */
  lemma {:induction false} ThroughQuiet(text: string, s: Scan)
    requires !s.inStr && forall i | 0 <= i < |text| :: text[i] != '"' && text[i] != '{' && text[i] != '}'
    ensures Through(text, s) == Some(s)
  {
    if text != [] {
      ThroughQuiet(text[..|text| - 1], s);
    }
  }

  /** Text without quotes or backslashes does not move the scan inside a string. */
  lemma {:induction false} ThroughPlain(text: string, s: Scan)
    requires s.inStr && !s.escaped && forall i | 0 <= i < |text| :: text[i] != '"' && text[i] != '\\'
    ensures Through(text, s) == Some(s)
  {
    if text != [] {
      ThroughPlain(text[..|text| - 1], s);
    }
  }

  lemma ThroughChar(c: StrChar, s: Scan)
    requires ValidChar(c) && s.inStr && !s.escaped
    ensures Through(PrintChar(c), s) == Some(s)
  {
    match c
    case Plain(p) =>
      ThroughPlain([p], s);
    case Escape(e) =>
      ThroughAppend("\\", [e], s);
      ThroughOne('\\', s);
      ThroughOne(e, s.(escaped := true));
      assert "\\" + [e] == ['\\', e];
    case Unicode(hex) =>
      ThroughAppend("\\u", hex, s);
      ThroughAppend("\\", "u", s);
      ThroughOne('\\', s);
      ThroughOne('u', s.(escaped := true));
      assert "\\" + "u" == "\\u";
      ThroughPlain(hex, s);
  }

  lemma {:induction false} ThroughChars(cs: seq<StrChar>, s: Scan)
    requires ValidChars(cs) && s.inStr && !s.escaped
    ensures Through(PrintChars(cs), s) == Some(s)
  {
    if cs != [] {
      ThroughChar(cs[0], s);
      ThroughChars(cs[1..], s);
      ThroughAppend(PrintChar(cs[0]), PrintChars(cs[1..]), s);
    }
  }

  lemma ThroughStr(cs: seq<StrChar>, s: Scan)
    requires ValidChars(cs) && !s.inStr && !s.escaped
    ensures Through(PrintStr(cs), s) == Some(s)
  {
    var inside := s.(inStr := true);
    ThroughOne('"', s);
    ThroughOne('"', inside);
    ThroughChars(cs, inside);
    ThroughAppend("\"", PrintChars(cs), s);
    ThroughAppend("\"" + PrintChars(cs), "\"", s);
  }

  /** A piece the scan passes over without a change. */
  ghost predicate Passes(text: string, s: Scan) {
    Through(text, s) == Some(s)
  }

  lemma PassesAppend(a: string, b: string, s: Scan)
    requires Passes(a, s) && Passes(b, s)
    ensures Passes(a + b, s)
  {
    ThroughAppend(a, b, s);
  }

  lemma PassesBraces(inside: string, s: Scan)
    requires s.depth >= 1 && !s.inStr && !s.escaped && Passes(inside, s.(depth := s.depth + 1))
    ensures Passes("{" + inside + "}", s)
  {
    ThroughOne('{', s);
    ThroughOne('}', s.(depth := s.depth + 1));
    ThroughAppend("{", inside, s);
    ThroughAppend("{" + inside, "}", s);
  }

  lemma {:induction false} PassesValue(v: Value, s: Scan)
    requires Valid(v) && s.depth >= 1 && !s.inStr && !s.escaped
    ensures Passes(Print(v), s)
    decreases v
  {
    match v
    case Token(text) =>
      ThroughQuiet(text, s);
    case Str(chars) =>
      ThroughStr(chars, s);
    case Arr(ws, items) =>
      ThroughQuiet("[" + ws, s);
      PassesItems(items, s);
      ThroughQuiet("]", s);
      PassesAppend("[" + ws, PrintItems(items), s);
      PassesAppend("[" + ws + PrintItems(items), "]", s);
    case Obj(ws, members) =>
      var deeper := s.(depth := s.depth + 1);
      ThroughQuiet(ws, deeper);
      PassesMembers(members, deeper);
      PassesAppend(ws, PrintMembers(members), deeper);
      PassesBraces(ws + PrintMembers(members), s);
  }

  lemma {:induction false} PassesItems(items: Items, s: Scan)
    requires ValidItems(items) && s.depth >= 1 && !s.inStr && !s.escaped
    ensures Passes(PrintItems(items), s)
    decreases items
  {
    match items
    case NoItems =>
    case Item(before, v, after, rest) =>
      var comma := if rest.NoItems? then "" else ",";
      ThroughQuiet(before, s);
      PassesValue(v, s);
      ThroughQuiet(after, s);
      ThroughQuiet(comma, s);
      PassesItems(rest, s);
      PassesAppend(before, Print(v), s);
      PassesAppend(before + Print(v), after, s);
      PassesAppend(before + Print(v) + after, comma, s);
      PassesAppend(before + Print(v) + after + comma, PrintItems(rest), s);
  }

  lemma {:induction false} PassesMembers(members: Members, s: Scan)
    requires ValidMembers(members) && s.depth >= 1 && !s.inStr && !s.escaped
    ensures Passes(PrintMembers(members), s)
    decreases members
  {
    match members
    case NoMembers =>
    case Member(before, key, mid, colon, v, after, rest) =>
      var comma := if rest.NoMembers? then "" else ",";
      var head := before + PrintStr(key) + mid + ":" + colon;
      ThroughQuiet(before, s);
      ThroughStr(key, s);
      PassesAppend(before, PrintStr(key), s);
      ThroughQuiet(mid, s);
      PassesAppend(before + PrintStr(key), mid, s);
      ThroughQuiet(":", s);
      PassesAppend(before + PrintStr(key) + mid, ":", s);
      ThroughQuiet(colon, s);
      PassesAppend(before + PrintStr(key) + mid + ":", colon, s);
      PassesValue(v, s);
      PassesAppend(head, Print(v), s);
      ThroughQuiet(after, s);
      PassesAppend(head + Print(v), after, s);
      ThroughQuiet(comma, s);
      PassesAppend(head + Print(v) + after, comma, s);
      PassesMembers(rest, s);
      PassesAppend(head + Print(v) + after + comma, PrintMembers(rest), s);
  }

  // ----- The scanner cuts exactly the object

  /** If the scan of `a` closes the object, so does the scan of anything beginning with `a`. */
  lemma ClosedStaysClosed(a: string, b: string)
    requires a <= b && Through(a, OUTSIDE).None?
    ensures Through(b, OUTSIDE).None?
  {
    assert b == a + b[|a|..];
    ThroughAppend(a, b[|a|..], OUTSIDE);
  }

  /** A text has at most one first object. */
  lemma FirstObjectUnique(text: string, start: nat, open: nat, end: nat, open': nat, end': nat)
    requires FirstObject(text, start, open, end) && FirstObject(text, start, open', end')
    ensures open == open' && end == end'
  {
    assert open == open';
    if end < end' {
      ClosingStep(text[open..end], text[open..end + 1]);
      ClosedStaysClosed(text[open..end + 1], text[open..end']);
    } else if end' < end {
      ClosingStep(text[open..end'], text[open..end' + 1]);
      ClosedStaysClosed(text[open..end' + 1], text[open..end]);
    }
  }

  lemma FirstObjectExcludesNone(text: string, start: nat, open: nat, end: nat)
    requires FirstObject(text, start, open, end)
    ensures !NoObject(text, start)
  {
    ClosingStep(text[open..end], text[open..end + 1]);
    ClosedStaysClosed(text[open..end + 1], text[open..]);
  }

  lemma ClosingStep(a: string, b: string)
    requires b == a + "}" && Through(a, OUTSIDE) == Some(Scan(1, false, false))
    ensures Through(b, OUTSIDE).None?
  {
    assert b[..|b| - 1] == a;
  }

  /** A text that opens with a brace and is closed by its last character. */
  ghost predicate ClosesAtEnd(printed: string) {
    exists body: string :: printed == body + "}" && OpenAtEnd(body)
  }

  ghost predicate OpenAtEnd(body: string) {
    body != "" && body[0] == '{' && Through(body, OUTSIDE) == Some(Scan(1, false, false))
  }

  /** The text of an object without its last brace leaves the scan one brace deep. */
  lemma ObjectTextCloses(v: Value)
    requires v.Obj? && Valid(v)
    ensures ClosesAtEnd(Print(v))
  {
    var inside := v.ws + PrintMembers(v.members);
    var one := Scan(1, false, false);
    ThroughQuiet(v.ws, one);
    PassesMembers(v.members, one);
    PassesAppend(v.ws, PrintMembers(v.members), one);
    ThroughOne('{', OUTSIDE);
    ThroughAppend("{", inside, OUTSIDE);
    assert Print(v) == ("{" + inside) + "}";
    assert ("{" + inside)[0] == '{';
  }

  lemma Middle(prefix: string, text: string, suffix: string)
    ensures (prefix + text + suffix)[|prefix|..|prefix| + |text|] == text
    ensures (prefix + text + suffix)[..|prefix|] == prefix
  {
  }

  /** A text that closes with its last character is the first object, after a prefix without `{`. */
  lemma BodyIsFirst(prefix: string, printed: string, body: string, suffix: string, start: nat)
    requires printed == body + "}" && OpenAtEnd(body)
    requires start <= |prefix| && forall i | start <= i < |prefix| :: prefix[i] != '{'
    ensures FirstObject(prefix + printed + suffix, start, |prefix|, |prefix| + |printed| - 1)
  {
    var text, open, end := prefix + printed + suffix, |prefix|, |prefix| + |printed| - 1;
    Middle(prefix, printed, suffix);
    assert text[open..end] == text[open..end + 1][..|body|] == body;
    assert text[open] == text[open..end + 1][0] == body[0];
    assert text[end] == text[open..end + 1][|body|] == '}';
    forall i | start <= i < open ensures text[i] != '{' { assert text[..open][i] == prefix[i]; }
  }

  /** What `PayloadAfter` promises of its cut. */
  ghost predicate IsCut(text: string, start: nat, cut: Option<(nat, nat)>) {
    match cut
    case None => NoObject(text, start)
    case Some((open, end)) => FirstObject(text, start, open, end)
  }

  lemma CutIsFirst(text: string, start: nat, open: nat, end: nat, cut: Option<(nat, nat)>)
    requires FirstObject(text, start, open, end) && IsCut(text, start, cut)
    ensures cut == Some((open, end))
  {
    FirstObjectExcludesNone(text, start, open, end);
    var (o, e) := cut.value;
    FirstObjectUnique(text, start, open, end, o, e);
  }

  lemma CutIsText(text: string, start: nat, prefix: string, printed: string, suffix: string, cut: Option<(nat, nat)>)
    requires text == prefix + printed + suffix && ClosesAtEnd(printed) && IsCut(text, start, cut)
    requires start <= |prefix| && forall i | start <= i < |prefix| :: prefix[i] != '{'
    ensures cut == Some((|prefix|, |prefix| + |printed| - 1)) && text[|prefix|..|prefix| + |printed|] == printed
  {
    var body :| printed == body + "}" && OpenAtEnd(body);
    BodyIsFirst(prefix, printed, body, suffix, start);
    CutIsFirst(text, start, |prefix|, |prefix| + |printed| - 1, cut);
    Middle(prefix, printed, suffix);
  }

  method PayloadOfText<J>(prefix: string, printed: string, suffix: string, start: nat, loads: string -> Option<J>)
    returns (payload: Option<J>)
    requires ClosesAtEnd(printed)
    requires start <= |prefix| && forall i | start <= i < |prefix| :: prefix[i] != '{'
    ensures payload == loads(printed)
  {
    var text := prefix + printed + suffix;
    ghost var cut;
    payload, cut := PayloadAfter(text, start, loads);
    CutIsText(text, start, prefix, printed, suffix, cut);
  }

  /**
  For every JSON object, whatever braces, quotes and backslashes its nested strings hold, after a
  prefix without `{` and before anything: what `PayloadAfter` decodes is exactly that object's text.
  */
  method PayloadOfObject<J>(prefix: string, v: Value, suffix: string, start: nat, loads: string -> Option<J>)
    returns (payload: Option<J>)
    requires v.Obj? && Valid(v)
    requires start <= |prefix| && forall i | start <= i < |prefix| :: prefix[i] != '{'
    ensures payload == loads(Print(v))
  {
    ObjectTextCloses(v);
    payload := PayloadOfText(prefix, Print(v), suffix, start, loads);
  }
}
