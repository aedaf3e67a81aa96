/**
The part of TOML v1.0.0 that the runner's config file uses: tables of bare keys with basic-string
values, one per line. Printing follows `_toml_str` and `save_config` of bin/_smoke_identity.py;
parsing stands for `tomllib` on such files, and refuses what TOML refuses.
*/
module Toml {
  import opened Wrappers

  type Entries = seq<(string, string)>

  /** A document: its tables, in order. */
  type Doc = seq<(string, Entries)>

  function Find(es: Entries, k: string): Option<string> {
    if es == [] then None else if es[0].0 == k then Some(es[0].1) else Find(es[1..], k)
  }

  /** `data.get(section) or {}` */
  function Section(doc: Doc, name: string): Entries {
    if doc == [] then [] else if doc[0].0 == name then doc[0].1 else Section(doc[1..], name)
  }

  // ----- Basic strings

  /** `s.replace(c, by)` */
  function Replace(s: string, c: char, to: string): string {
    if s == [] then [] else (if s[0] == c then to else [s[0]]) + Replace(s[1..], c, to)
  }

  /** As `_toml_str` escapes: backslashes first, then quotes. */
  function Escaped(v: string): string {
    Replace(Replace(v, '\\', "\\\\"), '"', "\\\"")
  }

  function EscapedChar(c: char): string {
    if c == '\\' then "\\\\" else if c == '"' then "\\\"" else [c]
  }

  lemma {:induction false} ReplaceAppend(s: string, t: string, c: char, to: string)
    ensures Replace(s + t, c, to) == Replace(s, c, to) + Replace(t, c, to)
  {
    if s == [] {
      assert s + t == t;
    } else {
      assert (s + t)[1..] == s[1..] + t;
      ReplaceAppend(s[1..], t, c, to);
    }
  }

  /** The two replacements escape each character on its own. */
  lemma EscapedCons(c: char, v: string)
    ensures Escaped([c] + v) == EscapedChar(c) + Escaped(v)
  {
    var first := if c == '\\' then "\\\\" else [c];
    assert ([c] + v)[1..] == v;
    assert Replace([c] + v, '\\', "\\\\") == first + Replace(v, '\\', "\\\\");
    ReplaceAppend(first, Replace(v, '\\', "\\\\"), '"', "\\\"");
    if c == '\\' {
      assert Replace("\\\\", '"', "\\\"") == "\\\\" by {
        assert "\\\\"[1..] == "\\";
        assert "\\"[1..] == "";
      }
    } else {
      assert [c][1..] == "";
    }
  }

  /** A character that a basic string may hold unescaped: no control character but tab. */
  predicate CleanChar(c: char) {
    (c >= ' ' || c == '\t') && c != '\U{007F}'
  }

  predicate Clean(v: string) {
    forall i | 0 <= i < |v| :: CleanChar(v[i])
  }

  /** The value up to the closing quote, and what follows; `None` is a syntax error. */
  function ParseBasic(s: string): Option<(string, string)> {
    if s == [] then None
    else if s[0] == '"' then Some(("", s[1..]))
    else if s[0] == '\\' then
      if |s| == 1 then None
      else match (Unescape(s[1]), ParseBasic(s[2..]))
           case (Some(c), Some((v, rest))) => Some(([c] + v, rest))
           case _ => None
    else if !CleanChar(s[0]) then None
    else match ParseBasic(s[1..])
         case None => None
         case Some((v, rest)) => Some(([s[0]] + v, rest))
  }

  function Unescape(c: char): Option<char> {
    if c == '\\' || c == '"' then Some(c)
    else if c == 'b' then Some('\U{0008}')
    else if c == 't' then Some('\t')
    else if c == 'n' then Some('\n')
    else if c == 'f' then Some('\U{000C}')
    else if c == 'r' then Some('\r')
    else None
  }

  /** Reading passes through the escaped form of a clean text. */
  lemma {:induction false} ParseEscaped(v: string, tail: string)
    requires Clean(v)
    ensures ParseBasic(Escaped(v) + tail) ==
      match ParseBasic(tail) case None => None case Some((w, rest)) => Some((v + w, rest))
  {
    var tailRead := ParseBasic(tail);
    if v == [] {
      assert Escaped(v) + tail == tail;
      assert tailRead.Some? ==> v + tailRead.value.0 == tailRead.value.0;
    } else {
      var c, rest := v[0], v[1..];
      assert v == [c] + rest;
      EscapedCons(c, rest);
      ParseEscaped(rest, tail);
      var s, next := Escaped(v) + tail, Escaped(rest) + tail;
      assert s == EscapedChar(c) + next;
      assert tailRead.Some? ==> [c] + (rest + tailRead.value.0) == v + tailRead.value.0;
      if c == '\\' || c == '"' {
        assert s[0] == '\\' && s[1] == c && s[2..] == next;
      } else {
        assert s[0] == c && s[1..] == next;
      }
    }
  }

  lemma ParseClosed(v: string)
    requires Clean(v)
    ensures ParseBasic(Escaped(v) + "\"") == Some((v, ""))
  {
    ParseEscaped(v, "\"");
    assert "\""[1..] == "";
    assert v + "" == v;
  }

  // ----- Lines

  datatype Line = Blank | Header(name: string) | Entry(key: string, value: string)

  predicate BareChar(c: char) {
    'A' <= c <= 'Z' || 'a' <= c <= 'z' || '0' <= c <= '9' || c == '_' || c == '-'
  }

  predicate Bare(k: string) {
    k != [] && forall i | 0 <= i < |k| :: BareChar(k[i])
  }

  function Render(l: Line): string {
    match l
    case Blank => ""
    case Header(name) => "[" + name + "]"
    case Entry(k, v) => k + " = \"" + Escaped(v) + "\""
  }

  /** The length of the bare key at the start of a line. */
  function KeyLength(s: string): (n: nat)
    ensures n <= |s|
  {
    if s == [] || !BareChar(s[0]) then 0 else 1 + KeyLength(s[1..])
  }

  function ParseLine(s: string): Option<Line> {
    if s == "" then Some(Blank)
    else if s[0] == '[' then
      if |s| >= 3 && s[|s| - 1] == ']' && Bare(s[1..|s| - 1]) then Some(Header(s[1..|s| - 1])) else None
    else
      var n := KeyLength(s);
      if n == 0 || !(" = \"" <= s[n..]) then None
      else match ParseBasic(s[n + 4..])
           case Some((v, "")) => Some(Entry(s[..n], v))
           case _ => None
  }

  lemma {:induction false} KeyLengthOf(k: string, rest: string)
    requires forall i | 0 <= i < |k| :: BareChar(k[i])
    requires rest != [] && !BareChar(rest[0])
    ensures KeyLength(k + rest) == |k|
  {
    if k == [] {
      assert k + rest == rest;
    } else {
      assert (k + rest)[1..] == k[1..] + rest;
      KeyLengthOf(k[1..], rest);
    }
  }

  lemma EntryParts(k: string, body: string)
    requires Bare(k)
    ensures ParseLine(k + " = \"" + body) ==
      match ParseBasic(body) case Some((v, "")) => Some(Entry(k, v)) case _ => None
  {
    var rest := " = \"" + body;
    var s := k + " = \"" + body;
    assert s == k + rest && rest[0] == ' ';
    KeyLengthOf(k, rest);
    assert s[0] == k[0];
    assert s[|k|..] == rest && s[..|k|] == k && s[|k| + 4..] == body;
  }

  predicate WellFormed(l: Line) {
    match l
    case Blank => true
    case Header(name) => Bare(name)
    case Entry(k, v) => Bare(k)
  }

  predicate CleanLine(l: Line) {
    l.Entry? ==> Clean(l.value)
  }

  lemma ParseRendered(l: Line)
    requires WellFormed(l) && CleanLine(l)
    ensures ParseLine(Render(l)) == Some(l)
  {
    match l
    case Blank =>
    case Header(name) =>
      var s := "[" + name + "]";
      assert s[1..|s| - 1] == name;
    case Entry(k, v) =>
      ParseClosed(v);
      assert Render(l) == k + " = \"" + (Escaped(v) + "\"");
      EntryParts(k, Escaped(v) + "\"");
  }

  // ----- Text as lines

  function Split(text: string): (lines: seq<string>)
    ensures lines != []
  {
    if text == "" then [""]
    else
      var rest := Split(text[1..]);
      if text[0] == '\n' then [""] + rest else [[text[0]] + rest[0]] + rest[1..]
  }

  /** `"\n".join(lines) + "\n"` */
  function Unlines(lines: seq<string>): string {
    if lines == [] then "" else lines[0] + "\n" + Unlines(lines[1..])
  }

  predicate OneLine(s: string) {
    forall i | 0 <= i < |s| :: s[i] != '\n'
  }

  lemma {:induction false} SplitLine(line: string, rest: string)
    requires OneLine(line)
    ensures Split(line + "\n" + rest) == [line] + Split(rest)
    ensures Split(line) == [line]
  {
    var text := line + "\n" + rest;
    if line == "" {
      assert text[1..] == rest;
    } else {
      assert text[1..] == line[1..] + "\n" + rest;
      SplitLine(line[1..], rest);
      assert line == [line[0]] + line[1..];
    }
  }

  lemma {:induction false} SplitUnlines(lines: seq<string>)
    requires forall i | 0 <= i < |lines| :: OneLine(lines[i])
    ensures Split(Unlines(lines)) == lines + [""]
  {
    if lines != [] {
      SplitLine(lines[0], Unlines(lines[1..]));
      SplitUnlines(lines[1..]);
      assert lines == [lines[0]] + lines[1..];
    }
  }

  /** A stretch of text between line ends is one of the lines. */
  lemma {:induction false} PieceIsLine(pre: string, piece: string, post: string)
    requires OneLine(piece)
    requires pre == "" || pre[|pre| - 1] == '\n'
    requires post == "" || post[0] == '\n'
    ensures piece in Split(pre + piece + post)
  {
    var text := pre + piece + post;
    if pre == "" {
      if post == "" {
        assert text == piece;
        SplitLine(piece, "");
      } else {
        assert text == piece + "\n" + post[1..];
        SplitLine(piece, post[1..]);
      }
    } else {
      assert text[1..] == pre[1..] + piece + post && text[0] == pre[0];
      PieceIsLine(pre[1..], piece, post);
      var rest := Split(text[1..]);
      if text[0] != '\n' {
        PieceNotFirst(pre[1..], piece, post);
      }
    }
  }

  /** If the text before it still holds a line end, the piece is not only the first line. */
  lemma {:induction false} PieceNotFirst(pre: string, piece: string, post: string)
    requires OneLine(piece)
    requires pre == "" || pre[|pre| - 1] == '\n'
    requires post == "" || post[0] == '\n'
    requires pre != ""
    ensures piece in Split(pre + piece + post)[1..]
  {
    var text := pre + piece + post;
    assert text[1..] == pre[1..] + piece + post && text[0] == pre[0];
    if text[0] == '\n' {
      PieceIsLine(pre[1..], piece, post);
    } else {
      PieceNotFirst(pre[1..], piece, post);
    }
  }

  // ----- Documents

  function EntryLines(es: Entries): (lines: seq<Line>)
    ensures |lines| == |es|
  {
    seq(|es|, i requires 0 <= i < |es| => Entry(es[i].0, es[i].1))
  }

  /** Tables separated by a blank line. */
  function DocLines(doc: Doc): seq<Line> {
    if doc == [] then []
    else
      var m := |doc| - 1;
      DocLines(doc[..m]) + (if m > 0 then [Blank] else []) + [Header(doc[m].0)] + EntryLines(doc[m].1)
  }

  function RenderAll(lines: seq<Line>): (ls: seq<string>)
    ensures |ls| == |lines|
  {
    seq(|lines|, i requires 0 <= i < |lines| => Render(lines[i]))
  }

  function RenderDoc(doc: Doc): string {
    Unlines(RenderAll(DocLines(doc)))
  }

  predicate HasSection(doc: Doc, name: string) {
    exists i | 0 <= i < |doc| :: doc[i].0 == name
  }

  predicate HasKey(es: Entries, k: string) {
    exists i | 0 <= i < |es| :: es[i].0 == k
  }

  /** Tables and keys may not repeat, and this schema has no keys outside a table. */
  function ReadLine(doc: Doc, l: Line): Option<Doc> {
    match l
    case Blank => Some(doc)
    case Header(name) => if HasSection(doc, name) then None else Some(doc + [(name, [])])
    case Entry(k, v) =>
      if doc == [] || HasKey(doc[|doc| - 1].1, k) then None
      else
        var m := |doc| - 1;
        Some(doc[m := (doc[m].0, doc[m].1 + [(k, v)])])
  }

  function ReadDoc(lines: seq<Line>): Option<Doc> {
    if lines == [] then Some([])
    else
      match ReadDoc(lines[..|lines| - 1])
      case None => None
      case Some(doc) => ReadLine(doc, lines[|lines| - 1])
  }

  function ParseAll(ls: seq<string>): Option<seq<Line>> {
    if ls == [] then Some([])
    else
      match (ParseLine(ls[0]), ParseAll(ls[1..]))
      case (Some(l), Some(rest)) => Some([l] + rest)
      case _ => None
  }

  function ParseToml(text: string): Option<Doc> {
    match ParseAll(Split(text))
    case None => None
    case Some(lines) => ReadDoc(lines)
  }

  /** Bare, distinct names. */
  predicate WellNamed(doc: Doc) {
    && (forall i | 0 <= i < |doc| :: Bare(doc[i].0))
    && (forall i, j | 0 <= i < j < |doc| :: doc[i].0 != doc[j].0)
    && (forall i | 0 <= i < |doc| :: WellKeyed(doc[i].1))
  }

  predicate WellKeyed(es: Entries) {
    && (forall i | 0 <= i < |es| :: Bare(es[i].0))
    && (forall i, j | 0 <= i < j < |es| :: es[i].0 != es[j].0)
  }

  predicate CleanDoc(doc: Doc) {
    forall i | 0 <= i < |doc| :: CleanEntries(doc[i].1)
  }

  predicate CleanEntries(es: Entries) {
    forall i | 0 <= i < |es| :: Clean(es[i].1)
  }

  // ----- Reading back what was printed

  lemma ReadMore(lines: seq<Line>, l: Line)
    ensures ReadDoc(lines + [l]) == match ReadDoc(lines) case None => None case Some(doc) => ReadLine(doc, l)
  {
    assert (lines + [l])[..|lines|] == lines;
  }

  lemma ReadEntry(doc: Doc, name: string, es: Entries, e: (string, string))
    requires !HasKey(es, e.0)
    ensures ReadLine(doc + [(name, es)], Entry(e.0, e.1)) == Some(doc + [(name, es + [e])])
  {
    var d, last := doc + [(name, es)], (name, es + [e]);
    assert d[|d| - 1] == (name, es);
    assert d[|d| - 1 := last] == doc + [last];
  }

  lemma {:induction false} ReadEntries(before: seq<Line>, doc: Doc, name: string, es: Entries, n: nat)
    requires n <= |es| && WellKeyed(es) && ReadDoc(before) == Some(doc + [(name, [])])
    ensures ReadDoc(before + EntryLines(es[..n])) == Some(doc + [(name, es[..n])])
  {
    if n == 0 {
      assert before + EntryLines(es[..0]) == before;
    } else {
      ReadEntries(before, doc, name, es, n - 1);
      var e := Entry(es[n - 1].0, es[n - 1].1);
      assert before + EntryLines(es[..n]) == before + EntryLines(es[..n - 1]) + [e];
      ReadMore(before + EntryLines(es[..n - 1]), e);
      assert es[..n - 1] + [es[n - 1]] == es[..n];
      assert !HasKey(es[..n - 1], es[n - 1].0);
      ReadEntry(doc, name, es[..n - 1], es[n - 1]);
    }
  }

  lemma {:induction false} ReadDocLines(doc: Doc)
    requires WellNamed(doc)
    ensures ReadDoc(DocLines(doc)) == Some(doc)
  {
    if doc != [] {
      var m := |doc| - 1;
      var (name, es) := doc[m];
      ReadDocLines(doc[..m]);
      var before := DocLines(doc[..m]);
      var spaced := before + if m > 0 then [Blank] else [];
      if m > 0 {
        ReadMore(before, Blank);
      } else {
        assert spaced == before;
      }
      ReadMore(spaced, Header(name));
      assert !HasSection(doc[..m], name);
      ReadEntries(spaced + [Header(name)], doc[..m], name, es, |es|);
      assert es[..|es|] == es && doc == doc[..m] + [(name, es)];
    }
  }

  predicate AllFormed(lines: seq<Line>) {
    forall i | 0 <= i < |lines| :: WellFormed(lines[i])
  }

  predicate AllClean(lines: seq<Line>) {
    forall i | 0 <= i < |lines| :: CleanLine(lines[i])
  }

  lemma LinesAppend(a: seq<Line>, b: seq<Line>)
    ensures AllFormed(a + b) <==> AllFormed(a) && AllFormed(b)
    ensures AllClean(a + b) <==> AllClean(a) && AllClean(b)
  {
    var ab := a + b;
    assert forall i | 0 <= i < |a| :: ab[i] == a[i];
    assert forall i | 0 <= i < |b| :: ab[|a| + i] == b[i];
  }

  lemma EntryLinesFine(es: Entries)
    requires WellKeyed(es)
    ensures AllFormed(EntryLines(es)) && (AllClean(EntryLines(es)) <==> CleanEntries(es))
  {
    if AllClean(EntryLines(es)) {
      forall i | 0 <= i < |es| ensures Clean(es[i].1) { assert CleanLine(EntryLines(es)[i]); }
    }
  }

  lemma CleanDocStep(doc: Doc)
    requires doc != []
    ensures CleanDoc(doc) <==> CleanDoc(doc[..|doc| - 1]) && CleanEntries(doc[|doc| - 1].1)
  {
    var before := doc[..|doc| - 1];
    assert forall i | 0 <= i < |before| :: doc[i] == before[i];
  }

  lemma {:induction false} DocLinesFine(doc: Doc)
    requires WellNamed(doc)
    ensures AllFormed(DocLines(doc)) && (AllClean(DocLines(doc)) <==> CleanDoc(doc))
  {
    if doc != [] {
      var m := |doc| - 1;
      DocLinesFine(doc[..m]);
      EntryLinesFine(doc[m].1);
      var a, b, h := DocLines(doc[..m]), if m > 0 then [Blank] else [], [Header(doc[m].0)];
      LinesAppend(a, b);
      LinesAppend(a + b, h);
      LinesAppend(a + b + h, EntryLines(doc[m].1));
      CleanDocStep(doc);
    }
  }

  lemma {:induction false} EscapedOneLine(v: string)
    requires Clean(v)
    ensures OneLine(Escaped(v))
  {
    if v != [] {
      assert v == [v[0]] + v[1..];
      EscapedCons(v[0], v[1..]);
      EscapedOneLine(v[1..]);
    }
  }

  lemma RenderedOneLine(l: Line)
    requires WellFormed(l) && CleanLine(l)
    ensures OneLine(Render(l))
  {
    if l.Entry? {
      EscapedOneLine(l.value);
    }
  }

  lemma RenderAllCons(lines: seq<Line>)
    requires lines != []
    ensures RenderAll(lines) + [""] == [Render(lines[0])] + (RenderAll(lines[1..]) + [""])
  {
  }

  lemma ParseAllCons(l: string, rest: seq<string>)
    ensures ParseAll([l] + rest) == match (ParseLine(l), ParseAll(rest))
                                    case (Some(x), Some(xs)) => Some([x] + xs)
                                    case _ => None
  {
    assert ([l] + rest)[1..] == rest;
  }

  lemma {:induction false} ParseAllRendered(lines: seq<Line>)
    requires AllFormed(lines) && AllClean(lines)
    ensures ParseAll(RenderAll(lines) + [""]) == Some(lines + [Blank])
  {
    var ls := RenderAll(lines) + [""];
    if lines == [] {
      assert ls == [""] + [] && lines + [Blank] == [Blank] + [];
      ParseAllCons("", []);
    } else {
      ParseAllRendered(lines[1..]);
      ParseRendered(lines[0]);
      RenderAllCons(lines);
      ParseAllCons(Render(lines[0]), RenderAll(lines[1..]) + [""]);
      assert [lines[0]] + (lines[1..] + [Blank]) == lines + [Blank];
    }
  }

  lemma CleanDocReadsBack(doc: Doc)
    requires WellNamed(doc) && CleanDoc(doc)
    ensures ParseToml(RenderDoc(doc)) == Some(doc)
  {
    var lines := DocLines(doc);
    DocLinesFine(doc);
    forall i | 0 <= i < |lines| ensures OneLine(RenderAll(lines)[i]) { RenderedOneLine(lines[i]); }
    SplitUnlines(RenderAll(lines));
    ParseAllRendered(lines);
    ReadDocLines(doc);
    ReadMore(lines, Blank);
  }

  // ----- A control character spoils the file

  lemma {:induction false} ParseAllFails(ls: seq<string>, bad: string)
    requires bad in ls && ParseLine(bad).None?
    ensures ParseAll(ls).None?
  {
    if ls[0] != bad {
      assert bad in ls[1..];
      ParseAllFails(ls[1..], bad);
    }
  }

  function FirstLine(t: string): (l: string)
    ensures l <= t && OneLine(l)
    ensures |l| < |t| ==> t[|l|] == '\n'
  {
    if t == [] || t[0] == '\n' then "" else [t[0]] + FirstLine(t[1..])
  }

  lemma {:induction false} EscapedAppend(u: string, v: string)
    ensures Escaped(u + v) == Escaped(u) + Escaped(v)
  {
    ReplaceAppend(u, v, '\\', "\\\\");
    ReplaceAppend(Replace(u, '\\', "\\\\"), Replace(v, '\\', "\\\\"), '"', "\\\"");
  }

  lemma {:induction false} FirstUnclean(v: string) returns (n: nat)
    requires !Clean(v)
    ensures n < |v| && Clean(v[..n]) && !CleanChar(v[n])
  {
    n := 0;
    while CleanChar(v[n])
      invariant n < |v| && Clean(v[..n]) && !Clean(v[n..])
      decreases |v| - n
    {
      n := n + 1;
    }
  }

  /** What is left of an escaped value from its first unclean character on. */
  lemma UncleanTail(v: string) returns (u: string, t: string)
    requires !Clean(v)
    ensures Escaped(v) + "\"" == Escaped(u) + t && Clean(u) && t != "" && !CleanChar(t[0])
  {
    var n := FirstUnclean(v);
    u := v[..n];
    var c, w := v[n], v[n + 1..];
    assert v == u + ([c] + w);
    EscapedAppend(u, [c] + w);
    EscapedCons(c, w);
    t := [c] + Escaped(w) + "\"";
  }

  /** A value that runs into a control character, or off its line, is a syntax error. */
  lemma UncleanBody(u: string, t: string)
    requires Clean(u) && t != "" && !CleanChar(t[0])
    ensures ParseBasic(Escaped(u) + FirstLine(t)).None?
  {
    ParseEscaped(u, FirstLine(t));
  }

  lemma CutAtLineEnd(head: string, e: string, t: string) returns (rest: string)
    requires OneLine(head) && OneLine(e)
    ensures head + (e + t) == head + (e + FirstLine(t)) + rest
    ensures OneLine(head + (e + FirstLine(t))) && (rest == "" || rest[0] == '\n')
  {
    rest := t[|FirstLine(t)|..];
    assert t == FirstLine(t) + rest;
  }

  /** The first text line of an entry with an unclean value cannot be parsed. */
  lemma UncleanEntry(k: string, v: string) returns (piece: string, rest: string)
    requires Bare(k) && !Clean(v)
    ensures Render(Entry(k, v)) == piece + rest && OneLine(piece) && ParseLine(piece).None?
    ensures rest == "" || rest[0] == '\n'
  {
    var u, t := UncleanTail(v);
    UncleanBody(u, t);
    EscapedOneLine(u);
    var head, e := k + " = \"", Escaped(u);
    EntryParts(k, e + FirstLine(t));
    rest := CutAtLineEnd(head, e, t);
    piece := head + (e + FirstLine(t));
    EntryText(k, v);
  }

  lemma EntryText(k: string, v: string)
    ensures Render(Entry(k, v)) == (k + " = \"") + (Escaped(v) + "\"")
  {
  }

  lemma {:induction false} UnlinesAt(ls: seq<string>, i: nat) returns (pre: string, post: string)
    requires i < |ls|
    ensures Unlines(ls) == pre + ls[i] + post && post != "" && post[0] == '\n'
    ensures pre == "" || pre[|pre| - 1] == '\n'
  {
    if i == 0 {
      pre, post := "", "\n" + Unlines(ls[1..]);
    } else {
      var p, q := UnlinesAt(ls[1..], i - 1);
      pre, post := ls[0] + "\n" + p, q;
    }
  }

  lemma Regroup(pre: string, piece: string, rest: string, post: string)
    ensures pre + (piece + rest) + post == pre + piece + (rest + post)
  {
  }

  lemma UncleanFails(lines: seq<Line>, i: nat)
    requires AllFormed(lines) && i < |lines| && !CleanLine(lines[i])
    ensures ParseAll(Split(Unlines(RenderAll(lines)))).None?
  {
    var piece, rest := UncleanEntry(lines[i].key, lines[i].value);
    var pre, post := UnlinesAt(RenderAll(lines), i);
    Regroup(pre, piece, rest, post);
    PieceIsLine(pre, piece, rest + post);
    ParseAllFails(Split(pre + piece + (rest + post)), piece);
  }

  /** A printed document reads back exactly if no value holds a control character; otherwise it is refused. */
  lemma ReadsBackIff(doc: Doc)
    requires WellNamed(doc)
    ensures ParseToml(RenderDoc(doc)) == if CleanDoc(doc) then Some(doc) else None
  {
    if CleanDoc(doc) {
      CleanDocReadsBack(doc);
    } else {
      DocLinesFine(doc);
      var lines := DocLines(doc);
      var i :| 0 <= i < |lines| && !CleanLine(lines[i]);
      UncleanFails(lines, i);
    }
  }
}
