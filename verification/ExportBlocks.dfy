/**
The shell blocks of bin/mu-smoke-login.py: one block of `export K=V` and `unset K` lines per
minted letter, merged into a single block that must have the same effect as running them all.
*/
module ExportBlocks {
  import opened Wrappers
  import opened Text

  /** One line: `None` unsets the variable. */
  datatype Assign = Assign(key: string, value: Option<string>)

  const UNSET: string := "unset "
  const EXPORT: string := "export "

  type Shell = map<string, string>

  predicate IsNameChar(c: char) {
    'A' <= c <= 'Z' || 'a' <= c <= 'z' || '0' <= c <= '9' || c == '_'
  }

  /** A shell variable name. */
  predicate IsName(k: string) {
    k != [] && !('0' <= k[0] <= '9') && forall i | 0 <= i < |k| :: IsNameChar(k[i])
  }

  predicate AllNames(assigns: seq<Assign>) {
    forall i | 0 <= i < |assigns| :: IsName(assigns[i].key)
  }

  function Render(a: Assign): string {
    match a.value
    case None => UNSET + a.key
    case Some(v) => EXPORT + a.key + "=" + v
  }

  /** The well-formed lines for a list of assignments. */
  function Rendered(assigns: seq<Assign>): (lines: seq<string>)
    ensures |lines| == |assigns|
  {
    seq(|assigns|, i requires 0 <= i < |assigns| => Render(assigns[i]))
  }

  /** `s.split("=", 1)`, with `None` when there is no `=` to split at. */
  function SplitEquals(s: string): Option<(string, string)> {
    if s == [] then None
    else if s[0] == '=' then Some(("", s[1..]))
    else
      match SplitEquals(s[1..])
      case None => None
      case Some((k, v)) => Some(([s[0]] + k, v))
  }

  /** How the merge reads a line; `None` is the `ValueError` of a line without `=`. */
  function ReadLine(line: string): Option<Assign> {
    if UNSET <= line then Some(Assign(line[|UNSET|..], None))
    else
      match SplitEquals(if |EXPORT| <= |line| then line[|EXPORT|..] else "")
      case None => None
      case Some((k, v)) => Some(Assign(k, Some(v)))
  }

  function ReadLines(lines: seq<string>): Option<seq<Assign>> {
    if lines == [] then Some([])
    else
      match (ReadLines(lines[..|lines| - 1]), ReadLine(lines[|lines| - 1]))
      case (Some(before), Some(a)) => Some(before + [a])
      case _ => None
  }

  // ----- What a block does, and what merging keeps

  /** Running lines in order in a shell. */
  function Run(env: Shell, assigns: seq<Assign>): Shell {
    if assigns == [] then env
    else
      var before, a := Run(env, assigns[..|assigns| - 1]), assigns[|assigns| - 1];
      match a.value
      case None => before - {a.key}
      case Some(v) => before[a.key := v]
  }

  function Get(env: Shell, k: string): Option<string> {
    if k in env then Some(env[k]) else None
  }

  /** Keys in first-seen order. */
  function Keys(assigns: seq<Assign>): seq<string> {
    if assigns == [] then []
    else
      var before, k := Keys(assigns[..|assigns| - 1]), assigns[|assigns| - 1].key;
      if k in before then before else before + [k]
  }

  /** The value of the last line for `k`. */
  function Last(assigns: seq<Assign>, k: string): Option<string> {
    if assigns == [] then None
    else if assigns[|assigns| - 1].key == k then assigns[|assigns| - 1].value
    else Last(assigns[..|assigns| - 1], k)
  }

  /** One line per key: latest value, first position. */
  function Merged(assigns: seq<Assign>): (m: seq<Assign>)
    ensures |m| == |Keys(assigns)|
  {
    var ks := Keys(assigns);
    seq(|ks|, i requires 0 <= i < |ks| => Assign(ks[i], Last(assigns, ks[i])))
  }

  function Flatten(blocks: seq<seq<string>>): seq<string> {
    if blocks == [] then [] else Flatten(blocks[..|blocks| - 1]) + blocks[|blocks| - 1]
  }

  type Values = map<string, Option<string>>

  /** The dictionary and key list built so far. */
  ghost predicate Tracks(values: Values, order: seq<string>, assigns: seq<Assign>) {
    && order == Keys(assigns)
    && (forall k :: k in values <==> k in order)
    && (forall k | k in values :: values[k] == Last(assigns, k))
  }

  lemma TracksStep(values: Values, order: seq<string>, assigns: seq<Assign>, a: Assign)
    requires Tracks(values, order, assigns)
    ensures Tracks(values[a.key := a.value], if a.key in values then order else order + [a.key], assigns + [a])
  {
    assert (assigns + [a])[..|assigns|] == assigns;
  }

  lemma {:induction false} ReadPrefix(lines: seq<string>, n: nat)
    requires n <= |lines| && ReadLines(lines[..n]).None?
    ensures ReadLines(lines).None?
    decreases |lines|
  {
    if n < |lines| {
      assert lines[..|lines| - 1][..n] == lines[..n];
      ReadPrefix(lines[..|lines| - 1], n);
    } else {
      assert lines[..n] == lines;
    }
  }

  lemma {:induction false} FlattenStarts(blocks: seq<seq<string>>, n: nat)
    requires n <= |blocks|
    ensures Flatten(blocks[..n]) <= Flatten(blocks)
    decreases |blocks|
  {
    if n < |blocks| {
      assert blocks[..|blocks| - 1][..n] == blocks[..n];
      FlattenStarts(blocks[..|blocks| - 1], n);
    } else {
      assert blocks[..n] == blocks;
    }
  }

  lemma ReadStep(before: seq<string>, block: seq<string>, i: nat, done: seq<Assign>)
    requires i < |block| && ReadLines(before + block[..i]) == Some(done)
    ensures ReadLines(before + block[..i + 1]) ==
      match ReadLine(block[i]) case None => None case Some(a) => Some(done + [a])
  {
    var upTo := before + block[..i + 1];
    assert upTo[..|upTo| - 1] == before + block[..i] && upTo[|upTo| - 1] == block[i];
  }

  lemma ReadFails(blocks: seq<seq<string>>, b: nat, i: nat)
    requires b < |blocks| && i < |blocks[b]|
    requires ReadLines(Flatten(blocks[..b]) + blocks[b][..i + 1]).None?
    ensures ReadLines(Flatten(blocks)).None?
  {
    FlattenStep(blocks, b);
    FlattenStarts(blocks, b + 1);
    var upTo := Flatten(blocks[..b]) + blocks[b][..i + 1];
    assert Flatten(blocks)[..|upTo|] == upTo;
    ReadPrefix(Flatten(blocks), |upTo|);
  }

  lemma FlattenStep(blocks: seq<seq<string>>, b: nat)
    requires b < |blocks|
    ensures Flatten(blocks[..b + 1]) == Flatten(blocks[..b]) + blocks[b]
  {
    assert blocks[..b + 1][..b] == blocks[..b];
  }

  method MergeExportBlocks(blocks: seq<seq<string>>) returns (r: Option<seq<string>>)
    ensures r == match ReadLines(Flatten(blocks))
                 case None => None
                 case Some(assigns) => Some(Rendered(Merged(assigns)))
  {
    var values: Values, order: seq<string> := map[], [];
    ghost var done: seq<Assign> := [];
    for b := 0 to |blocks|
      invariant ReadLines(Flatten(blocks[..b])) == Some(done)
      invariant Tracks(values, order, done)
    {
      var block := blocks[b];
      ghost var before := Flatten(blocks[..b]);
      assert before + block[..0] == before;
      for i := 0 to |block|
        invariant ReadLines(before + block[..i]) == Some(done)
        invariant Tracks(values, order, done)
      {
        ReadStep(before, block, i, done);
        var read := ReadLine(block[i]);
        if read.None? {
          ReadFails(blocks, b, i);
          return None;
        }
        var Assign(key, value) := read.value;
        TracksStep(values, order, done, read.value);
        done := done + [read.value];
        if key !in values {
          order := order + [key];
        }
        values := values[key := value];
      }
      assert before + block[..|block|] == before + block;
      FlattenStep(blocks, b);
    }
    assert blocks[..|blocks|] == blocks;
    var lines := WriteLines(values, order, done);
    return Some(lines);
  }

  method WriteLines(values: Values, order: seq<string>, ghost assigns: seq<Assign>) returns (lines: seq<string>)
    requires Tracks(values, order, assigns)
    ensures lines == Rendered(Merged(assigns))
  {
    lines := [];
    for i := 0 to |order|
      invariant |lines| == i
      invariant forall j | 0 <= j < i :: lines[j] == Render(Merged(assigns)[j])
    {
      var key := order[i];
      assert key in order;
      lines := lines + [
        if values[key].None? then UNSET + key else EXPORT + key + "=" + values[key].value];
    }
  }

  // ----- Reading lines

  lemma {:induction false} SplitEqualsIff(s: string)
    ensures SplitEquals(s).None? <==> '=' !in s
  {
    if s != [] && s[0] != '=' {
      SplitEqualsIff(s[1..]);
      assert s == [s[0]] + s[1..];
    }
  }

  /** Exactly a line that unsets nothing and has no `=` after its first seven characters cannot be read. */
  lemma UnreadableIff(line: string)
    ensures ReadLine(line).None? <==> !("unset " <= line) && forall i | 7 <= i < |line| :: line[i] != '='
  {
    var rest := if |EXPORT| <= |line| then line[|EXPORT|..] else "";
    SplitEqualsIff(rest);
    assert forall i | 0 <= i < |rest| :: rest[i] == line[i + 7];
    if '=' in rest {
      var i :| 0 <= i < |rest| && rest[i] == '=';
      assert line[i + 7] == '=';
    }
  }

  lemma {:induction false} SplitFirstEquals(k: string, v: string)
    requires forall i | 0 <= i < |k| :: k[i] != '='
    ensures SplitEquals(k + "=" + v) == Some((k, v))
  {
    var s := k + "=" + v;
    if k == [] {
      assert s == "=" + v && s[1..] == v;
    } else {
      assert s[0] == k[0] && s[1..] == k[1..] + "=" + v;
      SplitFirstEquals(k[1..], v);
      assert [k[0]] + k[1..] == k;
    }
  }

  lemma ReadRendered(a: Assign)
    requires IsName(a.key)
    ensures ReadLine(Render(a)) == Some(a)
  {
    match a.value
    case None =>
      assert (UNSET + a.key)[|UNSET|..] == a.key;
    case Some(v) =>
      var line := EXPORT + a.key + "=" + v;
      assert line[0] == 'e';
      assert line[|EXPORT|..] == a.key + "=" + v;
      SplitFirstEquals(a.key, v);
  }

  lemma {:induction false} ReadAllRendered(assigns: seq<Assign>)
    requires AllNames(assigns)
    ensures ReadLines(Rendered(assigns)) == Some(assigns)
  {
    if assigns != [] {
      var m := |assigns| - 1;
      ReadAllRendered(assigns[..m]);
      ReadRendered(assigns[m]);
      assert Rendered(assigns)[..m] == Rendered(assigns[..m]);
      assert assigns == assigns[..m] + [assigns[m]];
    }
  }

  // ----- The merged block does what all blocks do

  lemma {:induction false} KeysFacts(assigns: seq<Assign>)
    ensures forall i, j | 0 <= i < j < |Keys(assigns)| :: Keys(assigns)[i] != Keys(assigns)[j]
    ensures forall k :: k in Keys(assigns) <==> exists i :: 0 <= i < |assigns| && assigns[i].key == k
  {
    if assigns != [] {
      var m := |assigns| - 1;
      KeysFacts(assigns[..m]);
      forall k ensures k in Keys(assigns) <==> exists i :: 0 <= i < |assigns| && assigns[i].key == k {
        if k in Keys(assigns[..m]) {
          var i :| 0 <= i < m && assigns[..m][i].key == k;
          assert assigns[i].key == k;
        }
        if i :| 0 <= i < |assigns| && assigns[i].key == k {
          assert i < m ==> assigns[..m][i].key == k;
        }
      }
    }
  }

  /** After a run, a variable is as its last line says, or as it was before if no line mentions it. */
  lemma {:induction false} RunGet(env: Shell, assigns: seq<Assign>, k: string)
    ensures Get(Run(env, assigns), k) == if k in Keys(assigns) then Last(assigns, k) else Get(env, k)
  {
    if assigns != [] {
      RunGet(env, assigns[..|assigns| - 1], k);
    }
  }

  /** A list with distinct keys keeps its keys, and each key has its own value. */
  lemma {:induction false} DistinctKeys(assigns: seq<Assign>)
    requires forall i, j | 0 <= i < j < |assigns| :: assigns[i].key != assigns[j].key
    ensures |Keys(assigns)| == |assigns|
    ensures forall i | 0 <= i < |assigns| ::
      Keys(assigns)[i] == assigns[i].key && Last(assigns, assigns[i].key) == assigns[i].value
  {
    if assigns != [] {
      var m := |assigns| - 1;
      DistinctKeys(assigns[..m]);
      KeysFacts(assigns[..m]);
    }
  }

  lemma MergedKeys(assigns: seq<Assign>)
    ensures Keys(Merged(assigns)) == Keys(assigns)
    ensures forall k | k in Keys(assigns) :: Last(Merged(assigns), k) == Last(assigns, k)
  {
    KeysFacts(assigns);
    DistinctKeys(Merged(assigns));
    forall k | k in Keys(assigns) ensures Last(Merged(assigns), k) == Last(assigns, k) {
      var i :| 0 <= i < |Keys(assigns)| && Keys(assigns)[i] == k;
      assert Merged(assigns)[i].key == k;
    }
  }

  /** In every shell, the merged lines have the effect of all lines in order. */
  lemma MergedSameEffect(env: Shell, assigns: seq<Assign>)
    ensures Run(env, Merged(assigns)) == Run(env, assigns)
  {
    var a, b := Run(env, Merged(assigns)), Run(env, assigns);
    MergedKeys(assigns);
    forall k ensures Get(a, k) == Get(b, k) {
      RunGet(env, Merged(assigns), k);
      RunGet(env, assigns, k);
    }
    assert forall k :: k in a <==> Get(a, k).Some?;
    assert forall k :: k in b <==> Get(b, k).Some?;
    assert forall k | k in a :: a[k] == Get(a, k).value == Get(b, k).value;
  }

  lemma {:induction false} AppendKeys(xs: seq<Assign>, xs': seq<Assign>, ys: seq<Assign>)
    requires Keys(xs) == Keys(xs')
    ensures Keys(xs + ys) == Keys(xs' + ys)
  {
    if ys == [] {
      assert xs + ys == xs && xs' + ys == xs';
    } else {
      var m := |ys| - 1;
      AppendKeys(xs, xs', ys[..m]);
      assert (xs + ys)[..|xs + ys| - 1] == xs + ys[..m];
      assert (xs' + ys)[..|xs' + ys| - 1] == xs' + ys[..m];
    }
  }

  lemma {:induction false} AppendLast(xs: seq<Assign>, ys: seq<Assign>, k: string)
    ensures Last(xs + ys, k) == if k in Keys(ys) then Last(ys, k) else Last(xs, k)
    ensures k in Keys(xs + ys) <==> k in Keys(xs) || k in Keys(ys)
  {
    if ys == [] {
      assert xs + ys == xs;
    } else {
      var m := |ys| - 1;
      AppendLast(xs, ys[..m], k);
      assert (xs + ys)[..|xs + ys| - 1] == xs + ys[..m];
    }
  }

  /** Merging what is already merged with more lines is merging everything at once. */
  lemma MergedNests(xs: seq<Assign>, ys: seq<Assign>)
    ensures Merged(Merged(xs) + ys) == Merged(xs + ys)
  {
    MergedKeys(xs);
    AppendKeys(Merged(xs), xs, ys);
    forall i | 0 <= i < |Keys(xs + ys)|
      ensures Last(Merged(xs) + ys, Keys(xs + ys)[i]) == Last(xs + ys, Keys(xs + ys)[i])
    {
      var k := Keys(xs + ys)[i];
      AppendLast(Merged(xs), ys, k);
      AppendLast(xs, ys, k);
    }
  }

  /**
  For every list of blocks of well-formed lines: the merge succeeds with one line per key in
  first-seen order, and in every shell it has the effect of running all blocks in order.
  */
  lemma MergeCorrect(blocks: seq<seq<string>>, assigns: seq<Assign>, merged: Option<seq<string>>, env: Shell)
    requires AllNames(assigns) && Flatten(blocks) == Rendered(assigns)
    requires merged == match ReadLines(Flatten(blocks)) case None => None case Some(xs) => Some(Rendered(Merged(xs)))
    ensures merged.Some? && |merged.value| == |Keys(assigns)|
    ensures ReadLines(merged.value) == Some(Merged(assigns))
    ensures Run(env, Merged(assigns)) == Run(env, assigns)
    ensures forall i | 0 <= i < |Keys(assigns)| :: Merged(assigns)[i].key == Keys(assigns)[i]
  {
    ReadAllRendered(assigns);
    KeysFacts(assigns);
    forall i | 0 <= i < |Merged(assigns)| ensures IsName(Merged(assigns)[i].key) {
      assert Keys(assigns)[i] in Keys(assigns);
      var j :| 0 <= j < |assigns| && assigns[j].key == Keys(assigns)[i];
    }
    ReadAllRendered(Merged(assigns));
    MergedSameEffect(env, assigns);
  }
}
