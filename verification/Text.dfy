/** Text order, trimming and decimal printing, as Python and SQLite do them on these strings. */
module Text {
  import opened Sorting

  /** Comparison of text, character by character; a proper prefix comes first. */
  predicate StrLe(a: string, b: string) {
    a == [] || (b != [] && (a[0] < b[0] || (a[0] == b[0] && StrLe(a[1..], b[1..]))))
  }

  predicate StrLt(a: string, b: string) {
    !StrLe(b, a)
  }

  lemma StrLeTotal(a: string, b: string)
    ensures StrLe(a, b) || StrLe(b, a)
  {
  }

  lemma StrLeTransitive(a: string, b: string, c: string)
    requires StrLe(a, b) && StrLe(b, c)
    ensures StrLe(a, c)
  {
  }

  lemma {:induction false} StrLeAntisymmetric(a: string, b: string)
    requires StrLe(a, b) && StrLe(b, a)
    ensures a == b
  {
    if a != [] {
      StrLeAntisymmetric(a[1..], b[1..]);
      assert a == [a[0]] + a[1..] && b == [b[0]] + b[1..];
    }
  }

  lemma StrLePreorder()
    ensures TotalPreorder(StrLe)
  {
    forall a, b ensures StrLe(a, b) || StrLe(b, a) { StrLeTotal(a, b); }
    forall a, b, c | StrLe(a, b) && StrLe(b, c) ensures StrLe(a, c) { StrLeTransitive(a, b, c); }
  }

  lemma StrLeCons(a: string, b: string)
    requires a != [] && b != []
    ensures StrLe(a, b) <==> a[0] < b[0] || (a[0] == b[0] && StrLe(a[1..], b[1..]))
  {
  }

  lemma StrLeSameHead(c: char, a: string, b: string)
    ensures StrLe([c] + a, [c] + b) <==> StrLe(a, b)
  {
    assert ([c] + a)[1..] == a && ([c] + b)[1..] == b;
    StrLeCons([c] + a, [c] + b);
  }

  lemma {:induction false} StrLeSamePrefix(p: string, a: string, b: string)
    ensures StrLe(p + a, p + b) <==> StrLe(a, b)
  {
    if p == [] {
      assert p + a == a && p + b == b;
    } else {
      var q, c := p[..|p| - 1], p[|p| - 1];
      var ca, cb := [c] + a, [c] + b;
      assert p + a == q + ca && p + b == q + cb;
      StrLeSamePrefix(q, ca, cb);
      StrLeSameHead(c, a, b);
    }
  }

  lemma {:induction false} StrLeOtherPrefix(p: string, q: string, a: string, b: string)
    requires |p| == |q| && p != q
    ensures StrLe(p + a, q + b) <==> StrLe(p, q)
  {
    var pa, qb := p + a, q + b;
    StrLeCons(pa, qb);
    StrLeCons(p, q);
    if p[0] == q[0] {
      assert p == [p[0]] + p[1..] && q == [q[0]] + q[1..];
      StrLeOtherPrefix(p[1..], q[1..], a, b);
      assert pa[1..] == p[1..] + a && qb[1..] == q[1..] + b;
    }
  }

  /** After equally long beginnings, the beginnings decide unless they are equal. */
  lemma StrLeAppend(p: string, q: string, a: string, b: string)
    requires |p| == |q|
    ensures StrLe(p + a, q + b) <==> if p == q then StrLe(a, b) else StrLe(p, q)
  {
    if p == q {
      StrLeSamePrefix(p, a, b);
    } else {
      StrLeOtherPrefix(p, q, a, b);
    }
  }

  /** The ASCII part of what Python's `str.strip` removes. */
  predicate IsSpace(c: char) {
    c in " \t\n\r" || c == '\U{000B}' || c == '\U{000C}' || '\U{001C}' <= c <= '\U{001F}'
  }

  /** Tab to carriage return, the four separators, and the blank. */
  lemma SpaceIff(c: char)
    ensures IsSpace(c) <==> 9 <= c as int <= 13 || 28 <= c as int <= 32
  {
    assert " \t\n\r"[0] == ' ' && " \t\n\r"[1] == '\t' && " \t\n\r"[2] == '\n' && " \t\n\r"[3] == '\r';
  }

  function StripLeft(s: string): string {
    if s != [] && IsSpace(s[0]) then StripLeft(s[1..]) else s
  }

  function StripRight(s: string): string {
    if s != [] && IsSpace(s[|s| - 1]) then StripRight(s[..|s| - 1]) else s
  }

  function Strip(s: string): string {
    StripRight(StripLeft(s))
  }

  /** Neither end is white space: exactly the texts that `Strip` leaves alone. */
  predicate Trimmed(s: string) {
    s != [] ==> !IsSpace(s[0]) && !IsSpace(s[|s| - 1])
  }

  lemma {:induction false} StripLeftSuffix(s: string)
    ensures |StripLeft(s)| <= |s| && StripLeft(s) == s[|s| - |StripLeft(s)|..]
    ensures StripLeft(s) != [] ==> !IsSpace(StripLeft(s)[0])
  {
    if s != [] && IsSpace(s[0]) {
      StripLeftSuffix(s[1..]);
    }
  }

  lemma {:induction false} StripRightPrefix(s: string)
    ensures StripRight(s) <= s
    ensures StripRight(s) != [] ==> !IsSpace(StripRight(s)[|StripRight(s)| - 1])
  {
    if s != [] && IsSpace(s[|s| - 1]) {
      StripRightPrefix(s[..|s| - 1]);
    }
  }

  lemma StripTrims(s: string)
    ensures Trimmed(Strip(s))
    ensures Trimmed(s) <==> Strip(s) == s
  {
    StripLeftSuffix(s);
    StripRightPrefix(StripLeft(s));
  }

  lemma {:induction false} StripLeftKeeps(s: string, c: char)
    requires c in s && !IsSpace(c)
    ensures c in StripLeft(s)
  {
    if IsSpace(s[0]) {
      assert s == [s[0]] + s[1..];
      StripLeftKeeps(s[1..], c);
    }
  }

  lemma {:induction false} StripRightKeeps(s: string, c: char)
    requires c in s && !IsSpace(c)
    ensures c in StripRight(s)
  {
    if IsSpace(s[|s| - 1]) {
      assert s == s[..|s| - 1] + [s[|s| - 1]];
      StripRightKeeps(s[..|s| - 1], c);
    }
  }

  /** Only white space is removed. */
  lemma StripKeeps(s: string, c: char)
    requires c in s && !IsSpace(c)
    ensures c in Strip(s)
  {
    StripLeftKeeps(s, c);
    StripRightKeeps(StripLeft(s), c);
  }

  function LowerChar(c: char): char {
    if 'A' <= c <= 'Z' then c - 'A' + 'a' else c
  }

  function Lower(s: string): (r: string)
    ensures |r| == |s|
  {
    seq(|s|, i requires 0 <= i < |s| => LowerChar(s[i]))
  }

  function Digit(d: nat): char
    requires d < 10
  {
    '0' + d as char
  }

  function Decimal(n: nat): (s: string)
    ensures s != []
    ensures forall c | c in s :: '0' <= c <= '9'
  {
    if n < 10 then [Digit(n)] else Decimal(n / 10) + [Digit(n % 10)]
  }

  lemma DecimalLength(n: nat)
    ensures n < 10 <==> |Decimal(n)| == 1
  {
  }

  lemma {:induction false} DecimalInjective(m: nat, n: nat)
    requires Decimal(m) == Decimal(n)
    ensures m == n
  {
    var s := Decimal(m);
    if m < 10 {
      assert |s| == 1;
      DecimalLength(n);
    } else {
      DecimalLength(m);
      DecimalLength(n);
      var p, q := Decimal(m / 10), Decimal(n / 10);
      assert s[..|s| - 1] == p && s[..|s| - 1] == q;
      assert s[|s| - 1] == Digit(m % 10) == Digit(n % 10);
      DecimalInjective(m / 10, n / 10);
    }
  }
}
