/**
Datetime bounds of bin/solver-capture-pull.py, in every form the options accept, against the
millisecond timestamps of the worker. Bounds and timestamps are compared as text; without its `Z` a
bound is taken to name the same instant. The comparison is right outside the bound's own second, and
inside it exactly for the rows named here.
*/
module DatetimeBounds {
  import opened Wrappers
  import opened Text
  import opened CaptureBounds

  /** An instant to the second, in the order text compares it. */
  datatype Clock = Clock(date: Date, hour: nat, minute: nat, second: nat)

  predicate ValidClock(c: Clock) {
    Valid(c.date) && c.hour < 24 && c.minute < 60 && c.second < 60
  }

  predicate ClockLe(a: Clock, b: Clock) {
    if a.date != b.date then DateLe(a.date, b.date)
    else if a.hour != b.hour then a.hour < b.hour
    else if a.minute != b.minute then a.minute < b.minute
    else a.second <= b.second
  }

  function ClockText(c: Clock): string
    requires ValidClock(c)
  {
    Iso(c.date) + "T" + Two(c.hour) + ":" + Two(c.minute) + ":" + Two(c.second)
  }

  function Three(ms: nat): string
    requires ms < 1000
  {
    [Digit(ms / 100)] + Two(ms % 100)
  }

  /** What follows date and `T` in a worker's timestamp: the time of day, to the millisecond. */
  function StampRest(c: Clock, ms: nat): string
    requires ValidClock(c) && ms < 1000
  {
    Two(c.hour) + ":" + Two(c.minute) + ":" + Two(c.second) + ("." + Three(ms) + "Z")
  }

  predicate Digits(s: string) {
    forall i | 0 <= i < |s| :: IsDigit(s[i])
  }

  /** An optional fraction of at least one digit, an optional `Z`. */
  function BoundTail(fraction: string, z: string): string {
    (if fraction == "" then "" else "." + fraction) + z
  }

  /** An accepted datetime bound. */
  function BoundText(b: Clock, fraction: string, z: string): string
    requires ValidClock(b)
  {
    ClockText(b) + BoundTail(fraction, z)
  }

  predicate Suffix(z: string) {
    z == "" || z == "Z"
  }

  // ----- Instants

  /** The part of a second that the digits after the point stand for. */
  function Fraction(ds: string): (x: real)
    requires Digits(ds)
    ensures 0.0 <= x < 1.0
  {
    if ds == "" then 0.0 else (DigitValue(ds[0]) as real + Fraction(ds[1..])) / 10.0
  }

  predicate Zeros(ds: string) {
    forall i | 0 <= i < |ds| :: ds[i] == '0'
  }

  /** Instant `c` plus `x` seconds is not after instant `d` plus `y` seconds, for `x` and `y` below one. */
  predicate InstantLe(c: Clock, x: real, d: Clock, y: real) {
    if c == d then x <= y else ClockLe(c, d)
  }

  lemma {:induction false} ZeroFraction(ds: string)
    requires Digits(ds)
    ensures Fraction(ds) == 0.0 <==> Zeros(ds)
  {
    if ds != "" {
      ZeroFraction(ds[1..]);
      assert Zeros(ds) <==> ds[0] == '0' && Zeros(ds[1..]) by {
        assert ds == [ds[0]] + ds[1..];
      }
    }
  }

  lemma ThreeDigits(ms: nat)
    requires ms < 1000
    ensures Digits(Three(ms)) && |Three(ms)| == 3 && Fraction(Three(ms)) == ms as real / 1000.0
  {
    var t := Three(ms);
    DigitRoundTrip(ms / 100);
    TwoRoundTrip(ms % 100);
    assert t[1..] == Two(ms % 100) && t[1..][1..] == [t[2]] && t[1..][1..][1..] == "";
    assert Fraction([t[2]]) == DigitValue(t[2]) as real / 10.0;
    assert ms == 100 * DigitValue(t[0]) + 10 * DigitValue(t[1]) + DigitValue(t[2]);
  }

  /** One more fixed-width field, after a separator, refines the order. */
  lemma NextField(p: string, q: string, sep: string, m: nat, n: nat)
    requires |p| == |q| && m < 100 && n < 100
    ensures StrLe(p + sep + Two(m), q + sep + Two(n)) <==> if p == q then m <= n else StrLe(p, q)
    ensures p + sep + Two(m) == q + sep + Two(n) <==> p == q && m == n
  {
    TwoOrder(m, n);
    var a, b := sep + Two(m), sep + Two(n);
    assert p + sep + Two(m) == p + a && q + sep + Two(n) == q + b;
    StrLeAppend(p, q, a, b);
    StrLeAppend(sep, sep, Two(m), Two(n));
    assert (p + a)[..|p|] == p && (q + b)[..|q|] == q;
    assert a[|sep|..] == Two(m) && b[|sep|..] == Two(n);
    assert (p + a)[|p|..] == a && (q + b)[|q|..] == b;
  }

  lemma ClockOrder(a: Clock, b: Clock)
    requires ValidClock(a) && ValidClock(b)
    ensures |ClockText(a)| == |ClockText(b)|
    ensures StrLe(ClockText(a), ClockText(b)) <==> ClockLe(a, b)
    ensures ClockText(a) == ClockText(b) <==> a == b
  {
    IsoOrder(a.date, b.date);
    var a1, b1 := Iso(a.date) + "T" + Two(a.hour), Iso(b.date) + "T" + Two(b.hour);
    NextField(Iso(a.date), Iso(b.date), "T", a.hour, b.hour);
    var a2, b2 := a1 + ":" + Two(a.minute), b1 + ":" + Two(b.minute);
    NextField(a1, b1, ":", a.minute, b.minute);
    NextField(a2, b2, ":", a.second, b.second);
  }

  // ----- Text against numbers

  /** Where two runs of digits differ first, text and number agree. */
  lemma {:induction false} FractionOrder(t: string, ds: string, y: string, z: string)
    requires Digits(t) && Digits(ds) && !(t <= ds) && !(ds <= t)
    ensures Fraction(t) != Fraction(ds)
    ensures StrLe(t + y, ds + z) <==> Fraction(t) < Fraction(ds)
  {
    StrLeCons(t + y, ds + z);
    DigitOrder(DigitValue(t[0]), DigitValue(ds[0]));
    if t[0] == ds[0] {
      assert t == [t[0]] + t[1..] && ds == [ds[0]] + ds[1..];
      assert (t + y)[1..] == t[1..] + y && (ds + z)[1..] == ds[1..] + z;
      FractionOrder(t[1..], ds[1..], y, z);
    }
  }

  /** More digits add to a fraction, unless they are zeros. */
  lemma {:induction false} LongerFraction(ds: string, more: string)
    requires Digits(ds + more)
    ensures Digits(ds) && Digits(more)
    ensures Fraction(ds) <= Fraction(ds + more)
    ensures Fraction(ds) == Fraction(ds + more) <==> Zeros(more)
  {
    var all := ds + more;
    assert forall i | 0 <= i < |ds| :: ds[i] == all[i];
    assert forall i | 0 <= i < |more| :: more[i] == all[|ds| + i];
    if ds == "" {
      assert all == more;
      ZeroFraction(more);
    } else {
      assert all[1..] == ds[1..] + more;
      LongerFraction(ds[1..], more);
    }
  }

  /** A digit or a point sorts before `Z` and after the end of the text. */
  lemma AgainstSuffix(more: string, z: string)
    requires more != "" && more[0] < 'Z' && Suffix(z)
    ensures StrLe(more, z) <==> z == "Z"
    ensures StrLe(z, more) <==> z == ""
  {
  }

  // ----- What a datetime bound does to a row

  /**
  The rows a lower bound gets wrong: those of its own second that start with a short fraction ended
  by `Z`, and those that a longer fraction runs past.
  */
  predicate SinceWrong(fraction: string, z: string, row: string) {
    || (z == "Z" && |fraction| < |row| && fraction <= row)
    || (row < fraction && !Zeros(fraction[|row|..]))
  }

  predicate UntilWrong(fraction: string, z: string, row: string) {
    || (|fraction| < |row| && fraction <= row && (z == "Z" <==> !Zeros(row[|fraction|..])))
    || (fraction == row && z == "")
    || row < fraction
  }

  /** The texts of two fractions of one second, compared, against their numbers. */
  ghost predicate ComparedAs(bound: string, row: string, fraction: string, z: string, digits: string)
    requires Digits(fraction) && Digits(digits)
  {
    && ((StrLe(bound, row) <==> Fraction(fraction) <= Fraction(digits)) <==> !SinceWrong(fraction, z, digits))
    && ((StrLe(row, bound) <==> Fraction(digits) <= Fraction(fraction)) <==> !UntilWrong(fraction, z, digits))
  }

  lemma ShorterBound(ds: string, z: string, more: string)
    requires Digits(ds + more) && Suffix(z)
    ensures Digits(ds) && ComparedAs(ds + z, ds + more + "Z", ds, z, ds + more)
  {
    var row := more + "Z";
    LongerFraction(ds, more);
    assert ds + more + "Z" == ds + row && (ds + more)[|ds|..] == more;
    StrLeSamePrefix(ds, z, row);
    StrLeSamePrefix(ds, row, z);
    if more == "" {
      assert row == "Z" && ds + more == ds;
    } else {
      AgainstSuffix(row, z);
    }
  }

  lemma LongerBound(t: string, z: string, more: string)
    requires Digits(t + more) && Suffix(z) && more != ""
    ensures Digits(t) && ComparedAs(t + more + z, t + "Z", t + more, z, t)
  {
    LongerFraction(t, more);
    var bound := more + z;
    assert t + more + z == t + bound && (t + more)[|t|..] == more && more[0] == (t + more)[|t|];
    StrLeSamePrefix(t, "Z", bound);
    StrLeSamePrefix(t, bound, "Z");
  }

  lemma FractionTexts(fraction: string, z: string, t: string)
    requires Digits(fraction) && Digits(t) && Suffix(z)
    ensures ComparedAs(fraction + z, t + "Z", fraction, z, t)
  {
    if fraction <= t {
      assert t == fraction + t[|fraction|..];
      ShorterBound(fraction, z, t[|fraction|..]);
    } else if t <= fraction {
      assert fraction == t + fraction[|t|..];
      LongerBound(t, z, fraction[|t|..]);
    } else {
      FractionOrder(t, fraction, "Z", z);
      FractionOrder(fraction, t, z, "Z");
    }
  }

  lemma Tails(fraction: string, z: string, t: string)
    requires Digits(fraction) && Digits(t) && t != "" && Suffix(z)
    ensures ComparedAs(BoundTail(fraction, z), "." + t + "Z", fraction, z, t)
  {
    var row := "." + t + "Z";
    if fraction == "" {
      assert BoundTail(fraction, z) == z && t[0..] == t;
      AgainstSuffix(row, z);
      ZeroFraction(t);
    } else {
      FractionTexts(fraction, z, t);
      assert BoundTail(fraction, z) == ['.'] + (fraction + z) && row == ['.'] + (t + "Z");
      StrLeSameHead('.', fraction + z, t + "Z");
      StrLeSameHead('.', t + "Z", fraction + z);
    }
  }

  lemma StampText(c: Clock, ms: nat)
    requires ValidClock(c) && ms < 1000
    ensures RowTime(c.date, StampRest(c, ms)) == ClockText(c) + ("." + Three(ms) + "Z")
  {
  }

  lemma BoundIsNoDay(b: Clock, fraction: string, z: string)
    requires ValidClock(b)
    ensures BoundText(b, fraction, z) == ClockText(b) + BoundTail(fraction, z)
    ensures Given(Some(BoundText(b, fraction, z))) && !IsDay(BoundText(b, fraction, z))
  {
    assert |ClockText(b)| == 19;
  }

  /**
  For every accepted datetime as `--since` and every millisecond timestamp: the row is admitted
  exactly if it is not before the bound, unless it is one of the rows named by `SinceWrong`.
  */
  lemma SinceRightIff(b: Clock, fraction: string, z: string, c: Clock, ms: nat)
    requires ValidClock(b) && Digits(fraction) && Suffix(z) && ValidClock(c) && ms < 1000
    ensures (SinceAdmits(Some(BoundText(b, fraction, z)), c.date, StampRest(c, ms)) <==>
             InstantLe(b, Fraction(fraction), c, ms as real / 1000.0))
            <==> !(c == b && SinceWrong(fraction, z, Three(ms)))
  {
    var tail := "." + Three(ms) + "Z";
    StampText(c, ms);
    BoundIsNoDay(b, fraction, z);
    ThreeDigits(ms);
    Tails(fraction, z, Three(ms));
    ClockOrder(b, c);
    StrLeAppend(ClockText(b), ClockText(c), BoundTail(fraction, z), tail);
  }

  /** The same for `--until`: admitted exactly if not after the bound, unless `UntilWrong` names it. */
  lemma UntilRightIff(b: Clock, fraction: string, z: string, c: Clock, ms: nat)
    requires ValidClock(b) && Digits(fraction) && Suffix(z) && ValidClock(c) && ms < 1000
    ensures (UntilAdmits(Some(BoundText(b, fraction, z)), c.date, StampRest(c, ms)) <==>
             InstantLe(c, ms as real / 1000.0, b, Fraction(fraction)))
            <==> !(c == b && UntilWrong(fraction, z, Three(ms)))
  {
    var tail := "." + Three(ms) + "Z";
    StampText(c, ms);
    BoundIsNoDay(b, fraction, z);
    ThreeDigits(ms);
    Tails(fraction, z, Three(ms));
    ClockOrder(c, b);
    StrLeAppend(ClockText(c), ClockText(b), tail, BoundTail(fraction, z));
  }

  // ----- Which bounds are right for every row

  ghost predicate SinceExact(b: Clock, fraction: string, z: string)
    requires ValidClock(b) && Digits(fraction)
  {
    forall c, ms: nat | ValidClock(c) && ms < 1000 ::
      SinceAdmits(Some(BoundText(b, fraction, z)), c.date, StampRest(c, ms)) <==>
      InstantLe(b, Fraction(fraction), c, ms as real / 1000.0)
  }

  ghost predicate UntilExact(b: Clock, fraction: string, z: string)
    requires ValidClock(b) && Digits(fraction)
  {
    forall c, ms: nat | ValidClock(c) && ms < 1000 ::
      UntilAdmits(Some(BoundText(b, fraction, z)), c.date, StampRest(c, ms)) <==>
      InstantLe(c, ms as real / 1000.0, b, Fraction(fraction))
  }

  /** Every three digits are those of some millisecond. */
  lemma Millis(t: string) returns (ms: nat)
    requires Digits(t) && |t| == 3
    ensures ms < 1000 && Three(ms) == t
  {
    DigitReadBack(t[0]);
    TwoReadBack(t[1], t[2]);
    ms := 100 * DigitValue(t[0]) + TwoValue(t[1], t[2]);
    assert ms / 100 == DigitValue(t[0]) && ms % 100 == TwoValue(t[1], t[2]);
    assert t == [t[0]] + [t[1], t[2]];
  }

  /** As many of the first three digits as there are, filled up with `fill`. */
  function Filled(fraction: string, fill: char): (t: string)
    requires Digits(fraction) && IsDigit(fill)
    ensures |t| == 3 && Digits(t)
    ensures |fraction| < 3 ==> fraction <= t && (Zeros(t[|fraction|..]) <==> fill == '0')
    ensures |fraction| >= 3 ==> t == fraction[..3]
  {
    var f3 := fraction + [fill, fill, fill];
    assert |fraction| < 3 ==> f3[..3][|fraction|] == fill;
    f3[..3]
  }

  /** Three digits, or fewer without `Z`, or zeros after the third digit. */
  predicate Fits(fraction: string, z: string) {
    if |fraction| <= 3 then |fraction| == 3 || z == "" else Zeros(fraction[3..])
  }

  /** A lower bound is right for all rows exactly if it fits. */
  lemma SinceExactIff(b: Clock, fraction: string, z: string)
    requires ValidClock(b) && Digits(fraction) && Suffix(z)
    ensures SinceExact(b, fraction, z) <==> Fits(fraction, z)
  {
    var ms := Millis(Filled(fraction, '0'));
    SinceRightIff(b, fraction, z, b, ms);
    if Fits(fraction, z) {
      forall c, ms: nat | ValidClock(c) && ms < 1000
        ensures SinceAdmits(Some(BoundText(b, fraction, z)), c.date, StampRest(c, ms)) <==>
                InstantLe(b, Fraction(fraction), c, ms as real / 1000.0)
      {
        SinceRightIff(b, fraction, z, c, ms);
        ThreeDigits(ms);
      }
    }
  }

  /** An upper bound is right for all rows exactly with three digits and `Z`, the form of the timestamps. */
  lemma UntilExactIff(b: Clock, fraction: string, z: string)
    requires ValidClock(b) && Digits(fraction) && Suffix(z)
    ensures UntilExact(b, fraction, z) <==> |fraction| == 3 && z == "Z"
  {
    var ms := Millis(Filled(fraction, if z == "Z" then '1' else '0'));
    UntilRightIff(b, fraction, z, b, ms);
    if |fraction| == 3 && z == "Z" {
      forall c, ms: nat | ValidClock(c) && ms < 1000
        ensures UntilAdmits(Some(BoundText(b, fraction, z)), c.date, StampRest(c, ms)) <==>
                InstantLe(c, ms as real / 1000.0, b, Fraction(fraction))
      {
        UntilRightIff(b, fraction, z, c, ms);
        ThreeDigits(ms);
      }
    }
  }

  // ----- Bounds that go wrong

  const Then: Clock := Clock(Date(2026, 8, 20), 10, 15, 3)

  /** A bound that ends in `:03Z` drops the first millisecond of its second, `:03.5Z` the one it names. */
  lemma SinceExample()
    ensures ValidClock(Then)
    ensures !SinceAdmits(Some(BoundText(Then, "", "Z")), Then.date, StampRest(Then, 0))
    ensures !SinceAdmits(Some(BoundText(Then, "5", "Z")), Then.date, StampRest(Then, 500))
  {
    ThreeDigits(0);
    ThreeDigits(500);
    SinceRightIff(Then, "", "Z", Then, 0);
    SinceRightIff(Then, "5", "Z", Then, 500);
    assert Three(500) == "500" && "5" <= "500";
    assert Fraction("5") == (5.0 + Fraction("5"[1..])) / 10.0;
  }

  lemma ZeroAndOne()
    ensures UntilWrong("", "", Three(0)) && UntilWrong("", "Z", Three(1))
  {
    var zero, one := Three(0), Three(1);
    assert zero[0..] == zero && one[0..] == one && one[2] == '1';
  }

  /** A bound that ends in `:03` drops the millisecond it names, `:03Z` keeps the one after it. */
  lemma UntilExample()
    ensures ValidClock(Then)
    ensures !UntilAdmits(Some(BoundText(Then, "", "")), Then.date, StampRest(Then, 0))
    ensures UntilAdmits(Some(BoundText(Then, "", "Z")), Then.date, StampRest(Then, 1))
  {
    ThreeDigits(0);
    ThreeDigits(1);
    UntilRightIff(Then, "", "", Then, 0);
    UntilRightIff(Then, "", "Z", Then, 1);
    ZeroAndOne();
  }
}
