/**
The date bounds of bin/solver-capture-pull.py: `--since` and `--until` become text comparisons
on ISO timestamps. For bare dates they select exactly the inclusive range of days.
*/
module CaptureBounds {
  import opened Wrappers
  import opened Text

  datatype Date = Date(year: nat, month: nat, day: nat)

  predicate IsLeap(y: nat) {
    y % 4 == 0 && (y % 100 != 0 || y % 400 == 0)
  }

  function DaysIn(y: nat, m: nat): nat {
    if m == 2 then if IsLeap(y) then 29 else 28
    else if m == 4 || m == 6 || m == 9 || m == 11 then 30
    else 31
  }

  /** What `date.fromisoformat` accepts. */
  predicate Valid(d: Date) {
    1 <= d.year <= 9999 && 1 <= d.month <= 12 && 1 <= d.day <= DaysIn(d.year, d.month)
  }

  predicate DateLe(a: Date, b: Date) {
    a.year < b.year || (a.year == b.year &&
      (a.month < b.month || (a.month == b.month && a.day <= b.day)))
  }

  predicate DateLt(a: Date, b: Date) {
    !DateLe(b, a)
  }

  /** `date + timedelta(days=1)`; `None` is the overflow after 9999-12-31. */
  function NextDay(d: Date): Option<Date>
    requires Valid(d)
  {
    if d.day < DaysIn(d.year, d.month) then Some(Date(d.year, d.month, d.day + 1))
    else if d.month < 12 then Some(Date(d.year, d.month + 1, 1))
    else if d.year < 9999 then Some(Date(d.year + 1, 1, 1))
    else None
  }

  /** The next day is the immediate successor among valid dates, across month ends and leap days. */
  lemma NextDayIsSuccessor(d: Date, x: Date)
    requires Valid(d) && Valid(x) && NextDay(d).Some?
    ensures Valid(NextDay(d).value)
    ensures DateLt(x, NextDay(d).value) <==> DateLe(x, d)
  {
  }

  /** Days of the year before the month begins, leap days aside. */
  function DaysBefore(m: nat): nat
    requires 1 <= m <= 12
  {
    [0, 31, 59, 90, 120, 151, 181, 212, 243, 273, 304, 334][m - 1]
  }

  /** The number of a day in the proleptic Gregorian calendar; 1 January of year 1 is day 1. */
  function Ordinal(d: Date): int
    requires d.year >= 1 && 1 <= d.month <= 12
  {
    var y := d.year - 1;
    var leap := if d.month > 2 && (d.year % 400 == 0 || (d.year % 4 == 0 && d.year % 100 != 0)) then 1 else 0;
    365 * y + y / 4 - y / 100 + y / 400 + DaysBefore(d.month) + leap + d.day
  }

  lemma YearLength(y: nat)
    requires y >= 1
    ensures y / 4 - (y - 1) / 4 == if y % 4 == 0 then 1 else 0
    ensures y / 100 - (y - 1) / 100 == if y % 100 == 0 then 1 else 0
    ensures y / 400 - (y - 1) / 400 == if y % 400 == 0 then 1 else 0
    ensures y % 400 == 0 ==> y % 100 == 0
    ensures y % 100 == 0 ==> y % 4 == 0
  {
  }

  /** The next day is the one whose number is one more, and nothing comes after the last day of 9999. */
  lemma NextDayIsNext(d: Date)
    requires Valid(d)
    ensures match NextDay(d)
            case None => d == Date(9999, 12, 31)
            case Some(n) => Valid(n) && Ordinal(n) == Ordinal(d) + 1
  {
    YearLength(d.year);
  }

  // ----- Text

  function Two(n: nat): string
    requires n < 100
  {
    [Digit(n / 10), Digit(n % 10)]
  }

  function Four(n: nat): string
    requires n < 10000
  {
    Two(n / 100) + Two(n % 100)
  }

  function Iso(d: Date): string
    requires Valid(d)
  {
    Four(d.year) + "-" + Two(d.month) + "-" + Two(d.day)
  }

  lemma DigitOrder(a: nat, b: nat)
    requires a < 10 && b < 10
    ensures Digit(a) < Digit(b) <==> a < b
    ensures Digit(a) == Digit(b) <==> a == b
  {
  }

  lemma TwoOrder(a: nat, b: nat)
    requires a < 100 && b < 100
    ensures StrLe(Two(a), Two(b)) <==> a <= b
    ensures Two(a) == Two(b) <==> a == b
  {
    DigitOrder(a / 10, b / 10);
    DigitOrder(a % 10, b % 10);
    var s, t := Two(a), Two(b);
    StrLeCons(s, t);
    StrLeCons(s[1..], t[1..]);
    assert s[0] == Digit(a / 10) && s[1] == Digit(a % 10) && t[0] == Digit(b / 10) && t[1] == Digit(b % 10);
  }

  lemma FourOrder(a: nat, b: nat)
    requires a < 10000 && b < 10000
    ensures StrLe(Four(a), Four(b)) <==> a <= b
    ensures Four(a) == Four(b) <==> a == b
  {
    TwoOrder(a / 100, b / 100);
    TwoOrder(a % 100, b % 100);
    StrLeAppend(Two(a / 100), Two(b / 100), Two(a % 100), Two(b % 100));
    assert Four(a)[..2] == Two(a / 100) && Four(b)[..2] == Two(b / 100);
    assert Four(a)[2..] == Two(a % 100) && Four(b)[2..] == Two(b % 100);
  }

  /** Text order of ISO dates is calendar order. */
  lemma IsoOrder(a: Date, b: Date)
    requires Valid(a) && Valid(b)
    ensures StrLe(Iso(a), Iso(b)) <==> DateLe(a, b)
    ensures Iso(a) == Iso(b) <==> a == b
  {
    FourOrder(a.year, b.year);
    TwoOrder(a.month, b.month);
    TwoOrder(a.day, b.day);
    var ra, rb := "-" + Two(a.month) + "-" + Two(a.day), "-" + Two(b.month) + "-" + Two(b.day);
    MonthDayOrder(a, b);
    assert Iso(a) == Four(a.year) + ra && Iso(b) == Four(b.year) + rb;
    StrLeAppend(Four(a.year), Four(b.year), ra, rb);
    assert Iso(a)[..4] == Four(a.year) && Iso(b)[..4] == Four(b.year);
    assert Iso(a)[4..] == ra && Iso(b)[4..] == rb;
  }

  lemma MonthDayOrder(a: Date, b: Date)
    requires Valid(a) && Valid(b)
    ensures StrLe("-" + Two(a.month) + "-" + Two(a.day), "-" + Two(b.month) + "-" + Two(b.day)) <==>
            a.month < b.month || (a.month == b.month && a.day <= b.day)
    ensures "-" + Two(a.month) + "-" + Two(a.day) == "-" + Two(b.month) + "-" + Two(b.day) <==>
            a.month == b.month && a.day == b.day
  {
    TwoOrder(a.month, b.month);
    TwoOrder(a.day, b.day);
    var pa, pb := "-" + Two(a.month) + "-", "-" + Two(b.month) + "-";
    assert pa == "-" + (Two(a.month) + "-") && pb == "-" + (Two(b.month) + "-");
    StrLeAppend("-", "-", Two(a.month) + "-", Two(b.month) + "-");
    StrLeAppend(Two(a.month), Two(b.month), "-", "-");
    StrLeAppend(pa, pb, Two(a.day), Two(b.day));
    assert pa[1..3] == Two(a.month) && pb[1..3] == Two(b.month);
    assert (pa + Two(a.day))[4..] == Two(a.day) && (pb + Two(b.day))[4..] == Two(b.day);
    assert (pa + Two(a.day))[..4] == pa && (pb + Two(b.day))[..4] == pb;
  }

  // ----- Reading a bare date back

  predicate IsDigit(c: char) {
    '0' <= c <= '9'
  }

  /** The text has the shape of a bare ISO date; it need not be a date of the calendar. */
  predicate IsIsoDate(s: string) {
    && |s| == 10 && s[4] == '-' && s[7] == '-'
    && IsDigit(s[0]) && IsDigit(s[1]) && IsDigit(s[2]) && IsDigit(s[3])
    && IsDigit(s[5]) && IsDigit(s[6]) && IsDigit(s[8]) && IsDigit(s[9])
  }

  function DigitValue(c: char): nat
    requires IsDigit(c)
  {
    c as int - '0' as int
  }

  function TwoValue(a: char, b: char): nat
    requires IsDigit(a) && IsDigit(b)
  {
    10 * DigitValue(a) + DigitValue(b)
  }

  function DateOf(s: string): Date
    requires IsIsoDate(s)
  {
    Date(100 * TwoValue(s[0], s[1]) + TwoValue(s[2], s[3]), TwoValue(s[5], s[6]), TwoValue(s[8], s[9]))
  }

  lemma DigitRoundTrip(n: nat)
    requires n < 10
    ensures IsDigit(Digit(n)) && DigitValue(Digit(n)) == n
  {
  }

  lemma TwoRoundTrip(n: nat)
    requires n < 100
    ensures IsDigit(Two(n)[0]) && IsDigit(Two(n)[1]) && TwoValue(Two(n)[0], Two(n)[1]) == n
  {
    DigitRoundTrip(n / 10);
    DigitRoundTrip(n % 10);
  }

  lemma IsoRoundTrip(d: Date)
    requires Valid(d)
    ensures IsIsoDate(Iso(d)) && DateOf(Iso(d)) == d
  {
    TwoRoundTrip(d.year / 100);
    TwoRoundTrip(d.year % 100);
    TwoRoundTrip(d.month);
    TwoRoundTrip(d.day);
    var s := Iso(d);
    assert s[0] == Two(d.year / 100)[0] && s[1] == Two(d.year / 100)[1];
    assert s[2] == Two(d.year % 100)[0] && s[3] == Two(d.year % 100)[1];
    assert s[5] == Two(d.month)[0] && s[6] == Two(d.month)[1];
    assert s[8] == Two(d.day)[0] && s[9] == Two(d.day)[1];
  }

  // ----- The bounds

  datatype Error = NotADate | DateOverflow

  datatype Condition = SourceLive | AtLeast(value: string) | Below(value: string) | AtMost(value: string)

  /** An inclusive bare date becomes an exclusive bound on the next day; a datetime is taken as it is. */
  function UntilBound(until: string): Result<Condition, Error> {
    if IsIsoDate(until) then
      var d := DateOf(until);
      if !Valid(d) then Err(NotADate)
      else match NextDay(d) case None => Err(DateOverflow) case Some(n) =>
        NextDayIsSuccessor(d, d);
        Ok(Below(Iso(n)))
    else Ok(AtMost(until))
  }

  predicate Holds(c: Condition, live: bool, at: string) {
    match c
    case SourceLive => live
    case AtLeast(v) => StrLe(v, at)
    case Below(v) => StrLt(at, v)
    case AtMost(v) => StrLe(at, v)
  }

  predicate Selected(cs: seq<Condition>, live: bool, at: string) {
    forall i | 0 <= i < |cs| :: Holds(cs[i], live, at)
  }

  // ----- What the query selects

  /** An absent or empty bound adds nothing. */
  predicate Given(bound: Option<string>) {
    bound.Some? && bound.value != ""
  }

  predicate IsDay(s: string) {
    IsIsoDate(s) && Valid(DateOf(s))
  }

  /** A row's timestamp: its date, `T`, and the rest. */
  function RowTime(on: Date, rest: string): string
    requires Valid(on)
  {
    Iso(on) + "T" + rest
  }

  /** A bare date counts whole days, itself included; any other text is compared as text. */
  predicate SinceAdmits(since: Option<string>, on: Date, rest: string)
    requires Valid(on)
  {
    Given(since) ==>
      if IsDay(since.value) then DateLe(DateOf(since.value), on) else StrLe(since.value, RowTime(on, rest))
  }

  predicate UntilAdmits(until: Option<string>, on: Date, rest: string)
    requires Valid(on)
  {
    Given(until) ==>
      if IsDay(until.value) then DateLe(on, DateOf(until.value)) else StrLe(RowTime(on, rest), until.value)
  }

  const LastDate: Date := Date(9999, 12, 31)

  /**
  What the options promise of the conditions: only a bare `--until` that is no date, or that is the
  last date, fails; otherwise exactly the live rows that both bounds admit are selected.
  */
  ghost predicate Answers(since: Option<string>, until: Option<string>, r: Result<seq<Condition>, Error>) {
    && (r == Err(NotADate) <==> Given(until) && IsIsoDate(until.value) && !Valid(DateOf(until.value)))
    && (r == Err(DateOverflow) <==> Given(until) && IsIsoDate(until.value) && DateOf(until.value) == LastDate)
    && (r.Ok? ==> forall live, on, rest | Valid(on) ::
          Selected(r.value, live, RowTime(on, rest)) <==>
          live && SinceAdmits(since, on, rest) && UntilAdmits(until, on, rest))
  }

  method QueryConditions(since: Option<string>, until: Option<string>) returns (r: Result<seq<Condition>, Error>)
    ensures Answers(since, until, r)
  {
    var conditions := [SourceLive];
    if since.Some? && since.value != "" {
      conditions := conditions + [AtLeast(since.value)];
    }
    assert forall live, on, rest | Valid(on) ::
        Selected(conditions, live, RowTime(on, rest)) <==> live && SinceAdmits(since, on, rest) by {
      forall live, on, rest | Valid(on)
        ensures Selected(conditions, live, RowTime(on, rest)) <==> live && SinceAdmits(since, on, rest)
      {
        SinceSelects(since, live, on, rest);
      }
    }
    if until.Some? && until.value != "" {
      UntilFails(until.value);
      match UntilBound(until.value)
      case Err(e) => return Err(e);
      case Ok(b) =>
        forall live, on, rest | Valid(on)
          ensures Selected(conditions + [b], live, RowTime(on, rest)) <==>
                  Selected(conditions, live, RowTime(on, rest)) && UntilAdmits(until, on, rest)
        {
          UntilSelects(until.value, live, on, rest);
          SelectedSnoc(conditions, b, live, RowTime(on, rest));
        }
        conditions := conditions + [b];
    }
    return Ok(conditions);
  }

  /** A bare date sorts before every timestamp of its day and of later days. */
  lemma BareDateBelow(d: Date, on: Date, rest: string)
    requires Valid(d) && Valid(on)
    ensures StrLe(Iso(d), Iso(on) + "T" + rest) <==> DateLe(d, on)
    ensures StrLt(Iso(on) + "T" + rest, Iso(d)) <==> DateLt(on, d)
  {
    var at := Iso(on) + ("T" + rest);
    assert Iso(on) + "T" + rest == at && Iso(d) + "" == Iso(d);
    IsoOrder(d, on);
    IsoOrder(on, d);
    StrLeAppend(Iso(d), Iso(on), "", "T" + rest);
    StrLeAppend(Iso(on), Iso(d), "T" + rest, "");
  }

  lemma DigitReadBack(c: char)
    requires IsDigit(c)
    ensures DigitValue(c) < 10 && Digit(DigitValue(c)) == c
  {
  }

  lemma TwoReadBack(a: char, b: char)
    requires IsDigit(a) && IsDigit(b)
    ensures TwoValue(a, b) < 100 && Two(TwoValue(a, b)) == [a, b]
  {
    DigitReadBack(a);
    DigitReadBack(b);
    assert TwoValue(a, b) / 10 == DigitValue(a) && TwoValue(a, b) % 10 == DigitValue(b);
  }

  lemma FourReadBack(x: nat, y: nat, a: char, b: char, c: char, d: char)
    requires x < 100 && y < 100 && Two(x) == [a, b] && Two(y) == [c, d]
    ensures Four(100 * x + y) == [a, b, c, d]
  {
    assert (100 * x + y) / 100 == x && (100 * x + y) % 100 == y;
  }

  lemma DatePieces(s: string, y: string, m: string, d: string)
    requires IsIsoDate(s) && y == [s[0], s[1], s[2], s[3]] && m == [s[5], s[6]] && d == [s[8], s[9]]
    ensures y + "-" + m + "-" + d == s
  {
  }

  lemma YearReadBack(s: string)
    requires IsIsoDate(s) && DateOf(s).year < 10000
    ensures Four(DateOf(s).year) == [s[0], s[1], s[2], s[3]]
  {
    TwoReadBack(s[0], s[1]);
    TwoReadBack(s[2], s[3]);
    FourReadBack(TwoValue(s[0], s[1]), TwoValue(s[2], s[3]), s[0], s[1], s[2], s[3]);
  }

  lemma Assembled(s: string, d: Date)
    requires IsIsoDate(s) && Valid(d) && Four(d.year) == [s[0], s[1], s[2], s[3]]
    requires Two(d.month) == [s[5], s[6]] && Two(d.day) == [s[8], s[9]]
    ensures Iso(d) == s
  {
    DatePieces(s, Four(d.year), Two(d.month), Two(d.day));
  }

  /** A bare date is the printed form of the date it is read as. */
  lemma DateReadBack(s: string)
    requires IsDay(s)
    ensures Iso(DateOf(s)) == s
  {
    YearReadBack(s);
    TwoReadBack(s[5], s[6]);
    TwoReadBack(s[8], s[9]);
    Assembled(s, DateOf(s));
  }

  lemma SelectedSnoc(cs: seq<Condition>, c: Condition, live: bool, at: string)
    ensures Selected(cs + [c], live, at) <==> Selected(cs, live, at) && Holds(c, live, at)
  {
    var all := cs + [c];
    assert all[|cs|] == c;
    assert forall i | 0 <= i < |cs| :: all[i] == cs[i];
  }

  lemma SinceSelects(since: Option<string>, live: bool, on: Date, rest: string)
    requires Valid(on)
    ensures var cs := if Given(since) then [SourceLive] + [AtLeast(since.value)] else [SourceLive];
      Selected(cs, live, RowTime(on, rest)) <==> live && SinceAdmits(since, on, rest)
  {
    var at := RowTime(on, rest);
    SelectedSnoc([], SourceLive, live, at);
    assert [] + [SourceLive] == [SourceLive];
    if Given(since) {
      SelectedSnoc([SourceLive], AtLeast(since.value), live, at);
      if IsDay(since.value) {
        DateReadBack(since.value);
        BareDateBelow(DateOf(since.value), on, rest);
      }
    }
  }

  lemma UntilFails(until: string)
    requires until != ""
    ensures UntilBound(until) == Err(NotADate) <==> IsIsoDate(until) && !Valid(DateOf(until))
    ensures UntilBound(until) == Err(DateOverflow) <==> IsIsoDate(until) && DateOf(until) == LastDate
  {
  }

  lemma UntilSelects(until: string, live: bool, on: Date, rest: string)
    requires Valid(on) && until != "" && UntilBound(until).Ok?
    ensures Holds(UntilBound(until).value, live, RowTime(on, rest)) <==> UntilAdmits(Some(until), on, rest)
  {
    if IsIsoDate(until) {
      var d := DateOf(until);
      NextDayIsSuccessor(d, on);
      BareDateBelow(NextDay(d).value, on, rest);
    }
  }

  /**
  Bare dates select exactly the live rows whose calendar date lies in the inclusive range,
  whatever follows the date in the timestamp; only the last date there is has no bound.
  */
  lemma BareDatesSelectDays(since: Date, until: Date, r: Result<seq<Condition>, Error>,
                            live: bool, on: Date, rest: string)
    requires Valid(since) && Valid(until) && Valid(on)
    requires Answers(Some(Iso(since)), Some(Iso(until)), r)
    ensures r.Ok? <==> until != LastDate
    ensures r.Ok? ==> (Selected(r.value, live, RowTime(on, rest)) <==> live && DateLe(since, on) && DateLe(on, until))
  {
    IsoRoundTrip(since);
    IsoRoundTrip(until);
    assert Answers(Some(Iso(since)), Some(Iso(until)), r);
    if r.Err? {
      assert r == Err(r.error) && (r.error.NotADate? || r.error.DateOverflow?);
    }
  }
}
