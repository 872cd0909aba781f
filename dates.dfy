/** Calendar dates as Python's `datetime.date` has them, and the part of
    `datetime.strptime` the Tally parser relies on: the directives `%Y`, `%m`
    and `%d`, each a regular-expression alternation tried in order, followed by
    the check that the match consumed the whole input. */
module Dates {
  import opened Wrappers
  import opened Text

  datatype Date = Date(year: int, month: int, day: int)

  predicate IsLeap(y: int) {
    y % 4 == 0 && (y % 100 != 0 || y % 400 == 0)
  }

  function DaysInMonth(y: int, m: int): (r: int)
    requires 1 <= m <= 12
    ensures 28 <= r <= 31
  {
    if m == 2 then (if IsLeap(y) then 29 else 28)
    else if m == 4 || m == 6 || m == 9 || m == 11 then 30
    else 31
  }

  /** The dates `datetime.date` accepts (years 1 to 9999). */
  predicate Valid(d: Date) {
    1 <= d.year <= 9999 && 1 <= d.month <= 12 && 1 <= d.day <= DaysInMonth(d.year, d.month)
  }

  /** `a <= b` on dates: year, then month, then day. */
  predicate LessEq(a: Date, b: Date) {
    a.year < b.year || (a.year == b.year && (a.month < b.month || (a.month == b.month && a.day <= b.day)))
  }

  /** Months counted from January of year 0; `strftime('%Y-%m')` groups dates by it. */
  function MonthIndex(d: Date): int {
    d.year * 12 + d.month - 1
  }

  /** The first day of the month with the given index. */
  function MonthStart(k: int): (d: Date)
    ensures MonthIndex(d) == k && d.day == 1
  {
    Date(k / 12, k % 12 + 1, 1)
  }

  /** The last day of the month with the given index
      (`first + relativedelta(months=1) - timedelta(days=1)`). */
  function MonthEnd(k: int): (d: Date)
    ensures MonthIndex(d) == k && d.month == k % 12 + 1 && d.day == DaysInMonth(k / 12, k % 12 + 1)
  {
    Date(k / 12, k % 12 + 1, DaysInMonth(k / 12, k % 12 + 1))
  }

  /** `d - relativedelta(months=n)`: the same day n months earlier, clamped to the
      length of the target month. */
  function MonthsBefore(d: Date, n: int): (r: Date)
    ensures MonthIndex(r) == MonthIndex(d) - n
  {
    var k := MonthIndex(d) - n;
    var y := k / 12;
    var m := k % 12 + 1;
    Date(y, m, if d.day > DaysInMonth(y, m) then DaysInMonth(y, m) else d.day)
  }

  /** A date lies in the month with index k exactly when it falls between that
      month's first and last day. */
  lemma InMonthBounds(d: Date, k: int)
    requires Valid(d)
    ensures MonthIndex(d) == k <==> LessEq(MonthStart(k), d) && LessEq(d, MonthEnd(k))
  {
  }

  /** Days before the first of a month in a non-leap or leap year. */
  function DaysBeforeMonth(y: int, m: int): (r: int)
    requires 1 <= m <= 13
    ensures r >= 0
    decreases m
  {
    if m == 1 then 0 else DaysBeforeMonth(y, m - 1) + DaysInMonth(y, m - 1)
  }

  function DaysBeforeYear(y: int): int {
    var p := y - 1;
    p * 365 + p / 4 - p / 100 + p / 400
  }

  /** `date.toordinal()`: 1 January of year 1 is day 1. */
  function DayNumber(d: Date): int
    requires 1 <= d.month <= 12
  {
    DaysBeforeYear(d.year) + DaysBeforeMonth(d.year, d.month) + d.day
  }

  function YearLength(y: int): int {
    if IsLeap(y) then 366 else 365
  }

  lemma {:induction false} DaysBeforeMonthMono(y: int, a: int, b: int)
    requires 1 <= a <= b <= 13
    ensures DaysBeforeMonth(y, a) + (b - a) * 28 <= DaysBeforeMonth(y, b)
    decreases b - a
  {
    if a < b {
      DaysBeforeMonthMono(y, a, b - 1);
    }
  }

  lemma YearDays(y: int)
    ensures DaysBeforeMonth(y, 13) == YearLength(y)
  {
  }

  lemma DaysBeforeNextYear(y: int)
    ensures DaysBeforeYear(y + 1) == DaysBeforeYear(y) + YearLength(y)
  {
    var p := y - 1;
    assert (p + 1) / 4 == p / 4 + (if (p + 1) % 4 == 0 then 1 else 0);
    assert (p + 1) / 100 == p / 100 + (if (p + 1) % 100 == 0 then 1 else 0);
    assert (p + 1) / 400 == p / 400 + (if (p + 1) % 400 == 0 then 1 else 0);
  }

  lemma {:induction false} DaysBeforeYearMono(a: int, b: int)
    requires a <= b
    ensures DaysBeforeYear(a) + (b - a) * 365 <= DaysBeforeYear(b)
    decreases b - a
  {
    if a < b {
      DaysBeforeYearMono(a, b - 1);
      DaysBeforeNextYear(b - 1);
    }
  }

  /** Within a valid date the day number stays inside its year. */
  lemma DayNumberInYear(d: Date)
    requires Valid(d)
    ensures DaysBeforeYear(d.year) < DayNumber(d) <= DaysBeforeYear(d.year + 1)
  {
    DaysBeforeMonthMono(d.year, d.month + 1, 13);
    YearDays(d.year);
    DaysBeforeNextYear(d.year);
  }

  /** A date in an earlier year has a smaller day number. */
  lemma YearsApart(a: Date, b: Date)
    requires Valid(a) && Valid(b) && a.year < b.year
    ensures DayNumber(a) < DayNumber(b)
  {
    DayNumberInYear(a);
    DayNumberInYear(b);
    DaysBeforeYearMono(a.year + 1, b.year);
  }

  /** In the same year, a date in an earlier month has a smaller day number. */
  lemma MonthsApart(a: Date, b: Date)
    requires Valid(a) && Valid(b) && a.year == b.year && a.month < b.month
    ensures DayNumber(a) < DayNumber(b)
  {
    DaysBeforeMonthMono(a.year, a.month + 1, b.month);
  }

  /** The calendar order on valid dates is the order of their day numbers, so
      `(b - a).days` is positive exactly when a precedes b. */
  lemma DayNumberOrder(a: Date, b: Date)
    requires Valid(a) && Valid(b)
    ensures LessEq(a, b) <==> DayNumber(a) <= DayNumber(b)
  {
    if a.year < b.year {
      YearsApart(a, b);
    } else if b.year < a.year {
      YearsApart(b, a);
    } else if a.month < b.month {
      MonthsApart(a, b);
    } else if b.month < a.month {
      MonthsApart(b, a);
    }
  }

  // ------------------------------------------------------------------ strptime

  /** A format directive: `%Y`, `%m`, `%d` or a literal character. */
  datatype Directive = Year | Month | Day | Lit(c: char)

  /** The alternatives `_strptime` compiles each directive to, in order; each
      alternative is a run of character ranges.
      `%Y` is `\d\d\d\d`, `%m` is `1[0-2]|0[1-9]|[1-9]`, `%d` is
      `3[01]|[12]\d|0[1-9]|[1-9]| [1-9]`. */
  function Alternatives(d: Directive): (r: seq<seq<(char, char)>>)
    ensures |r| > 0
  {
    match d
    case Year => [[('0', '9'), ('0', '9'), ('0', '9'), ('0', '9')]]
    case Month => [[('1', '1'), ('0', '2')], [('0', '0'), ('1', '9')], [('1', '9')]]
    case Day => [[('3', '3'), ('0', '1')], [('1', '2'), ('0', '9')], [('0', '0'), ('1', '9')],
                 [('1', '9')], [(' ', ' '), ('1', '9')]]
    case Lit(c) => [[(c, c)]]
  }

  /** Each character of t lies in the corresponding range of the alternative. */
  predicate Fits(t: string, alt: seq<(char, char)>) {
    |t| == |alt| && forall k :: 0 <= k < |t| ==> alt[k].0 <= t[k] <= alt[k].1
  }

  predicate AltMatches(s: string, i: nat, alt: seq<(char, char)>) {
    i + |alt| <= |s| && Fits(s[i..i + |alt|], alt)
  }

  /** The regular-expression match of the directives from position i: the first
      alternative (in order) of the first directive for which the rest also
      matches. The result is the end of the match and the text of each group. */
  function MatchFrom(s: string, i: nat, fmt: seq<Directive>): (r: Option<(nat, seq<string>)>)
    requires i <= |s|
    ensures r.Some? ==> i <= r.value.0 <= |s| && |r.value.1| == |fmt|
    decreases |fmt|, 1, 0
  {
    if fmt == [] then Some((i, [])) else TryAlt(s, i, fmt, 0)
  }

  function TryAlt(s: string, i: nat, fmt: seq<Directive>, a: nat): (r: Option<(nat, seq<string>)>)
    requires i <= |s| && fmt != []
    ensures r.Some? ==> i <= r.value.0 <= |s| && |r.value.1| == |fmt|
    decreases |fmt|, 0, |Alternatives(fmt[0])| - a
  {
    var alts := Alternatives(fmt[0]);
    if a >= |alts| then None
    else if AltMatches(s, i, alts[a]) then
      match MatchFrom(s, i + |alts[a]|, fmt[1..])
      case Some(rest) => Some((rest.0, [s[i..i + |alts[a]|]] + rest.1))
      case None => TryAlt(s, i, fmt, a + 1)
    else TryAlt(s, i, fmt, a + 1)
  }

  /** The value of the group captured for a directive (`int()` of its text, where a
      leading blank counts as zero), or the default when the format lacks it. */
  function FieldValue(fmt: seq<Directive>, groups: seq<string>, d: Directive, default: int): int
    requires |groups| == |fmt|
  {
    if fmt == [] then default
    else if fmt[0] == d then DigitsValue(groups[0])
    else FieldValue(fmt[1..], groups[1..], d, default)
  }

  /** `datetime.strptime(s, fmt).date()`, or None where it raises `ValueError`:
      no match, unconverted data after the match, or a day the month lacks. */
  function Strptime(s: string, fmt: seq<Directive>): (r: Option<Date>)
    ensures r.Some? ==> Valid(r.value)
  {
    match MatchFrom(s, 0, fmt)
    case None => None
    case Some(m) =>
      if m.0 != |s| then None
      else
        var d := Date(FieldValue(fmt, m.1, Year, 1900), FieldValue(fmt, m.1, Month, 1),
                      FieldValue(fmt, m.1, Day, 1));
        if Valid(d) then Some(d) else None
  }

  // ------------------------------------------------- renderings that parse back

  function DigitChar(n: int): char
    requires 0 <= n <= 9
  {
    ('0' as int + n) as char
  }

  /** Two digits, zero-padded. */
  function Two(n: int): (r: string)
    requires 0 <= n <= 99
    ensures |r| == 2 && AllDigits(r) && DigitsValue(r) == n
  {
    var r := [DigitChar(n / 10), DigitChar(n % 10)];
    assert r[..1] == [r[0]] && r[..1][..0] == [];
    assert DigitsValue(r[..1]) == n / 10;
    r
  }

  /** Four digits, zero-padded. */
  function Four(n: int): (r: string)
    requires 0 <= n <= 9999
    ensures |r| == 4 && AllDigits(r) && DigitsValue(r) == n
  {
    var hi := Two(n / 100);
    var lo := Two(n % 100);
    var r := hi + lo;
    assert r[..3] == hi + [lo[0]] && r[..3][..2] == hi;
    assert lo[..1] == [lo[0]] && lo[..1][..0] == [];
    assert DigitsValue(lo) == DigitValue(lo[0]) * 10 + DigitValue(lo[1]);
    assert DigitsValue(r[..3]) == n / 100 * 10 + DigitValue(lo[0]);
    r
  }

  /** `d.strftime("%Y%m%d")`. */
  function Compact(d: Date): string
    requires Valid(d)
  {
    Four(d.year) + Two(d.month) + Two(d.day)
  }

  /** `d.isoformat()`, that is `%Y-%m-%d`. */
  function Iso(d: Date): string
    requires Valid(d)
  {
    Four(d.year) + "-" + Two(d.month) + "-" + Two(d.day)
  }

  /** `d.strftime("%d-%m-%Y")`. */
  function DayFirst(d: Date): string
    requires Valid(d)
  {
    Two(d.day) + "-" + Two(d.month) + "-" + Four(d.year)
  }

  lemma YearStep(s: string, i: nat, fmt: seq<Directive>, m: (nat, seq<string>))
    requires fmt != [] && fmt[0] == Year
    requires i + 4 <= |s| && AllDigits(s[i..i + 4])
    requires MatchFrom(s, i + 4, fmt[1..]) == Some(m)
    ensures MatchFrom(s, i, fmt) == Some((m.0, [s[i..i + 4]] + m.1))
  {
    assert AltMatches(s, i, Alternatives(Year)[0]);
  }

  /** Two characters that `1[0-2]|0[1-9]` matches whole. */
  predicate MonthText(t: string) {
    |t| == 2 && ((t[0] == '1' && '0' <= t[1] <= '2') || (t[0] == '0' && '1' <= t[1] <= '9'))
  }

  /** Two characters that `3[01]|[12]\d|0[1-9]` matches whole. */
  predicate DayText(t: string) {
    |t| == 2 && ((t[0] == '3' && '0' <= t[1] <= '1') || ('1' <= t[0] <= '2' && IsDigit(t[1]))
                 || (t[0] == '0' && '1' <= t[1] <= '9'))
  }

  lemma TwoMonthText(month: int)
    requires 1 <= month <= 12
    ensures MonthText(Two(month))
  {
  }

  lemma TwoDayText(day: int)
    requires 1 <= day <= 31
    ensures DayText(Two(day))
  {
  }

  /** A zero-padded two-digit month is matched whole by its own alternative. */
  lemma MonthStep(s: string, i: nat, fmt: seq<Directive>, m: (nat, seq<string>))
    requires fmt != [] && fmt[0] == Month
    requires i + 2 <= |s| && MonthText(s[i..i + 2])
    requires MatchFrom(s, i + 2, fmt[1..]) == Some(m)
    ensures MatchFrom(s, i, fmt) == Some((m.0, [s[i..i + 2]] + m.1))
  {
    var alts := Alternatives(Month);
    var t := s[i..i + 2];
    if t[0] == '1' {
      assert AltMatches(s, i, alts[0]);
    } else {
      assert !AltMatches(s, i, alts[0]);
      assert TryAlt(s, i, fmt, 0) == TryAlt(s, i, fmt, 1);
      assert AltMatches(s, i, alts[1]);
    }
  }

  /** A zero-padded two-digit day is matched whole by its own alternative. */
  lemma DayStep(s: string, i: nat, fmt: seq<Directive>, m: (nat, seq<string>))
    requires fmt != [] && fmt[0] == Day
    requires i + 2 <= |s| && DayText(s[i..i + 2])
    requires MatchFrom(s, i + 2, fmt[1..]) == Some(m)
    ensures MatchFrom(s, i, fmt) == Some((m.0, [s[i..i + 2]] + m.1))
  {
    var alts := Alternatives(Day);
    var t := s[i..i + 2];
    if t[0] == '3' {
      assert AltMatches(s, i, alts[0]);
    } else if t[0] != '0' {
      assert !AltMatches(s, i, alts[0]);
      assert TryAlt(s, i, fmt, 0) == TryAlt(s, i, fmt, 1);
      assert AltMatches(s, i, alts[1]);
    } else {
      assert !AltMatches(s, i, alts[0]);
      assert !AltMatches(s, i, alts[1]);
      assert TryAlt(s, i, fmt, 0) == TryAlt(s, i, fmt, 1) == TryAlt(s, i, fmt, 2);
      assert AltMatches(s, i, alts[2]);
    }
  }

  lemma LitStep(s: string, i: nat, c: char, fmt: seq<Directive>, m: (nat, seq<string>))
    requires fmt != [] && fmt[0] == Lit(c)
    requires i < |s| && s[i] == c
    requires MatchFrom(s, i + 1, fmt[1..]) == Some(m)
    ensures MatchFrom(s, i, fmt) == Some((m.0, [[c]] + m.1))
  {
    assert AltMatches(s, i, Alternatives(Lit(c))[0]);
    assert s[i..i + 1] == [c];
  }

  /** Every alternative of a directive other than a literal starts with a digit or
      a blank, so a position holding neither fails it. */
  lemma DirectiveFails(s: string, i: nat, fmt: seq<Directive>)
    requires fmt != [] && !fmt[0].Lit? && i <= |s|
    requires i < |s| ==> !IsDigit(s[i]) && s[i] != ' '
    ensures MatchFrom(s, i, fmt) == None
  {
    var alts := Alternatives(fmt[0]);
    assert forall a :: 0 <= a < |alts| ==> !AltMatches(s, i, alts[a]) by {
      forall a | 0 <= a < |alts|
        ensures !AltMatches(s, i, alts[a])
      {
        if i + |alts[a]| <= |s| {
          assert s[i..i + |alts[a]|][0] == s[i];
        }
      }
    }
    TryAltFails(s, i, fmt, 0);
  }

  lemma {:induction false} TryAltFails(s: string, i: nat, fmt: seq<Directive>, a: nat)
    requires fmt != [] && i <= |s|
    requires forall b :: a <= b < |Alternatives(fmt[0])| ==> !AltMatches(s, i, Alternatives(fmt[0])[b])
    ensures TryAlt(s, i, fmt, a) == None
    decreases |Alternatives(fmt[0])| - a
  {
    if a < |Alternatives(fmt[0])| {
      TryAltFails(s, i, fmt, a + 1);
    }
  }

  const CompactFormat := [Year, Month, Day]
  const IsoFormat := [Year, Lit('-'), Month, Lit('-'), Day]
  const DashFormat := [Day, Lit('-'), Month, Lit('-'), Year]
  const SlashFormat := [Day, Lit('/'), Month, Lit('/'), Year]

  /** A whole-input match whose groups carry a valid date's fields yields it. */
  lemma StrptimeOfMatch(s: string, fmt: seq<Directive>, groups: seq<string>, d: Date)
    requires MatchFrom(s, 0, fmt) == Some((|s|, groups))
    requires Valid(d)
    requires FieldValue(fmt, groups, Year, 1900) == d.year
    requires FieldValue(fmt, groups, Month, 1) == d.month
    requires FieldValue(fmt, groups, Day, 1) == d.day
    ensures Strptime(s, fmt) == Some(d)
  {
  }

  lemma CompactShapeMatch(s: string, f: seq<Directive>)
    requires f == [Year, Month, Day]
    requires |s| == 8 && AllDigits(s[0..4]) && MonthText(s[4..6]) && DayText(s[6..8])
    ensures MatchFrom(s, 0, f) == Some((8, [s[0..4], s[4..6], s[6..8]]))
  {
    assert f[2..] == [Day] && f[2..][1..] == [] && f[1..][1..] == f[2..] && f[1..][0] == Month;
    DayStep(s, 6, f[2..], (8, []));
    assert [s[6..8]] + [] == [s[6..8]];
    MonthStep(s, 4, f[1..], (8, [s[6..8]]));
    YearStep(s, 0, f, (8, [s[4..6]] + [s[6..8]]));
    assert [s[0..4]] + ([s[4..6]] + [s[6..8]]) == [s[0..4], s[4..6], s[6..8]];
  }

  /** Each rendering starts and ends with a digit. */
  lemma RenderingEdges(d: Date)
    requires Valid(d)
    ensures IsDigit(Compact(d)[0]) && IsDigit(Compact(d)[7])
    ensures IsDigit(Iso(d)[0]) && IsDigit(Iso(d)[9])
    ensures IsDigit(DayFirst(d)[0]) && IsDigit(DayFirst(d)[9])
  {
    assert Compact(d)[0] == Four(d.year)[0] && Compact(d)[7] == Two(d.day)[1];
    assert Iso(d)[0] == Four(d.year)[0] && Iso(d)[9] == Two(d.day)[1];
    assert DayFirst(d)[0] == Two(d.day)[0] && DayFirst(d)[9] == Four(d.year)[3];
  }

  lemma CompactMatch(d: Date)
    requires Valid(d)
    ensures MatchFrom(Compact(d), 0, CompactFormat)
            == Some((8, [Four(d.year), Two(d.month), Two(d.day)]))
  {
    var s := Compact(d);
    assert s[0..4] == Four(d.year) && s[4..6] == Two(d.month) && s[6..8] == Two(d.day);
    TwoMonthText(d.month);
    TwoDayText(d.day);
    CompactShapeMatch(s, CompactFormat);
  }

  /** `%Y%m%d` reads back every date written with it. */
  lemma CompactRoundTrip(d: Date)
    requires Valid(d)
    ensures Strptime(Compact(d), CompactFormat) == Some(d)
  {
    var groups := [Four(d.year), Two(d.month), Two(d.day)];
    CompactMatch(d);
    assert CompactFormat[1..] == [Month, Day] && groups[1..] == [Two(d.month), Two(d.day)];
    assert CompactFormat[2..] == [Day] && groups[2..] == [Two(d.day)];
    assert [Month, Day][1..] == [Day] && [Two(d.month), Two(d.day)][1..] == [Two(d.day)];
    assert FieldValue([Day], [Two(d.day)], Day, 1) == d.day;
    assert FieldValue([Month, Day], [Two(d.month), Two(d.day)], Day, 1) == d.day;
    StrptimeOfMatch(Compact(d), CompactFormat, groups, d);
  }

  lemma IsoParts(d: Date)
    requires Valid(d)
    ensures |Iso(d)| == 10 && Iso(d)[0..4] == Four(d.year) && Iso(d)[4] == '-'
      && Iso(d)[5..7] == Two(d.month) && Iso(d)[7] == '-' && Iso(d)[8..10] == Two(d.day)
  {
  }

  lemma IsoShapeMatch(s: string, f: seq<Directive>)
    requires f == [Year, Lit('-'), Month, Lit('-'), Day]
    requires |s| == 10 && AllDigits(s[0..4]) && s[4] == '-' && MonthText(s[5..7])
      && s[7] == '-' && DayText(s[8..10])
    ensures MatchFrom(s, 0, f) == Some((10, [s[0..4], "-", s[5..7], "-", s[8..10]]))
  {
    assert f[4..] == [Day] && f[4..][1..] == [] && f[3..][1..] == f[4..] && f[2..][1..] == f[3..]
      && f[1..][1..] == f[2..] && f[3..][0] == Lit('-') && f[2..][0] == Month && f[1..][0] == Lit('-');
    DayStep(s, 8, f[4..], (10, []));
    assert [s[8..10]] + [] == [s[8..10]];
    LitStep(s, 7, '-', f[3..], (10, [s[8..10]]));
    MonthStep(s, 5, f[2..], (10, [['-']] + [s[8..10]]));
    LitStep(s, 4, '-', f[1..], (10, [s[5..7]] + ([['-']] + [s[8..10]])));
    YearStep(s, 0, f, (10, [['-']] + ([s[5..7]] + ([['-']] + [s[8..10]]))));
    assert [s[0..4]] + ([['-']] + ([s[5..7]] + ([['-']] + [s[8..10]])))
      == [s[0..4], "-", s[5..7], "-", s[8..10]];
  }

  lemma IsoMatch(d: Date)
    requires Valid(d)
    ensures MatchFrom(Iso(d), 0, IsoFormat)
            == Some((10, [Four(d.year), "-", Two(d.month), "-", Two(d.day)]))
  {
    IsoParts(d);
    TwoMonthText(d.month);
    TwoDayText(d.day);
    IsoShapeMatch(Iso(d), IsoFormat);
  }

  /** `%Y-%m-%d` reads back every date written with it. */
  lemma IsoRoundTrip(d: Date)
    requires Valid(d)
    ensures Strptime(Iso(d), IsoFormat) == Some(d)
  {
    var groups := [Four(d.year), "-", Two(d.month), "-", Two(d.day)];
    IsoMatch(d);
    assert FieldValue([Day], [Two(d.day)], Day, 1) == d.day;
    assert FieldValue([Lit('-'), Day], ["-", Two(d.day)], Day, 1) == d.day by {
      assert [Lit('-'), Day][1..] == [Day] && ["-", Two(d.day)][1..] == [Two(d.day)];
    }
    assert FieldValue([Month, Lit('-'), Day], [Two(d.month), "-", Two(d.day)], Day, 1) == d.day by {
      assert [Month, Lit('-'), Day][1..] == [Lit('-'), Day];
      assert [Two(d.month), "-", Two(d.day)][1..] == ["-", Two(d.day)];
    }
    assert FieldValue([Lit('-'), Month, Lit('-'), Day], ["-", Two(d.month), "-", Two(d.day)], Day, 1) == d.day by {
      assert [Lit('-'), Month, Lit('-'), Day][1..] == [Month, Lit('-'), Day];
      assert ["-", Two(d.month), "-", Two(d.day)][1..] == [Two(d.month), "-", Two(d.day)];
    }
    assert FieldValue([Lit('-'), Month, Lit('-'), Day], ["-", Two(d.month), "-", Two(d.day)], Month, 1) == d.month by {
      assert [Lit('-'), Month, Lit('-'), Day][1..] == [Month, Lit('-'), Day];
      assert ["-", Two(d.month), "-", Two(d.day)][1..] == [Two(d.month), "-", Two(d.day)];
    }
    assert IsoFormat[1..] == [Lit('-'), Month, Lit('-'), Day];
    assert groups[1..] == ["-", Two(d.month), "-", Two(d.day)];
    StrptimeOfMatch(Iso(d), IsoFormat, groups, d);
  }

  /** An ISO date is not read by `%Y%m%d`: after the year comes a dash where
      the month's digits would be. */
  lemma IsoNotCompact(d: Date)
    requires Valid(d)
    ensures MatchFrom(Iso(d), 0, CompactFormat) == None
  {
    var s := Iso(d);
    IsoParts(d);
    DirectiveFails(s, 4, [Month, Day]);
    assert CompactFormat[1..] == [Month, Day];
    assert TryAlt(s, 0, CompactFormat, 1) == None;
  }

  lemma DayFirstParts(d: Date)
    requires Valid(d)
    ensures |DayFirst(d)| == 10 && DayFirst(d)[0..2] == Two(d.day) && DayFirst(d)[2] == '-'
      && DayFirst(d)[3..5] == Two(d.month) && DayFirst(d)[5] == '-' && DayFirst(d)[6..10] == Four(d.year)
  {
  }

  /** The match of `%d<sep>%m<sep>%Y` on a zero-padded day-first rendering. */
  lemma DayFirstShapeMatch(s: string, sep: char, f: seq<Directive>)
    requires f == [Day, Lit(sep), Month, Lit(sep), Year]
    requires |s| == 10 && DayText(s[0..2]) && s[2] == sep && MonthText(s[3..5])
      && s[5] == sep && AllDigits(s[6..10])
    ensures MatchFrom(s, 0, f) == Some((10, [s[0..2], [sep], s[3..5], [sep], s[6..10]]))
  {
    assert f[4..] == [Year] && f[4..][1..] == [] && f[3..][1..] == f[4..] && f[2..][1..] == f[3..]
      && f[1..][1..] == f[2..] && f[3..][0] == Lit(sep) && f[2..][0] == Month && f[1..][0] == Lit(sep);
    YearStep(s, 6, f[4..], (10, []));
    assert [s[6..10]] + [] == [s[6..10]];
    LitStep(s, 5, sep, f[3..], (10, [s[6..10]]));
    MonthStep(s, 3, f[2..], (10, [[sep]] + [s[6..10]]));
    LitStep(s, 2, sep, f[1..], (10, [s[3..5]] + ([[sep]] + [s[6..10]])));
    DayStep(s, 0, f, (10, [[sep]] + ([s[3..5]] + ([[sep]] + [s[6..10]]))));
    assert [s[0..2]] + ([[sep]] + ([s[3..5]] + ([[sep]] + [s[6..10]])))
      == [s[0..2], [sep], s[3..5], [sep], s[6..10]];
  }

  lemma DayFirstMatch(d: Date)
    requires Valid(d)
    ensures MatchFrom(DayFirst(d), 0, DashFormat)
            == Some((10, [Two(d.day), "-", Two(d.month), "-", Four(d.year)]))
  {
    DayFirstParts(d);
    TwoMonthText(d.month);
    TwoDayText(d.day);
    DayFirstShapeMatch(DayFirst(d), '-', DashFormat);
  }

  /** `%d-%m-%Y` reads back every date written with it. */
  lemma DayFirstRoundTrip(d: Date)
    requires Valid(d)
    ensures Strptime(DayFirst(d), DashFormat) == Some(d)
  {
    var groups := [Two(d.day), "-", Two(d.month), "-", Four(d.year)];
    DayFirstMatch(d);
    assert FieldValue([Year], [Four(d.year)], Year, 1900) == d.year;
    assert FieldValue([Lit('-'), Year], ["-", Four(d.year)], Year, 1900) == d.year by {
      assert [Lit('-'), Year][1..] == [Year] && ["-", Four(d.year)][1..] == [Four(d.year)];
    }
    assert FieldValue([Month, Lit('-'), Year], [Two(d.month), "-", Four(d.year)], Year, 1900) == d.year by {
      assert [Month, Lit('-'), Year][1..] == [Lit('-'), Year];
      assert [Two(d.month), "-", Four(d.year)][1..] == ["-", Four(d.year)];
    }
    assert FieldValue([Lit('-'), Month, Lit('-'), Year], ["-", Two(d.month), "-", Four(d.year)], Year, 1900) == d.year by {
      assert [Lit('-'), Month, Lit('-'), Year][1..] == [Month, Lit('-'), Year];
      assert ["-", Two(d.month), "-", Four(d.year)][1..] == [Two(d.month), "-", Four(d.year)];
    }
    assert FieldValue([Lit('-'), Month, Lit('-'), Year], ["-", Two(d.month), "-", Four(d.year)], Month, 1) == d.month by {
      assert [Lit('-'), Month, Lit('-'), Year][1..] == [Month, Lit('-'), Year];
      assert ["-", Two(d.month), "-", Four(d.year)][1..] == [Two(d.month), "-", Four(d.year)];
    }
    assert DashFormat[1..] == [Lit('-'), Month, Lit('-'), Year];
    assert groups[1..] == ["-", Two(d.month), "-", Four(d.year)];
    StrptimeOfMatch(DayFirst(d), DashFormat, groups, d);
  }

  /** A day-first date is read by neither year-first format: its third character
      is a dash where the year's digits would be. */
  lemma DayFirstNotYearFirst(d: Date)
    requires Valid(d)
    ensures MatchFrom(DayFirst(d), 0, CompactFormat) == None
    ensures MatchFrom(DayFirst(d), 0, IsoFormat) == None
  {
    var s := DayFirst(d);
    assert s[2] == '-';
    var alt := Alternatives(Year)[0];
    assert !AltMatches(s, 0, alt) by {
      assert s[0..4][2] == '-';
    }
    TryAltFails(s, 0, CompactFormat, 0);
    TryAltFails(s, 0, IsoFormat, 0);
  }
}
