/** The three timestamp layouts index/data.go tries on a session's `Recorded`
    text, read the way Go's `time.Parse` reads them, and the order in which
    they are tried.

    An instant is a whole number of seconds since 0001-01-01 00:00:00 UTC,
    which is where Go's zero `time.Time` sits. */
module Timestamps {
  import opened Wrappers

  type Instant = int

  /** The zero `time.Time`. */
  const ZeroInstant: Instant := 0

  /** A date and time of day on the proleptic Gregorian calendar, in UTC. */
  datatype Civil = Civil(year: int, month: int, day: int, hour: int, minute: int, second: int)

  predicate IsLeap(year: int) {
    year % 4 == 0 && (year % 100 != 0 || year % 400 == 0)
  }

  function DaysIn(month: int, year: int): (n: int)
    requires 1 <= month <= 12
    ensures 28 <= n <= 31
  {
    if month == 2 then (if IsLeap(year) then 29 else 28)
    else if month == 4 || month == 6 || month == 9 || month == 11 then 30
    else 31
  }

  function YearLength(year: int): int {
    if IsLeap(year) then 366 else 365
  }

  predicate ValidDate(year: int, month: int, day: int) {
    1 <= month <= 12 && 1 <= day <= DaysIn(month, year)
  }

  predicate ValidCivil(c: Civil) {
    && ValidDate(c.year, c.month, c.day)
    && 0 <= c.hour < 24 && 0 <= c.minute < 60 && 0 <= c.second < 60
  }

  /** Days from 0001-01-01 to the first day of `year`. */
  function DaysBeforeYear(year: int): int {
    var y := year - 1;
    365 * y + y / 4 - y / 100 + y / 400
  }

  /** Days from the first of January to the first day of `month`. */
  function DaysBeforeMonth(month: int, year: int): int
    requires 1 <= month <= 12
  {
    [0, 31, 59, 90, 120, 151, 181, 212, 243, 273, 304, 334][month - 1]
      + (if month > 2 && IsLeap(year) then 1 else 0)
  }

  function DayNumber(c: Civil): int
    requires 1 <= c.month <= 12
  {
    DaysBeforeYear(c.year) + DaysBeforeMonth(c.month, c.year) + c.day - 1
  }

  function SecondOfDay(c: Civil): int {
    c.hour * 3600 + c.minute * 60 + c.second
  }

  /** The instant a civil time in UTC names. */
  function CivilSeconds(c: Civil): Instant
    requires 1 <= c.month <= 12
  {
    DayNumber(c) * 86400 + SecondOfDay(c)
  }

  /** Strictly earlier, field by field from the year down. */
  predicate Before(a: Civil, b: Civil) {
    || a.year < b.year
    || (a.year == b.year && a.month < b.month)
    || (a.year == b.year && a.month == b.month && a.day < b.day)
    || (a.year == b.year && a.month == b.month && a.day == b.day && SecondOfDay(a) < SecondOfDay(b))
  }

  // ---------------------------------------------------------------------------
  // The calendar arithmetic

  lemma ZeroIsFirstOfJanuaryYearOne()
    ensures CivilSeconds(Civil(1, 1, 1, 0, 0, 0)) == ZeroInstant
  {
    var c := Civil(1, 1, 1, 0, 0, 0);
    assert DaysBeforeYear(1) == 0;
    assert DaysBeforeMonth(1, 1) == 0;
    assert DayNumber(c) == 0;
    assert SecondOfDay(c) == 0;
  }

  /** One more year adds one more multiple of d exactly when the new year is
      one. */
  lemma QuotientStep(y: int, d: int)
    requires d == 4 || d == 100 || d == 400
    ensures (y + 1) / d - y / d == (if (y + 1) % d == 0 then 1 else 0)
  {
    var q, r := y / d, y % d;
    assert y == d * q + r && 0 <= r < d;
    if r == d - 1 {
      assert y + 1 == d * (q + 1);
    } else {
      assert y + 1 == d * q + (r + 1);
    }
  }

  /** Multiples of 400 are multiples of 100, and those are multiples of 4. */
  lemma LeapDivisors(year: int)
    ensures year % 400 == 0 ==> year % 100 == 0
    ensures year % 100 == 0 ==> year % 4 == 0
  {
    if year % 400 == 0 {
      var k := year / 400;
      assert year == 100 * (4 * k);
    }
    if year % 100 == 0 {
      var k := year / 100;
      assert year == 4 * (25 * k);
    }
  }

  lemma YearLengthIsDaysBetween(year: int)
    ensures DaysBeforeYear(year + 1) - DaysBeforeYear(year) == YearLength(year)
  {
    var y := year - 1;
    QuotientStep(y, 4);
    QuotientStep(y, 100);
    QuotientStep(y, 400);
    LeapDivisors(year);
    var d4, d100, d400 := year / 4 - y / 4, year / 100 - y / 100, year / 400 - y / 400;
    assert DaysBeforeYear(year + 1) - DaysBeforeYear(year) == 365 + d4 - d100 + d400;
  }

  lemma {:induction false} DaysBeforeYearGrows(a: int, b: int)
    requires a < b
    ensures DaysBeforeYear(a) + YearLength(a) <= DaysBeforeYear(b)
    decreases b - a
  {
    YearLengthIsDaysBetween(a);
    if a + 1 < b {
      DaysBeforeYearGrows(a + 1, b);
      YearLengthIsDaysBetween(a + 1);
    }
  }

  lemma MonthLengthIsDaysBetween(month: int, year: int)
    requires 1 <= month <= 12
    ensures month < 12 ==> DaysBeforeMonth(month, year) + DaysIn(month, year) == DaysBeforeMonth(month + 1, year)
    ensures month == 12 ==> DaysBeforeMonth(month, year) + DaysIn(month, year) == YearLength(year)
  {
  }

  lemma {:induction false} DaysBeforeMonthGrows(a: int, b: int, year: int)
    requires 1 <= a < b <= 12
    ensures DaysBeforeMonth(a, year) + DaysIn(a, year) <= DaysBeforeMonth(b, year)
    decreases b - a
  {
    MonthLengthIsDaysBetween(a, year);
    if a + 1 < b {
      DaysBeforeMonthGrows(a + 1, b, year);
    }
  }

  /** A valid date's day number lies within its year. */
  lemma DayNumberWithinYear(c: Civil)
    requires ValidDate(c.year, c.month, c.day)
    ensures DaysBeforeYear(c.year) <= DayNumber(c) < DaysBeforeYear(c.year) + YearLength(c.year)
  {
    MonthLengthIsDaysBetween(c.month, c.year);
    if c.month < 12 {
      DaysBeforeMonthGrows(c.month, 12, c.year);
      MonthLengthIsDaysBetween(12, c.year);
    }
  }

  lemma DayNumberOrdered(a: Civil, b: Civil)
    requires ValidDate(a.year, a.month, a.day) && ValidDate(b.year, b.month, b.day)
    requires Before(a, b) && !(a.year == b.year && a.month == b.month && a.day == b.day)
    ensures DayNumber(a) < DayNumber(b)
  {
    if a.year < b.year {
      DayNumberWithinYear(a);
      DayNumberWithinYear(b);
      DaysBeforeYearGrows(a.year, b.year);
    } else if a.month < b.month {
      DaysBeforeMonthGrows(a.month, b.month, a.year);
    }
  }

  /** CivilSeconds is strictly increasing on valid civil times. */
  lemma CivilSecondsOrdered(a: Civil, b: Civil)
    requires ValidCivil(a) && ValidCivil(b) && Before(a, b)
    ensures CivilSeconds(a) < CivilSeconds(b)
  {
    if !(a.year == b.year && a.month == b.month && a.day == b.day) {
      DayNumberOrdered(a, b);
    }
  }

  /** Two valid civil times name the same instant only when they are equal. */
  lemma CivilSecondsInjective(a: Civil, b: Civil)
    requires ValidCivil(a) && ValidCivil(b) && CivilSeconds(a) == CivilSeconds(b)
    ensures a == b
  {
    if Before(a, b) {
      CivilSecondsOrdered(a, b);
    } else if Before(b, a) {
      CivilSecondsOrdered(b, a);
    } else {
      assert a.year == b.year && a.month == b.month && a.day == b.day;
      assert SecondOfDay(a) == SecondOfDay(b);
    }
  }

  // ---------------------------------------------------------------------------
  // Reading the layouts

  /** The layouts of `inputTimestampFormats`: `time.RFC3339`
      ("2006-01-02T15:04:05Z07:00"), "2006-01-02T15:04:05" and "2006-01-02". */
  datatype Layout = RFC3339 | DateTime | DateOnly

  /** The order index/data.go tries them in. */
  const InputTimestampFormats: seq<Layout> := [RFC3339, DateTime, DateOnly]

  /** What a successful parse yields: the civil time the text spells out and
      the zone offset it names, in seconds east of UTC. */
  datatype Stamp = Stamp(civil: Civil, offset: int)

  predicate IsDigit(c: char) { '0' <= c <= '9' }

  function DigitValue(c: char): int { c as int - '0' as int }

  /** Go's `getnum` with `fixed` set: exactly two digits at `i`. */
  function TwoDigits(s: string, i: nat): (r: Option<int>)
    ensures r.Some? <==> i + 2 <= |s| && IsDigit(s[i]) && IsDigit(s[i + 1])
    ensures r.Some? ==> 0 <= r.value <= 99
  {
    if i + 2 <= |s| && IsDigit(s[i]) && IsDigit(s[i + 1]) then
      Some(10 * DigitValue(s[i]) + DigitValue(s[i + 1]))
    else None
  }

  /** Go's `getnum` without `fixed`: one digit, or two when a second one
      follows; also gives the position after them. */
  function OneOrTwoDigits(s: string, i: nat): (r: Option<(int, nat)>)
    ensures r.Some? ==> 0 <= r.value.0 <= 99 && i < r.value.1 <= |s|
  {
    if i < |s| && IsDigit(s[i]) then
      if i + 1 < |s| && IsDigit(s[i + 1]) then Some((10 * DigitValue(s[i]) + DigitValue(s[i + 1]), i + 2))
      else Some((DigitValue(s[i]), i + 1))
    else None
  }

  /** The `2006` field: four digits. */
  function FourDigits(s: string, i: nat): (r: Option<int>)
    ensures r.Some? ==> 0 <= r.value <= 9999
  {
    match (TwoDigits(s, i), TwoDigits(s, i + 2))
    case (Some(hi), Some(lo)) => Some(100 * hi + lo)
    case _ => None
  }

  function DigitsEnd(s: string, i: nat): (j: nat)
    requires i <= |s|
    ensures i <= j <= |s|
    decreases |s| - i
  {
    if i < |s| && IsDigit(s[i]) then DigitsEnd(s, i + 1) else i
  }

  /** A fractional second right after the seconds: Go accepts `.` or `,`
      and at least one digit there although none of the layouts spells one
      out. The value is dropped, as instants here are whole seconds. */
  function SkipFraction(s: string, i: nat): (j: nat)
    requires i <= |s|
    ensures i <= j <= |s|
    ensures i == |s| ==> j == i
  {
    if i + 2 <= |s| && (s[i] == '.' || s[i] == ',') && IsDigit(s[i + 1]) then DigitsEnd(s, i + 2) else i
  }

  /** `2006-01-02` at the start of s, validated as Go validates it: month in
      1..12, then the day against the month's length in that year. */
  function ParseDatePart(s: string): (r: Option<Civil>)
    ensures r.Some? ==> 10 <= |s| && ValidCivil(r.value)
  {
    if |s| < 10 || s[4] != '-' || s[7] != '-' then None
    else
      match (FourDigits(s, 0), TwoDigits(s, 5), TwoDigits(s, 8))
      case (Some(y), Some(m), Some(d)) =>
        if ValidDate(y, m, d) then Some(Civil(y, m, d, 0, 0, 0)) else None
      case _ => None
  }

  /** `T15:04:05` from position 10, with the optional fractional second; gives
      the completed civil time and the position after it. */
  function ParseClock(s: string, date: Civil): (r: Option<(Civil, nat)>)
    requires ValidCivil(date)
    ensures r.Some? ==> ValidCivil(r.value.0) && r.value.1 <= |s|
    ensures r.Some? ==> r.value.0.year == date.year && r.value.0.month == date.month && r.value.0.day == date.day
  {
    if |s| <= 10 || s[10] != 'T' then None
    else
      match OneOrTwoDigits(s, 11)
      case None => None
      case Some((h, p)) =>
        if p + 6 <= |s| && s[p] == ':' && s[p + 3] == ':' then
          match (TwoDigits(s, p + 1), TwoDigits(s, p + 4))
          case (Some(mi), Some(se)) =>
            if h < 24 && mi < 60 && se < 60 then
              Some((date.(hour := h, minute := mi, second := se), SkipFraction(s, p + 6)))
            else None
          case _ => None
        else None
  }

  /** `Z07:00` at position i, which must be the rest of s: `Z` for UTC, or a
      sign, two hour digits, `:` and two minute digits. Go rejects an offset
      hour above 24 and an offset minute above 60. */
  function ParseZone(s: string, i: nat): (r: Option<int>)
    requires i <= |s|
    ensures r.Some? ==> -90000 <= r.value <= 90000
  {
    if i < |s| && s[i] == 'Z' then
      if i + 1 == |s| then Some(0) else None
    else if i + 6 == |s| && s[i + 3] == ':' && (s[i] == '+' || s[i] == '-') then
      match (TwoDigits(s, i + 1), TwoDigits(s, i + 4))
      case (Some(hh), Some(mm)) =>
        if hh <= 24 && mm <= 60 then
          Some(if s[i] == '-' then -(hh * 3600 + mm * 60) else hh * 3600 + mm * 60)
        else None
      case _ => None
    else None
  }

  /** time.Parse(layout, s), up to the instant: the whole of s must match. */
  function ParseStamp(layout: Layout, s: string): (r: Option<Stamp>)
    ensures r.Some? ==> ValidCivil(r.value.civil) && -90000 <= r.value.offset <= 90000
    ensures r.Some? && layout != RFC3339 ==> r.value.offset == 0
  {
    match ParseDatePart(s)
    case None => None
    case Some(date) =>
      match layout
      case DateOnly =>
        if |s| == 10 then Some(Stamp(date, 0)) else None
      case DateTime =>
        (match ParseClock(s, date)
         case None => None
         case Some((c, p)) => if p == |s| then Some(Stamp(c, 0)) else None)
      case RFC3339 =>
        match ParseClock(s, date)
        case None => None
        case Some((c, p)) =>
          match ParseZone(s, p)
          case None => None
          case Some(offset) => Some(Stamp(c, offset))
  }

  function StampInstant(st: Stamp): Instant
    requires ValidCivil(st.civil)
  {
    CivilSeconds(st.civil) - st.offset
  }

  /** The instant time.Parse returns, or None for its error. */
  function Parse(layout: Layout, s: string): (r: Option<Instant>)
    ensures r.Some? <==> ParseStamp(layout, s).Some?
  {
    match ParseStamp(layout, s)
    case None => None
    case Some(st) => Some(StampInstant(st))
  }

  /** The instant of the first layout that reads s; None when none does. */
  function FirstMatch(layouts: seq<Layout>, s: string): Option<Instant>
  {
    if layouts == [] then None
    else if Parse(layouts[0], s).Some? then Parse(layouts[0], s)
    else FirstMatch(layouts[1..], s)
  }

  /** The zone offset of the first layout that reads s, in seconds east of
      UTC; 0, the zone of the zero time, when none does. */
  function FirstOffset(layouts: seq<Layout>, s: string): int
  {
    if layouts == [] then 0
    else if ParseStamp(layouts[0], s).Some? then ParseStamp(layouts[0], s).value.offset
    else FirstOffset(layouts[1..], s)
  }

  // ---------------------------------------------------------------------------
  // First match

  /** What FirstMatch returns comes from some layout, and every layout before
      that one fails. */
  lemma {:induction false} FirstMatchSound(layouts: seq<Layout>, s: string)
    requires FirstMatch(layouts, s).Some?
    ensures exists k :: 0 <= k < |layouts| && Parse(layouts[k], s) == FirstMatch(layouts, s)
              && forall j :: 0 <= j < k ==> Parse(layouts[j], s).None?
  {
    if Parse(layouts[0], s).None? {
      FirstMatchSound(layouts[1..], s);
      var k :| 0 <= k < |layouts[1..]| && Parse(layouts[1..][k], s) == FirstMatch(layouts[1..], s)
                && forall j :: 0 <= j < k ==> Parse(layouts[1..][j], s).None?;
      assert Parse(layouts[k + 1], s) == FirstMatch(layouts, s);
      forall j | 0 <= j < k + 1
        ensures Parse(layouts[j], s).None?
      {
        if j > 0 {
          assert layouts[j] == layouts[1..][j - 1];
        }
      }
    } else {
      assert Parse(layouts[0], s) == FirstMatch(layouts, s);
    }
  }

  /** A layout that reads s wins when every layout before it fails; the
      layouts after it are not consulted. */
  lemma {:induction false} FirstMatchComplete(layouts: seq<Layout>, s: string, k: nat)
    requires k < |layouts| && Parse(layouts[k], s).Some?
    requires forall j :: 0 <= j < k ==> Parse(layouts[j], s).None?
    ensures FirstMatch(layouts, s) == Parse(layouts[k], s)
    decreases k
  {
    if k > 0 {
      assert Parse(layouts[0], s).None?;
      forall j | 0 <= j < k - 1
        ensures Parse(layouts[1..][j], s).None?
      {
        assert layouts[1..][j] == layouts[j + 1];
      }
      FirstMatchComplete(layouts[1..], s, k - 1);
    }
  }

  /** The zone comes from the same layout as the instant. */
  lemma {:induction false} FirstOffsetComplete(layouts: seq<Layout>, s: string, k: nat)
    requires k < |layouts| && ParseStamp(layouts[k], s).Some?
    requires forall j :: 0 <= j < k ==> ParseStamp(layouts[j], s).None?
    ensures FirstOffset(layouts, s) == ParseStamp(layouts[k], s).value.offset
    decreases k
  {
    if k > 0 {
      assert ParseStamp(layouts[0], s).None?;
      forall j | 0 <= j < k - 1
        ensures ParseStamp(layouts[1..][j], s).None?
      {
        assert layouts[1..][j] == layouts[j + 1];
      }
      FirstOffsetComplete(layouts[1..], s, k - 1);
    }
  }

  /** When no layout reads s, the zone is UTC. */
  lemma {:induction false} FirstOffsetNone(layouts: seq<Layout>, s: string)
    requires forall k :: 0 <= k < |layouts| ==> ParseStamp(layouts[k], s).None?
    ensures FirstOffset(layouts, s) == 0
  {
    if layouts != [] {
      assert forall k :: 0 <= k < |layouts[1..]| ==> layouts[1..][k] == layouts[k + 1];
      FirstOffsetNone(layouts[1..], s);
    }
  }

  /** No instant exactly when every layout fails. */
  lemma {:induction false} FirstMatchNone(layouts: seq<Layout>, s: string)
    ensures FirstMatch(layouts, s).None? <==> forall k :: 0 <= k < |layouts| ==> Parse(layouts[k], s).None?
  {
    if layouts != [] {
      FirstMatchNone(layouts[1..], s);
      if Parse(layouts[0], s).None? {
        forall k | 0 < k < |layouts|
          ensures layouts[k] == layouts[1..][k - 1]
        {
        }
      }
    }
  }

  // ---------------------------------------------------------------------------
  // Writing the layouts, and reading them back

  function DigitChar(n: int): char
    requires 0 <= n <= 9
  {
    ('0' as int + n) as char
  }

  function Pad2(n: int): (r: string)
    requires 0 <= n <= 99
    ensures |r| == 2 && IsDigit(r[0]) && IsDigit(r[1])
  {
    [DigitChar(n / 10), DigitChar(n % 10)]
  }

  function Pad4(n: int): (r: string)
    requires 0 <= n <= 9999
    ensures |r| == 4
  {
    Pad2(n / 100) + Pad2(n % 100)
  }

  /** A civil time Go's layouts can write: a four-digit year. */
  predicate Writable(c: Civil) { ValidCivil(c) && 0 <= c.year <= 9999 }

  /** The "2006-01-02" layout. */
  function FormatDate(c: Civil): (r: string)
    requires Writable(c)
    ensures |r| == 10
  {
    Pad4(c.year) + "-" + Pad2(c.month) + "-" + Pad2(c.day)
  }

  /** The "2006-01-02T15:04:05" layout. */
  function FormatDateTime(c: Civil): (r: string)
    requires Writable(c)
    ensures |r| == 19
  {
    FormatDate(c) + "T" + Pad2(c.hour) + ":" + Pad2(c.minute) + ":" + Pad2(c.second)
  }

  /** The zone of the RFC 3339 layout: `Z`, or `+hh:mm` / `-hh:mm`. */
  function FormatZone(negative: bool, hh: int, mm: int): (r: string)
    requires 0 <= hh <= 24 && 0 <= mm <= 59
  {
    [if negative then '-' else '+'] + Pad2(hh) + ":" + Pad2(mm)
  }

  function ZoneOffset(negative: bool, hh: int, mm: int): int {
    if negative then -(hh * 3600 + mm * 60) else hh * 3600 + mm * 60
  }

  lemma Pad2Reads(n: int, s: string, i: nat)
    requires 0 <= n <= 99 && i + 2 <= |s| && s[i..i + 2] == Pad2(n)
    ensures TwoDigits(s, i) == Some(n)
  {
    assert s[i] == Pad2(n)[0] && s[i + 1] == Pad2(n)[1];
  }

  /** A date written at the start of s is read back. */
  lemma DatePartReads(c: Civil, s: string)
    requires Writable(c) && 10 <= |s| && s[..10] == FormatDate(c)
    ensures ParseDatePart(s) == Some(c.(hour := 0, minute := 0, second := 0))
  {
    assert s[0..2] == s[..10][0..2] && s[2..4] == s[..10][2..4];
    assert s[5..7] == s[..10][5..7] && s[8..10] == s[..10][8..10];
    Pad2Reads(c.year / 100, s, 0);
    Pad2Reads(c.year % 100, s, 2);
    Pad2Reads(c.month, s, 5);
    Pad2Reads(c.day, s, 8);
  }

  /** Where the fields sit in the date-time text. */
  lemma FormatDateTimeParts(c: Civil)
    requires Writable(c)
    ensures var f := FormatDateTime(c);
      && f[..10] == FormatDate(c) && f[10] == 'T' && f[13] == ':' && f[16] == ':'
      && f[11..13] == Pad2(c.hour) && f[14..16] == Pad2(c.minute) && f[17..19] == Pad2(c.second)
  {
  }

  /** A date and clock written at the start of s are read back, when what
      follows is not a fractional second. */
  lemma DateTimeReads(c: Civil, s: string)
    requires Writable(c) && 19 <= |s| && s[..19] == FormatDateTime(c)
    requires |s| == 19 || !(s[19] == '.' || s[19] == ',')
    ensures ParseDatePart(s) == Some(c.(hour := 0, minute := 0, second := 0))
    ensures ParseClock(s, c.(hour := 0, minute := 0, second := 0)) == Some((c, 19))
  {
    FormatDateTimeParts(c);
    assert s[..10] == s[..19][..10];
    DatePartReads(c, s);
    assert s[11..13] == s[..19][11..13] && s[14..16] == s[..19][14..16] && s[17..19] == s[..19][17..19];
    assert s[10] == s[..19][10] && s[13] == s[..19][13] && s[16] == s[..19][16];
    Pad2Reads(c.hour, s, 11);
    Pad2Reads(c.minute, s, 14);
    Pad2Reads(c.second, s, 17);
  }

  /** The date-time layout takes a date and a clock that end the text, in
      UTC. */
  lemma DateTimeLayoutReads(s: string, date: Civil, c: Civil)
    requires ParseDatePart(s) == Some(date)
    requires ParseClock(s, date) == Some((c, |s|))
    ensures Parse(DateTime, s) == Some(CivilSeconds(c))
  {
    assert ParseStamp(DateTime, s) == Some(Stamp(c, 0));
  }

  /** The RFC 3339 layout puts together a date, a clock and a zone read one
      after the other. */
  lemma RFC3339Reads(s: string, date: Civil, c: Civil, p: nat, offset: int)
    requires ParseDatePart(s) == Some(date)
    requires ParseClock(s, date) == Some((c, p))
    requires p <= |s| && ParseZone(s, p) == Some(offset)
    ensures Parse(RFC3339, s) == Some(CivilSeconds(c) - offset)
  {
    assert ParseStamp(RFC3339, s) == Some(Stamp(c, offset));
  }

  /** A numeric zone written at the end of s is read back as its offset. */
  lemma ZoneReads(negative: bool, hh: int, mm: int, s: string, i: nat)
    requires 0 <= hh <= 24 && 0 <= mm <= 59
    requires i <= |s| && s[i..] == FormatZone(negative, hh, mm)
    ensures ParseZone(s, i) == Some(ZoneOffset(negative, hh, mm))
  {
    var z := FormatZone(negative, hh, mm);
    assert s[i] == z[0] && s[i + 3] == z[3] && |s| == i + 6;
    assert s[i + 1..i + 3] == z[1..3] == Pad2(hh);
    assert s[i + 4..i + 6] == z[4..6] == Pad2(mm);
    Pad2Reads(hh, s, i + 1);
    Pad2Reads(mm, s, i + 4);
  }

  /** The date-only layout reads back what it writes, at midnight UTC. */
  lemma DateOnlyRoundTrip(c: Civil)
    requires Writable(c)
    ensures Parse(DateOnly, FormatDate(c)) == Some(CivilSeconds(c.(hour := 0, minute := 0, second := 0)))
  {
    assert FormatDate(c)[..10] == FormatDate(c);
    DatePartReads(c, FormatDate(c));
  }

  /** The date-time layout reads back what it writes, in UTC. */
  lemma DateTimeRoundTrip(c: Civil)
    requires Writable(c)
    ensures Parse(DateTime, FormatDateTime(c)) == Some(CivilSeconds(c))
  {
    var s := FormatDateTime(c);
    assert s[..19] == s;
    DateTimeReads(c, s);
    DateTimeLayoutReads(s, c.(hour := 0, minute := 0, second := 0), c);
  }

  /** The RFC 3339 layout reads back what it writes with a `Z` zone. */
  lemma RFC3339UtcRoundTrip(c: Civil)
    requires Writable(c)
    ensures Parse(RFC3339, FormatDateTime(c) + "Z") == Some(CivilSeconds(c))
  {
    var s := FormatDateTime(c) + "Z";
    assert s[..19] == FormatDateTime(c) && s[19] == 'Z' && |s| == 20;
    DateTimeReads(c, s);
    assert ParseZone(s, 19) == Some(0);
    RFC3339Reads(s, c.(hour := 0, minute := 0, second := 0), c, 19, 0);
  }

  /** The RFC 3339 layout reads back what it writes with a numeric zone, and
      the instant is the civil time less the offset. */
  lemma RFC3339OffsetRoundTrip(c: Civil, negative: bool, hh: int, mm: int)
    requires Writable(c) && 0 <= hh <= 24 && 0 <= mm <= 59
    ensures Parse(RFC3339, FormatDateTime(c) + FormatZone(negative, hh, mm))
              == Some(CivilSeconds(c) - ZoneOffset(negative, hh, mm))
    ensures ParseStamp(RFC3339, FormatDateTime(c) + FormatZone(negative, hh, mm)).value.offset
              == ZoneOffset(negative, hh, mm)
  {
    var z := FormatZone(negative, hh, mm);
    var s := FormatDateTime(c) + z;
    assert s[..19] == FormatDateTime(c) && s[19..] == z;
    DateTimeReads(c, s);
    ZoneReads(negative, hh, mm, s, 19);
    RFC3339Reads(s, c.(hour := 0, minute := 0, second := 0), c, 19, ZoneOffset(negative, hh, mm));
  }

  // ---------------------------------------------------------------------------
  // Which layout reads which text

  /** Text in the date-only layout fails the first two layouts and is read by
      the third. */
  lemma DateOnlyTextIsReadByThirdLayout(c: Civil)
    requires Writable(c)
    ensures FirstMatch(InputTimestampFormats, FormatDate(c))
              == Some(CivilSeconds(c.(hour := 0, minute := 0, second := 0)))
    ensures FirstOffset(InputTimestampFormats, FormatDate(c)) == 0
  {
    DateOnlyRoundTrip(c);
    assert Parse(RFC3339, FormatDate(c)).None?;
    assert Parse(DateTime, FormatDate(c)).None?;
    FirstMatchComplete(InputTimestampFormats, FormatDate(c), 2);
    FirstOffsetComplete(InputTimestampFormats, FormatDate(c), 2);
  }

  /** Text in the date-time layout has no zone, so it fails RFC 3339 and is
      read by the second layout as UTC. */
  lemma DateTimeTextIsReadBySecondLayout(c: Civil)
    requires Writable(c)
    ensures FirstMatch(InputTimestampFormats, FormatDateTime(c)) == Some(CivilSeconds(c))
    ensures FirstOffset(InputTimestampFormats, FormatDateTime(c)) == 0
  {
    var s := FormatDateTime(c);
    DateTimeRoundTrip(c);
    assert s[..19] == s;
    DateTimeReads(c, s);
    assert Parse(RFC3339, s).None?;
    FirstMatchComplete(InputTimestampFormats, s, 1);
    FirstOffsetComplete(InputTimestampFormats, s, 1);
  }

  /** Text in the RFC 3339 layout is read by the first layout. */
  lemma RFC3339TextIsReadByFirstLayout(c: Civil, negative: bool, hh: int, mm: int)
    requires Writable(c) && 0 <= hh <= 24 && 0 <= mm <= 59
    ensures FirstMatch(InputTimestampFormats, FormatDateTime(c) + FormatZone(negative, hh, mm))
              == Some(CivilSeconds(c) - ZoneOffset(negative, hh, mm))
    ensures FirstOffset(InputTimestampFormats, FormatDateTime(c) + FormatZone(negative, hh, mm))
              == ZoneOffset(negative, hh, mm)
  {
    RFC3339OffsetRoundTrip(c, negative, hh, mm);
  }

  // The three cases of index/data_test.go: a bare date is midnight UTC, a
  // date and time without zone is UTC, and `+01:00` (Vienna in February) is
  // an hour earlier in UTC.

  lemma RecordedDateOnlyCase(text: string)
    requires text == "2016-02-05"
    ensures FirstMatch(InputTimestampFormats, text) == Some(CivilSeconds(Civil(2016, 2, 5, 0, 0, 0)))
    ensures FirstOffset(InputTimestampFormats, text) == 0
  {
    var c := Civil(2016, 2, 5, 0, 0, 0);
    assert FormatDate(c) == "2016-02-05";
    DateOnlyTextIsReadByThirdLayout(c);
  }

  lemma RecordedDateTimeCase(text: string)
    requires text == "2016-02-05T18:30:00"
    ensures FirstMatch(InputTimestampFormats, text) == Some(CivilSeconds(Civil(2016, 2, 5, 18, 30, 0)))
    ensures FirstOffset(InputTimestampFormats, text) == 0
  {
    var c := Civil(2016, 2, 5, 18, 30, 0);
    assert FormatDateTime(c) == "2016-02-05T18:30:00";
    DateTimeTextIsReadBySecondLayout(c);
  }

  lemma RecordedZoneCase(text: string)
    requires text == "2016-02-05T18:30:00+01:00"
    ensures FirstMatch(InputTimestampFormats, text) == Some(CivilSeconds(Civil(2016, 2, 5, 17, 30, 0)))
    ensures FirstOffset(InputTimestampFormats, text) == 3600
  {
    var c := Civil(2016, 2, 5, 18, 30, 0);
    ZoneCaseText(c, text);
    RFC3339TextIsReadByFirstLayout(c, false, 1, 0);
    OneHourEarlier(c);
  }

  lemma ZoneCaseText(c: Civil, text: string)
    requires c == Civil(2016, 2, 5, 18, 30, 0) && text == "2016-02-05T18:30:00+01:00"
    ensures FormatDateTime(c) + FormatZone(false, 1, 0) == text
  {
  }

  /** An offset of +01:00 puts the instant an hour before the civil time. */
  lemma OneHourEarlier(c: Civil)
    requires ValidCivil(c) && c.hour >= 1
    ensures CivilSeconds(c) - ZoneOffset(false, 1, 0) == CivilSeconds(c.(hour := c.hour - 1))
  {
    assert DayNumber(c) == DayNumber(c.(hour := c.hour - 1));
  }
}
