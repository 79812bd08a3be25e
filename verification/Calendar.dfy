/**
  The UTC calendar behind the `Date` methods the scheduler calls, defined as ECMA-262 section
  21.4.1 ("Time-related Constants" and "Time Values") defines it: day numbers count from
  1 January 1970, years by the Gregorian leap rule.
*/
module Calendar {
  import opened Common
  import opened Numerals

  const MS_PER_MINUTE := 60_000
  const MS_PER_HOUR := 3_600_000
  const MS_PER_DAY := 86_400_000

  function Day(t: Time): int { t / MS_PER_DAY }

  function Hours(t: Time): nat { t / MS_PER_HOUR % 24 }

  function Minutes(t: Time): nat { t / MS_PER_MINUTE % 60 }

  function Seconds(t: Time): nat { t / 1000 % 60 }

  function Millis(t: Time): nat { t % 1000 }

  /** 0 is Sunday; day 0 was a Thursday. */
  function WeekDay(day: int): int { (day + 4) % 7 }

  /** `setUTCMinutes(m)`: the other components stay, and m may overflow into the hour. */
  function SetMinutes(t: Time, m: int): Time {
    Day(t) * MS_PER_DAY + Hours(t) * MS_PER_HOUR + m * MS_PER_MINUTE + Seconds(t) * 1000 + Millis(t)
  }

  /** Rolling the minute forward through `setUTCMinutes` carries into hours and days correctly. */
  lemma NextMinute(t: Time)
    ensures SetMinutes(t, Minutes(t) + 1) == t + MS_PER_MINUTE
  {
    var s := t / 1000;
    var m := t / MS_PER_MINUTE;
    var h := t / MS_PER_HOUR;
    assert m == s / 60;
    assert h == m / 60;
    assert Day(t) == h / 24;
  }

  predicate IsLeap(year: int) {
    year % 4 == 0 && (year % 100 != 0 || year % 400 == 0)
  }

  function DaysInYear(year: int): int { if IsLeap(year) then 366 else 365 }

  function DayFromYear(year: int): int {
    365 * (year - 1970) + (year - 1969) / 4 - (year - 1901) / 100 + (year - 1601) / 400
  }

  lemma Carry4(n: int)
    ensures (n + 1) / 4 == n / 4 + (if (n + 1) % 4 == 0 then 1 else 0)
  {
  }

  lemma Carry100(n: int)
    ensures (n + 1) / 100 == n / 100 + (if (n + 1) % 100 == 0 then 1 else 0)
  {
  }

  lemma Carry400(n: int)
    ensures (n + 1) / 400 == n / 400 + (if (n + 1) % 400 == 0 then 1 else 0)
  {
  }

  lemma Shift(n: int, k: int, q: int)
    requires k > 0
    ensures (n - q * k) % k == n % k
  {
    var d := n / k;
    assert n - q * k == (d - q) * k + n % k;
    Remainder(n - q * k, k, d - q, n % k);
  }

  lemma Remainder(n: int, k: int, q: int, r: int)
    requires k > 0 && n == q * k + r && 0 <= r < k
    ensures n % k == r && n / k == q
  {
    var e := n / k - q;
    assert e * k == r - n % k;
  }

  lemma Multiple(n: int, k: int, q: int)
    requires k > 0 && n == q * k
    ensures n % k == 0
  {
    Remainder(n, k, q, 0);
  }

  lemma LeapTest(year: int)
    ensures (year - 1968) % 4 == 0 <==> year % 4 == 0
    ensures (year - 1900) % 100 == 0 <==> year % 100 == 0
    ensures (year - 1600) % 400 == 0 <==> year % 400 == 0
    ensures year % 400 == 0 ==> year % 100 == 0
    ensures year % 100 == 0 ==> year % 4 == 0
  {
    Shift(year, 4, 492);
    Shift(year, 100, 19);
    Shift(year, 400, 4);
    if year % 400 == 0 { Multiple(year, 100, 4 * (year / 400)); }
    if year % 100 == 0 { Multiple(year, 4, 25 * (year / 100)); }
  }

  lemma YearLength(year: int)
    ensures DayFromYear(year + 1) == DayFromYear(year) + DaysInYear(year)
  {
    Carry4(year - 1969);
    Carry100(year - 1901);
    Carry400(year - 1601);
    LeapTest(year);
  }

  /** The year that contains a day, by stepping from `year`. */
  function YearFrom(day: int, year: int): (y: int)
    ensures DayFromYear(y) <= day < DayFromYear(y + 1)
    decreases if day < DayFromYear(year) then DayFromYear(year) - day
              else if DayFromYear(year + 1) <= day then day - DayFromYear(year + 1) + 1
              else 0
  {
    hide DayFromYear, IsLeap;
    YearLength(year);
    YearLength(year + 1);
    YearLength(year - 1);
    if day < DayFromYear(year) then YearFrom(day, year - 1)
    else if DayFromYear(year + 1) <= day then YearFrom(day, year + 1)
    else year
  }

  function YearFromDay(day: int): int { YearFrom(day, 1970) }

  lemma {:induction false} YearsInOrder(a: int, b: int)
    requires a <= b
    ensures DayFromYear(a) + 365 * (b - a) <= DayFromYear(b)
    decreases b - a
  {
    if a < b {
      YearsInOrder(a, b - 1);
      YearLength(b - 1);
    }
  }

  /** A day lies in exactly one year. */
  lemma YearIsUnique(day: int, year: int)
    requires DayFromYear(year) <= day < DayFromYear(year + 1)
    ensures YearFromDay(day) == year
  {
    var y := YearFromDay(day);
    if y < year { YearsInOrder(y + 1, year); }
    if year < y { YearsInOrder(year + 1, y); }
  }

  /** Days of the year before the first of `month` (1 to 13; 13 is the end of the year). */
  function DaysBeforeMonth(month: int, leap: bool): int
    requires 1 <= month <= 13
  {
    var l := if leap then 1 else 0;
    if month == 1 then 0 else if month == 2 then 31 else if month == 3 then 59 + l
    else if month == 4 then 90 + l else if month == 5 then 120 + l else if month == 6 then 151 + l
    else if month == 7 then 181 + l else if month == 8 then 212 + l else if month == 9 then 243 + l
    else if month == 10 then 273 + l else if month == 11 then 304 + l else if month == 12 then 334 + l
    else 365 + l
  }

  function DaysInMonth(month: int, leap: bool): (n: int)
    requires 1 <= month <= 12
    ensures 28 <= n <= 31
  {
    DaysBeforeMonth(month + 1, leap) - DaysBeforeMonth(month, leap)
  }

  function MonthOfYearDay(n: int, leap: bool): (m: int)
    requires 0 <= n < (if leap then 366 else 365)
    ensures 1 <= m <= 12 && DaysBeforeMonth(m, leap) <= n < DaysBeforeMonth(m + 1, leap)
  {
    var l := if leap then 1 else 0;
    if n < 31 then 1 else if n < 59 + l then 2 else if n < 90 + l then 3 else if n < 120 + l then 4
    else if n < 151 + l then 5 else if n < 181 + l then 6 else if n < 212 + l then 7
    else if n < 243 + l then 8 else if n < 273 + l then 9 else if n < 304 + l then 10
    else if n < 334 + l then 11 else 12
  }

  /** `getUTCMonth() + 1`. */
  function Month(day: int): (m: int)
    ensures 1 <= m <= 12
  {
    hide DayFromYear, IsLeap;
    var y := YearFromDay(day);
    YearLength(y);
    MonthOfYearDay(day - DayFromYear(y), IsLeap(y))
  }

  /** `getUTCDate()`. */
  function DayOfMonth(day: int): (d: int)
    ensures 1 <= d <= 31
  {
    hide DayFromYear, IsLeap;
    var y := YearFromDay(day);
    YearLength(y);
    var n := day - DayFromYear(y);
    n - DaysBeforeMonth(MonthOfYearDay(n, IsLeap(y)), IsLeap(y)) + 1
  }

  /** `MakeDay`: the day number of a civil date. */
  function MakeDay(year: int, month: int, date: int): int
    requires 1 <= month <= 12
  {
    DayFromYear(year) + DaysBeforeMonth(month, IsLeap(year)) + date - 1
  }

  predicate IsDate(year: int, month: int, date: int) {
    1 <= month <= 12 && 1 <= date <= DaysInMonth(month, IsLeap(year))
  }

  /** Day numbers and civil dates determine each other. */
  lemma CivilDateRoundTrip(day: int, year: int, month: int, date: int)
    ensures IsDate(year, month, date) && MakeDay(year, month, date) == day
            <==> year == YearFromDay(day) && month == Month(day) && date == DayOfMonth(day)
  {
    hide DayFromYear, IsLeap;
    YearLength(year);
    YearLength(YearFromDay(day));
    if IsDate(year, month, date) && MakeDay(year, month, date) == day {
      MonthStarts(month, IsLeap(year));
      YearIsUnique(day, year);
      MonthIsUnique(day - DayFromYear(year), month, IsLeap(year));
    }
  }

  lemma MonthStarts(month: int, leap: bool)
    requires 1 <= month <= 12
    ensures 0 <= DaysBeforeMonth(month, leap)
    ensures DaysBeforeMonth(month + 1, leap) <= if leap then 366 else 365
  {
  }

  lemma MonthIsUnique(n: int, month: int, leap: bool)
    requires 1 <= month <= 12
    requires DaysBeforeMonth(month, leap) <= n < DaysBeforeMonth(month + 1, leap)
    ensures 0 <= n < (if leap then 366 else 365) && MonthOfYearDay(n, leap) == month
  {
    MonthStarts(month, leap);
  }

  // ---------------------------------------------------------------- ISO text

  /** The last `width` decimal digits of `n`, with leading zeros. */
  function Pad(n: nat, width: nat): (s: string)
    ensures |s| == width && forall c | c in s :: '0' <= c <= '9'
  {
    if width == 0 then "" else Pad(n / 10, width - 1) + [Digit(n % 10)]
  }

  /** `toISOString()`: years outside 0 to 9999 get a sign and six digits. */
  function IsoString(t: Time): string {
    var day := Day(t);
    var y := YearFromDay(day);
    var year := if 0 <= y <= 9999 then Pad(y, 4)
                else if y < 0 then "-" + Pad(-y, 6) else "+" + Pad(y, 6);
    year + "-" + Pad(Month(day), 2) + "-" + Pad(DayOfMonth(day), 2)
    + "T" + Pad(Hours(t), 2) + ":" + Pad(Minutes(t), 2) + ":" + Pad(Seconds(t), 2)
    + "." + Pad(Millis(t), 3) + "Z"
  }

  /** `\d{4}-\d{2}-\d{2}T\d{2}:\d{2}:\d{2}\.\d{3}Z`, the form events must carry. */
  predicate IsIsoDateTime(s: string) {
    && |s| == 24
    && AllDigits(s[..4]) && s[4] == '-' && AllDigits(s[5..7]) && s[7] == '-' && AllDigits(s[8..10])
    && s[10] == 'T' && AllDigits(s[11..13]) && s[13] == ':' && AllDigits(s[14..16])
    && s[16] == ':' && AllDigits(s[17..19]) && s[19] == '.' && AllDigits(s[20..23]) && s[23] == 'Z'
  }

  /** Instants whose ISO text has a four-digit year. */
  predicate InIsoRange(t: Time) { 0 <= YearFromDay(Day(t)) <= 9999 }

  lemma IsoStringShape(t: Time)
    requires InIsoRange(t)
    ensures IsIsoDateTime(IsoString(t))
  {
    hide YearFromDay, Month, DayOfMonth, Hours, Minutes, Seconds, Millis, Pad, Day, IsoString;
    IsoParts(t);
    IsoMarks(t);
  }

  lemma IsoMarks(t: Time)
    requires InIsoRange(t)
    ensures var iso := IsoString(t);
            |iso| == 24 && iso[4] == '-' && iso[7] == '-' && iso[10] == 'T' && iso[13] == ':' && iso[16] == ':'
            && iso[19] == '.' && iso[23] == 'Z'
  {
    hide YearFromDay, Month, DayOfMonth, Hours, Minutes, Seconds, Millis, Pad, Day;
  }

  // ---------------------------------------------------------------- reading ISO text back

  lemma {:induction false} PadInjective(a: nat, b: nat, width: nat)
    requires a < Power10(width) && b < Power10(width) && Pad(a, width) == Pad(b, width)
    ensures a == b
    decreases width
  {
    if width > 0 {
      var s := Pad(a, width);
      assert s[..width - 1] == Pad(a / 10, width - 1) == Pad(b / 10, width - 1);
      assert s[width - 1] == Digit(a % 10) == Digit(b % 10);
      PadInjective(a / 10, b / 10, width - 1);
    }
  }

  lemma SmallPowers()
    ensures Power10(2) == 100 && Power10(3) == 1000 && Power10(4) == 10000
  {
    assert Power10(1) == 10;
  }

  /** An instant is its day and its time of day. */
  lemma FromComponents(t: Time)
    ensures t == Day(t) * MS_PER_DAY + Hours(t) * MS_PER_HOUR + Minutes(t) * MS_PER_MINUTE + Seconds(t) * 1000 + Millis(t)
  {
    NextMinute(t);
  }

  /** Different instants have different ISO text. */
  lemma IsoStringInjective(t: Time, u: Time)
    requires InIsoRange(t) && InIsoRange(u) && IsoString(t) == IsoString(u)
    ensures t == u
  {
    var a, b := IsoString(t), IsoString(u);
    IsoParts(t);
    IsoParts(u);
    SmallPowers();
    var d, e := Day(t), Day(u);
    PadInjective(YearFromDay(d), YearFromDay(e), 4);
    PadInjective(Month(d), Month(e), 2);
    PadInjective(DayOfMonth(d), DayOfMonth(e), 2);
    PadInjective(Hours(t), Hours(u), 2);
    PadInjective(Minutes(t), Minutes(u), 2);
    PadInjective(Seconds(t), Seconds(u), 2);
    PadInjective(Millis(t), Millis(u), 3);
    CivilDateRoundTrip(d, YearFromDay(d), Month(d), DayOfMonth(d));
    CivilDateRoundTrip(e, YearFromDay(e), Month(e), DayOfMonth(e));
    FromComponents(t);
    FromComponents(u);
  }

  lemma IsoParts(t: Time)
    requires InIsoRange(t)
    ensures var iso := IsoString(t);
            && |iso| == 24
            && iso[..4] == Pad(YearFromDay(Day(t)), 4) && iso[5..7] == Pad(Month(Day(t)), 2)
            && iso[8..10] == Pad(DayOfMonth(Day(t)), 2) && iso[11..13] == Pad(Hours(t), 2)
            && iso[14..16] == Pad(Minutes(t), 2) && iso[17..19] == Pad(Seconds(t), 2)
            && iso[20..23] == Pad(Millis(t), 3)
  {
    hide YearFromDay, Month, DayOfMonth, Hours, Minutes, Seconds, Millis, Pad, Day;
  }
}
