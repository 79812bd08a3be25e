/**
  Reading ISO text back into an instant, as `new Date(text)` does for text of the form that
  `toISOString` prints (ECMA-262 section 21.4.1.32, "Date Time String Format").  The day may be any
  of 01 to 31 in any month, and an excess rolls over into the next month; 24:00 is the next day.
*/
module IsoDates {
  import opened Common
  import opened Numerals
  import opened Calendar

  datatype Parts = Parts(year: int, month: int, date: int, hour: int, minute: int, second: int, millis: int)

  function PartsOf(s: string): Parts
    requires |s| == 24
  {
    Parts(Digits(s[..4]), Digits(s[5..7]), Digits(s[8..10]),
          Digits(s[11..13]), Digits(s[14..16]), Digits(s[17..19]), Digits(s[20..23]))
  }

  /** The elements are within their bounds, each on its own. */
  predicate InBounds(p: Parts) {
    && 1 <= p.month <= 12 && 1 <= p.date <= 31
    && (0 <= p.hour <= 23 || (p.hour == 24 && p.minute == 0 && p.second == 0 && p.millis == 0))
    && 0 <= p.minute <= 59 && 0 <= p.second <= 59 && 0 <= p.millis <= 999
  }

  function TimeOf(p: Parts): Time
    requires 1 <= p.month <= 12
  {
    MakeDay(p.year, p.month, p.date) * MS_PER_DAY
    + p.hour * MS_PER_HOUR + p.minute * MS_PER_MINUTE + p.second * 1000 + p.millis
  }

  /** None is an invalid date. */
  function ParseIso(s: string): Option<Time>
    requires IsIsoDateTime(s)
  {
    if InBounds(PartsOf(s)) then Some(TimeOf(PartsOf(s))) else None
  }

  /** The text names a day that exists and a time of day before 24:00. */
  predicate IsRealDate(s: string)
    requires IsIsoDateTime(s)
  {
    var p := PartsOf(s);
    IsDate(p.year, p.month, p.date) && p.hour <= 23 && p.minute <= 59 && p.second <= 59
  }

  lemma LastDigit(d: int, v: int)
    requires 0 <= v <= 9
    ensures (10 * d + v) / 10 == d && (10 * d + v) % 10 == v
  {
  }

  lemma {:induction false} PadDigits(s: string)
    requires AllDigits(s)
    ensures 0 <= Digits(s) && Pad(Digits(s), |s|) == s
  {
    if s != "" {
      var init, last := s[..|s| - 1], s[|s| - 1];
      DigitsInit(s);
      hide AllDigits;
      PadDigits(init);
      LastDigit(Digits(init), DigitValue(last));
      assert Digits(s) == 10 * Digits(init) + DigitValue(last);
      hide Digits;
      assert Pad(Digits(s), |s|) == Pad(Digits(init), |init|) + [Digit(DigitValue(last))];
      assert Digit(DigitValue(last)) == last;
    }
  }

  lemma {:induction false} DigitsPad(n: nat, width: nat)
    requires n < Power10(width)
    ensures Digits(Pad(n, width)) == n
    decreases width
  {
    if width > 0 {
      DigitsPad(n / 10, width - 1);
      var s := Pad(n, width);
      assert s[..|s| - 1] == Pad(n / 10, width - 1) && s[|s| - 1] == Digit(n % 10);
      assert DigitValue(Digit(n % 10)) == n % 10;
    }
  }

  /** A day number and a time of day can be told apart again. */
  lemma SplitTime(day: int, hour: int, minute: int, second: int, millis: int)
    requires 0 <= hour < 24 && 0 <= minute < 60 && 0 <= second < 60 && 0 <= millis < 1000
    ensures var t := day * MS_PER_DAY + hour * MS_PER_HOUR + minute * MS_PER_MINUTE + second * 1000 + millis;
            Day(t) == day && Hours(t) == hour && Minutes(t) == minute && Seconds(t) == second && Millis(t) == millis
  {
    var t := day * MS_PER_DAY + hour * MS_PER_HOUR + minute * MS_PER_MINUTE + second * 1000 + millis;
    assert t / 1000 == day * 86_400 + hour * 3_600 + minute * 60 + second;
    assert t / MS_PER_MINUTE == day * 1_440 + hour * 60 + minute;
    assert t / MS_PER_HOUR == day * 24 + hour;
  }

  lemma Concat(s: string)
    requires IsIsoDateTime(s)
    ensures s == s[..4] + "-" + s[5..7] + "-" + s[8..10] + "T" + s[11..13] + ":" + s[14..16] + ":" + s[17..19]
                 + "." + s[20..23] + "Z"
  {
    hide AllDigits;
  }

  lemma PartsPrintBack(s: string)
    requires IsIsoDateTime(s)
    ensures var p := PartsOf(s);
            && p.year >= 0 && p.month >= 0 && p.date >= 0 && p.hour >= 0 && p.minute >= 0 && p.second >= 0
            && p.year <= 9999 && 0 <= p.millis <= 999
            && s == Pad(p.year, 4) + "-" + Pad(p.month, 2) + "-" + Pad(p.date, 2) + "T" + Pad(p.hour, 2) + ":"
                    + Pad(p.minute, 2) + ":" + Pad(p.second, 2) + "." + Pad(p.millis, 3) + "Z"
  {
    SmallPowers();
    Concat(s);
    hide Digits, Pad, Power10, AllDigits;
    DigitsBound(s[..4]);
    DigitsBound(s[20..23]);
    PadDigits(s[..4]);
    PadDigits(s[5..7]);
    PadDigits(s[8..10]);
    PadDigits(s[11..13]);
    PadDigits(s[14..16]);
    PadDigits(s[17..19]);
    PadDigits(s[20..23]);
  }

  lemma ComponentsOf(p: Parts)
    requires IsDate(p.year, p.month, p.date)
    requires 0 <= p.hour <= 23 && 0 <= p.minute <= 59 && 0 <= p.second <= 59 && 0 <= p.millis <= 999
    ensures var t := TimeOf(p);
            && YearFromDay(Day(t)) == p.year && Month(Day(t)) == p.month && DayOfMonth(Day(t)) == p.date
            && Hours(t) == p.hour && Minutes(t) == p.minute && Seconds(t) == p.second && Millis(t) == p.millis
  {
    hide Day, Hours, Minutes, Seconds, Millis, Month, DayOfMonth, YearFromDay, MakeDay;
    SplitTime(MakeDay(p.year, p.month, p.date), p.hour, p.minute, p.second, p.millis);
    CivilDateRoundTrip(MakeDay(p.year, p.month, p.date), p.year, p.month, p.date);
  }

  lemma RealIsInBounds(s: string)
    requires IsIsoDateTime(s) && IsRealDate(s)
    ensures InBounds(PartsOf(s))
  {
    PartsPrintBack(s);
    hide PartsOf, Pad, IsIsoDateTime;
  }

  lemma RealDatePrintsBack(s: string)
    requires IsIsoDateTime(s) && IsRealDate(s)
    ensures ParseIso(s).Some? && IsoString(ParseIso(s).value) == s
  {
    hide PartsOf, TimeOf, Pad, Day, Hours, Minutes, Seconds, Millis, Month, DayOfMonth, YearFromDay, IsIsoDateTime, InBounds,
         IsDate;
    PartsPrintBack(s);
    RealIsInBounds(s);
    ComponentsOf(PartsOf(s));
  }

  lemma PartsOfPrinted(t: Time)
    requires InIsoRange(t)
    ensures |IsoString(t)| == 24
    ensures PartsOf(IsoString(t)) == Parts(YearFromDay(Day(t)), Month(Day(t)), DayOfMonth(Day(t)),
                                           Hours(t), Minutes(t), Seconds(t), Millis(t))
  {
    IsoParts(t);
    SmallPowers();
    TimeOfDayBounds(t);
    hide Digits, Pad, Power10, Day, Hours, Minutes, Seconds, Millis, Month, DayOfMonth, YearFromDay, IsoString;
    DigitsPad(YearFromDay(Day(t)), 4);
    DigitsPad(Month(Day(t)), 2);
    DigitsPad(DayOfMonth(Day(t)), 2);
    DigitsPad(Hours(t), 2);
    DigitsPad(Minutes(t), 2);
    DigitsPad(Seconds(t), 2);
    DigitsPad(Millis(t), 3);
  }

  lemma TimeOfComponents(t: Time)
    ensures var d := Day(t);
            var p := Parts(YearFromDay(d), Month(d), DayOfMonth(d), Hours(t), Minutes(t), Seconds(t), Millis(t));
            InBounds(p) && IsDate(p.year, p.month, p.date) && TimeOf(p) == t
  {
    FromComponents(t);
    TimeOfDayBounds(t);
    var d := Day(t);
    hide Day, Hours, Minutes, Seconds, Millis, Month, DayOfMonth, YearFromDay, MakeDay;
    CivilDateRoundTrip(d, YearFromDay(d), Month(d), DayOfMonth(d));
  }

  /** Printing an instant with a four-digit year and reading it back yields the instant. */
  lemma ParsePrinted(t: Time)
    requires InIsoRange(t)
    ensures IsIsoDateTime(IsoString(t)) && IsRealDate(IsoString(t)) && ParseIso(IsoString(t)) == Some(t)
  {
    IsoStringShape(t);
    PartsOfPrinted(t);
    TimeOfComponents(t);
    TimeOfDayBounds(t);
    hide PartsOf, TimeOf, Day, Hours, Minutes, Seconds, Millis, Month, DayOfMonth, YearFromDay, IsoString, IsIsoDateTime,
         InBounds, IsDate;
  }

  lemma TimeOfDayBounds(t: Time)
    ensures Hours(t) <= 23 && Minutes(t) <= 59 && Seconds(t) <= 59 && Millis(t) <= 999
  {
  }

  lemma LongYear(t: Time)
    requires !InIsoRange(t)
    ensures |IsoString(t)| == 27
  {
    hide Pad, Month, DayOfMonth, Hours, Minutes, Seconds, Millis, Day, YearFromDay;
  }

  /** Exactly the texts that name a real day and time come back unchanged from an instant. */
  lemma RealDatesSurvive(s: string)
    requires IsIsoDateTime(s)
    ensures IsRealDate(s) <==> ParseIso(s).Some? && IsoString(ParseIso(s).value) == s
  {
    if IsRealDate(s) {
      RealDatePrintsBack(s);
    }
    if ParseIso(s).Some? && IsoString(ParseIso(s).value) == s {
      var t := ParseIso(s).value;
      if !InIsoRange(t) { LongYear(t); }
      ParsePrinted(t);
    }
  }

  const FEBRUARY_31 := "2024-02-31T00:00:00.000Z"
  const MARCH_2 := "2024-03-02T00:00:00.000Z"

  lemma MarchIsIso()
    ensures IsIsoDateTime(MARCH_2)
  {
  }

  lemma MarchParts()
    ensures |MARCH_2| == 24 && PartsOf(MARCH_2) == Parts(2024, 3, 2, 0, 0, 0, 0)
  {
    SomeDigits();
    hide Digits;
    assert MARCH_2[..4] == "2024" && MARCH_2[5..7] == "03" && MARCH_2[8..10] == "02" && MARCH_2[11..13] == "00"
        && MARCH_2[14..16] == "00" && MARCH_2[17..19] == "00" && MARCH_2[20..23] == "000";
  }

  lemma FebruaryIsIso()
    ensures IsIsoDateTime(FEBRUARY_31)
  {
  }

  lemma FebruaryParts()
    ensures |FEBRUARY_31| == 24 && PartsOf(FEBRUARY_31) == Parts(2024, 2, 31, 0, 0, 0, 0)
  {
    SomeDigits();
    hide Digits;
    assert FEBRUARY_31[..4] == "2024" && FEBRUARY_31[5..7] == "02" && FEBRUARY_31[8..10] == "31"
        && FEBRUARY_31[11..13] == "00" && FEBRUARY_31[14..16] == "00" && FEBRUARY_31[17..19] == "00"
        && FEBRUARY_31[20..23] == "000";
  }

  lemma TwoDigits(a: char, b: char)
    ensures Digits([a, b]) == 10 * DigitValue(a) + DigitValue(b)
  {
    assert [a, b][..1] == [a] && [a][..0] == "";
    assert Digits([a]) == DigitValue(a);
  }

  lemma SomeDigits()
    ensures Digits("00") == 0 && Digits("02") == 2 && Digits("03") == 3 && Digits("31") == 31
    ensures Digits("000") == 0 && Digits("2024") == 2024
  {
    TwoDigits('0', '0');
    TwoDigits('0', '2');
    TwoDigits('0', '3');
    TwoDigits('3', '1');
    TwoDigits('2', '0');
    assert "000"[..2] == "00" && "2024"[..3] == "202" && "202"[..2] == "20";
  }

  /** A date that does not exist rolls over: 31 February 2024 comes back as 2 March. */
  lemma FebruaryRollsOver()
    ensures IsIsoDateTime(FEBRUARY_31) && !IsRealDate(FEBRUARY_31)
    ensures ParseIso(FEBRUARY_31).Some? && IsoString(ParseIso(FEBRUARY_31).value) == MARCH_2
  {
    MarchIsIso();
    MarchParts();
    FebruaryIsIso();
    FebruaryParts();
    hide PartsOf, IsIsoDateTime, IsoString;
    assert ParseIso(FEBRUARY_31) == ParseIso(MARCH_2);
    RealDatePrintsBack(MARCH_2);
  }

  /** Printed years outside 0 to 9999 do not have the form of the archive; the others name real dates. */
  lemma PrintedDatesAreReal(t: Time)
    ensures IsIsoDateTime(IsoString(t)) ==> IsRealDate(IsoString(t))
  {
    if InIsoRange(t) {
      hide IsoString, IsIsoDateTime, IsRealDate, ParseIso;
      ParsePrinted(t);
    } else {
      PrintedLength(t);
    }
  }

  lemma PrintedLength(t: Time)
    requires !InIsoRange(t)
    ensures |IsoString(t)| == 27
  {
    hide Day, YearFromDay, Month, DayOfMonth, Hours, Minutes, Seconds, Millis, Pad;
  }
}
