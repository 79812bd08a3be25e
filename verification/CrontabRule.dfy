/**
  The day rule of the crontab utility (POSIX.1-2017, crontab, INPUT FILES) beside that of
  packages/automations/src/cron.ts.  The standard goes by which fields are an asterisk, and lets month
  and day of month together be the alternative to the day of the week; the code goes by which sets are
  full, and always asks for the month.  Fields in step notation, which the standard does not have,
  count as elements.
*/
module CrontabRule {
  import opened Common
  import opened Calendar
  import opened Cron
  import opened Numerals

  predicate PosixDay(fields: seq<string>, cron: ParsedCron, month: int, date: int, weekday: int)
    requires |fields| == 5
  {
    var named := month in cron.months && date in cron.daysOfMonth;
    if fields[4] == "*" then named
    else if fields[2] == "*" && fields[3] == "*" then weekday in cron.daysOfWeek
    else named || weekday in cron.daysOfWeek
  }

  /** When the standard runs an entry with these five fields, whose sets are those of `cron`. */
  predicate PosixMatches(fields: seq<string>, cron: ParsedCron, t: Time)
    requires |fields| == 5
  {
    && Minutes(t) in cron.minutes && Hours(t) in cron.hours
    && PosixDay(fields, cron, Month(Day(t)), DayOfMonth(Day(t)), WeekDay(Day(t)))
  }

  /** What can be read off the fields: when the two rules are one. */
  predicate FollowsPosix(fields: seq<string>, cron: ParsedCron)
    requires |fields| == 5
  {
    || fields[4] == "*"
    || (fields[2] == "*" && fields[3] == "*")
    || (cron.months == Range(1, 12) && (cron.daysOfMonth == Range(1, 31) <==> cron.daysOfWeek == Range(0, 6)))
  }

  lemma StarsAreFull(fields: seq<string>)
    requires CronOfFields(fields).Some?
    ensures var cron := CronOfFields(fields).value;
            && |fields| == 5 && ValidCron(cron)
            && (fields[2] == "*" ==> cron.daysOfMonth == Range(1, 31))
            && (fields[3] == "*" ==> cron.months == Range(1, 12))
            && (fields[4] == "*" ==> cron.daysOfWeek == Range(0, 6))
  {
    hide Range, PartsSet;
    FieldSetLegal(fields[0], 0, 59);
    FieldSetLegal(fields[1], 0, 23);
    FieldSetLegal(fields[2], 1, 31);
    FieldSetLegal(fields[3], 1, 12);
    FieldSetLegal(ReplaceSevens(fields[4]), 0, 6);
    assert ReplaceSevens("*") == "*" by { assert "*"[1..] == ""; }
  }

  /** An instant of a day at which the entry may run. */
  lemma AtSomeTime(cron: ParsedCron, day: int) returns (t: Time)
    requires ValidCron(cron)
    ensures Day(t) == day && Minutes(t) in cron.minutes && Hours(t) in cron.hours
  {
    hide Minutes, Hours, Day, Range, WholeMinute;
    var minute :| minute in cron.minutes;
    var hour :| hour in cron.hours;
    assert minute in Range(0, 59) && hour in Range(0, 23);
    t := day * MS_PER_DAY + hour * MS_PER_HOUR + minute * MS_PER_MINUTE;
    Assemble(day, hour, minute);
  }

  /** Some day of the first week of a month. */
  lemma WeekdayInMonth(month: int, weekday: int) returns (day: int)
    requires 1 <= month <= 12 && 0 <= weekday <= 6
    ensures Month(day) == month && WeekDay(day) == weekday
  {
    hide Month;
    var first := MakeDay(1970, month, 1);
    day := first + (weekday - WeekDay(first)) % 7;
    var k := (weekday - WeekDay(first)) / 7;
    Remainder(day + 4, 7, (first + 4) / 7 - k, weekday);
    CivilDateRoundTrip(day, 1970, month, day - first + 1);
  }

  lemma DateInJanuary(date: int) returns (day: int)
    requires 1 <= date <= 31
    ensures Month(day) == 1 && DayOfMonth(day) == date
  {
    hide Month, DayOfMonth;
    day := MakeDay(1970, 1, date);
    CivilDateRoundTrip(day, 1970, 1, date);
  }

  /** The day rule of the code, in terms of sets. */
  ghost predicate CodeDay(cron: ParsedCron, month: int, date: int, weekday: int) {
    var everyDate, everyWeekDay := cron.daysOfMonth == Range(1, 31), cron.daysOfWeek == Range(0, 6);
    && month in cron.months
    && ((everyDate && everyWeekDay) || (!everyDate && date in cron.daysOfMonth) || (!everyWeekDay && weekday in cron.daysOfWeek))
  }

  lemma DayRulesAgree(fields: seq<string>, cron: ParsedCron, month: int, date: int, weekday: int)
    requires |fields| == 5 && FollowsPosix(fields, cron)
    requires month in Range(1, 12) && date in Range(1, 31) && weekday in Range(0, 6)
    requires (fields[2] == "*" ==> cron.daysOfMonth == Range(1, 31)) && (fields[3] == "*" ==> cron.months == Range(1, 12))
    requires fields[4] == "*" ==> cron.daysOfWeek == Range(0, 6)
    ensures CodeDay(cron, month, date, weekday) <==> PosixDay(fields, cron, month, date, weekday)
  {
    hide Range;
  }

  lemma AgreesWhere(fields: seq<string>, t: Time)
    requires CronOfFields(fields).Some? && |fields| == 5
    requires FollowsPosix(fields, CronOfFields(fields).value)
    ensures MatchesCron(t, CronOfFields(fields).value) <==> PosixMatches(fields, CronOfFields(fields).value, t)
  {
    hide CronOfFields, MatchesCron, Minutes, Hours, Day, Month, DayOfMonth, WeekDay, Range, PosixDay, FollowsPosix, ValidCron;
    StarsAreFull(fields);
    var cron, day := CronOfFields(fields).value, Day(t);
    MatchIsBySets(t, cron);
    WeekDayInRange(day);
    DayRulesAgree(fields, cron, Month(day), DayOfMonth(day), WeekDay(day));
  }

  lemma DiffersElsewhere(fields: seq<string>) returns (t: Time)
    requires CronOfFields(fields).Some? && |fields| == 5
    requires !FollowsPosix(fields, CronOfFields(fields).value)
    ensures !MatchesCron(t, CronOfFields(fields).value) && PosixMatches(fields, CronOfFields(fields).value, t)
  {
    hide CronOfFields, MatchesCron, Minutes, Hours, Day, Month, DayOfMonth, WeekDay;
    var cron := CronOfFields(fields).value;
    StarsAreFull(fields);
    var day: int;
    if month :| 1 <= month <= 12 && month !in cron.months {
      var weekday :| weekday in cron.daysOfWeek;
      day := WeekdayInMonth(month, weekday);
    } else if date :| 1 <= date <= 31 && date !in cron.daysOfMonth {
      assert cron.months == Range(1, 12);
      day := DateInJanuary(date);
      assert WeekDay(day) in cron.daysOfWeek by { WeekDayInRange(day); }
    } else {
      assert cron.months == Range(1, 12) && cron.daysOfMonth == Range(1, 31);
      assert cron.daysOfWeek != Range(0, 6);
      var weekday :| 0 <= weekday <= 6 && weekday !in cron.daysOfWeek;
      day := WeekdayInMonth(1, weekday);
    }
    t := AtSomeTime(cron, day);
    MatchIsBySets(t, cron);
  }

  lemma WeekDayInRange(day: int)
    ensures WeekDay(day) in Range(0, 6)
  {
  }

  /** The code follows the standard at every instant exactly for the entries of that form. */
  lemma PosixExactly(fields: seq<string>)
    requires CronOfFields(fields).Some?
    ensures |fields| == 5
    ensures var cron := CronOfFields(fields).value;
            (forall t :: MatchesCron(t, cron) <==> PosixMatches(fields, cron, t)) <==> FollowsPosix(fields, cron)
  {
    hide MatchesCron, PosixMatches, FollowsPosix;
    StarsAreFull(fields);
    hide CronOfFields;
    if FollowsPosix(fields, CronOfFields(fields).value) {
      forall t
        ensures MatchesCron(t, CronOfFields(fields).value) <==> PosixMatches(fields, CronOfFields(fields).value, t)
      {
        AgreesWhere(fields, t);
      }
    } else {
      var t := DiffersElsewhere(fields);
    }
  }

  // ---------------------------------------------------------------- entries the two rules read differently

  lemma OneField(value: string, min: int, max: int)
    requires OneOrTwoDigits(value) && min <= NumberOf(value) <= max
    ensures FieldSet(value, min, max) == Some({NumberOf(value)})
  {
    var n := NumberOf(value);
    DigitsHoldNone(value, ',');
    DigitsHoldNone(value, '/');
    DigitsHoldNone(value, '-');
    hide OneOrTwoDigits, NumberOf, IndexOf;
    assert Split(value, ',') == [value];
    assert ClassifyPart(value, min, max) == Some(Part(n, n, 1));
    assert [value][..0] == [];
    assert PartSet(Part(n, n, 1)) == {n};
    assert {} + {n} == {n};
    StarIsNoNumber();
    assert PartsSet([], min, max) == Some({});
    hide ClassifyPart, PartSet, Split;
    assert PartsSet([value], min, max) == Some({} + PartSet(Part(n, n, 1)));
  }

  lemma StarIsNoNumber()
    ensures !OneOrTwoDigits("*")
  {
    assert '*' in "*";
  }

  lemma DigitsHoldNone(value: string, c: char)
    requires OneOrTwoDigits(value) && !IsDigit(c)
    ensures IndexOf(value, c) == |value|
  {
    forall j | 0 <= j < |value|
      ensures value[j] != c
    {
      assert value[j] in value;
    }
  }

  lemma AllDatesWritten()
    ensures FieldSet("1-31", 1, 31) == Some(Range(1, 31))
  {
    AllDatesText();
    hide ClassifyPart, Split, Range;
    var p := Part(1, 31, 1);
    assert ["1-31"][..0] == [];
    assert PartSet(p) == Range(1, 31);
    assert {} + Range(1, 31) == Range(1, 31);
  }

  lemma AllDatesText()
    ensures Split("1-31", ',') == ["1-31"] && ClassifyPart("1-31", 1, 31) == Some(Part(1, 31, 1)) && "1-31" != "*"
  {
    assert IndexOf("1-31", ',') == 4 && IndexOf("1-31", '/') == 4 && IndexOf("1-31", '-') == 1;
    assert "1-31"[..1] == "1" && "1-31"[2..] == "31";
  }

  lemma SmallNumbers()
    ensures OneOrTwoDigits("0") && NumberOf("0") == 0 && OneOrTwoDigits("1") && NumberOf("1") == 1
    ensures ReplaceSevens("1") == "1"
  {
    assert "1"[1..] == "";
  }

  /** The first instant of 1970, a Thursday in January. */
  lemma TheFirstThursday()
    ensures Minutes(0) == 0 && Hours(0) == 0 && Month(Day(0)) == 1 && DayOfMonth(Day(0)) == 1 && WeekDay(Day(0)) == 4
  {
    hide Month, DayOfMonth, YearFromDay;
    EpochDay();
    CivilDateRoundTrip(0, 1970, 1, 1);
  }

  lemma EpochDay()
    ensures MakeDay(1970, 1, 1) == 0 && IsDate(1970, 1, 1)
  {
  }

  /** On days 1-31 or Mondays: every day for the standard, Mondays alone for the code. */
  lemma WrittenOutDatesDiffer()
    ensures var fields := ["0", "0", "1-31", "*", "1"]; var cron := CronOfFields(fields);
            cron.Some? && PosixMatches(fields, cron.value, 0) && !MatchesCron(0, cron.value)
  {
    hide FieldSet, NumberOf, OneOrTwoDigits, Range, Minutes, Hours, Day, Month, DayOfMonth, WeekDay, ReplaceSevens, MatchesCron;
    SmallNumbers();
    OneField("0", 0, 59);
    OneField("0", 0, 23);
    OneField("1", 0, 6);
    AllDatesWritten();
    StarField(1, 12);
    TheFirstThursday();
    var fields := ["0", "0", "1-31", "*", "1"];
    var cron := CronOfFields(fields).value;
    assert cron == ParsedCron({0}, {0}, Range(1, 31), Range(1, 12), {1});
    StarsAreFull(fields);
    MatchIsBySets(0, cron);
    MondayIsNotAll();
  }

  lemma StarField(min: int, max: int)
    ensures FieldSet("*", min, max) == Some(Range(min, max))
  {
  }

  lemma MondayIsNotAll()
    ensures {1} != Range(0, 6)
  {
    assert 0 in Range(0, 6);
  }

  /** In January or on Mondays: all of January for the standard, the Mondays of January for the code. */
  lemma MonthWithWeekdayDiffers()
    ensures var fields := ["0", "0", "*", "1", "1"]; var cron := CronOfFields(fields);
            cron.Some? && PosixMatches(fields, cron.value, 0) && !MatchesCron(0, cron.value)
  {
    hide FieldSet, NumberOf, OneOrTwoDigits, Range, Minutes, Hours, Day, Month, DayOfMonth, WeekDay, ReplaceSevens, MatchesCron;
    SmallNumbers();
    OneField("0", 0, 59);
    OneField("0", 0, 23);
    OneField("1", 1, 12);
    OneField("1", 0, 6);
    StarField(1, 31);
    TheFirstThursday();
    var fields := ["0", "0", "*", "1", "1"];
    var cron := CronOfFields(fields).value;
    assert cron == ParsedCron({0}, {0}, Range(1, 31), {1}, {1});
    StarsAreFull(fields);
    MatchIsBySets(0, cron);
    MondayIsNotAll();
  }
}
