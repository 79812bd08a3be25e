/**
  Five-field cron expressions in UTC (packages/automations/src/cron.ts): the field parser, the
  match rule, and the bounded search for the next occurrence, with the guarantees the scheduler
  builds on: the search returns the least matching minute, it fails exactly when the next 11520
  minutes hold none, and re-seeding after failures loses no slot.
*/
module Cron {
  import opened Common
  import opened Calendar
  import opened Numerals

  datatype ParsedCron = ParsedCron(
    minutes: set<int>,
    hours: set<int>,
    daysOfMonth: set<int>,
    months: set<int>,
    daysOfWeek: set<int>)

  const MAX_LOOKAHEAD_MINUTES := 8 * 24 * 60

  function Range(lo: int, hi: int): (r: set<int>)
    ensures forall v :: v in r <==> lo <= v <= hi
    decreases hi - lo
  {
    if hi < lo then {} else Range(lo, hi - 1) + {hi}
  }

  // ---------------------------------------------------------------- field text

  /** The text `\d{1,2}` matches. */
  predicate OneOrTwoDigits(s: string) {
    1 <= |s| <= 2 && forall c | c in s :: IsDigit(c)
  }

  function NumberOf(s: string): nat
    requires OneOrTwoDigits(s)
  {
    assert s[0] in s && s[|s| - 1] in s;
    if |s| == 1 then DigitValue(s[0]) else 10 * DigitValue(s[0]) + DigitValue(s[1])
  }

  /** Position of the first `c`, or the length. */
  function IndexOf(s: string, c: char): (i: nat)
    ensures i <= |s|
    ensures i < |s| ==> s[i] == c
    ensures forall j | 0 <= j < i :: s[j] != c
  {
    if s == "" || s[0] == c then 0 else 1 + IndexOf(s[1..], c)
  }

  function Split(s: string, c: char): (parts: seq<string>)
    ensures |parts| > 0
    decreases |s|
  {
    var i := IndexOf(s, c);
    if i == |s| then [s] else [s[..i]] + Split(s[i + 1..], c)
  }

  /** A list element: every `step`-th value from `start` to `end`. */
  datatype Part = Part(start: int, end: int, step: int)

  /** A part as it is written; an open part runs to the end of the field's range. */
  datatype Reading =
    | Every(step: nat)
    | OpenFrom(start: nat, step: nat)
    | Closed(start: nat, end: nat, step: nat)

  /** The three regular expressions tried in turn. */
  function ReadPart(part: string): Option<Reading> {
    var slash := IndexOf(part, '/');
    if slash < |part| then
      var base, step := part[..slash], part[slash + 1..];
      if !OneOrTwoDigits(step) then None
      else if base == "*" then Some(Every(NumberOf(step)))
      else
        var dash := IndexOf(base, '-');
        if dash == |base| then
          if OneOrTwoDigits(base) then Some(OpenFrom(NumberOf(base), NumberOf(step))) else None
        else if OneOrTwoDigits(base[..dash]) && OneOrTwoDigits(base[dash + 1..]) then
          Some(Closed(NumberOf(base[..dash]), NumberOf(base[dash + 1..]), NumberOf(step)))
        else None
    else
      var dash := IndexOf(part, '-');
      if dash == |part| then
        if OneOrTwoDigits(part) then Some(Closed(NumberOf(part), NumberOf(part), 1)) else None
      else if OneOrTwoDigits(part[..dash]) && OneOrTwoDigits(part[dash + 1..]) then
        Some(Closed(NumberOf(part[..dash]), NumberOf(part[dash + 1..]), 1))
      else None
  }

  function PartOf(r: Reading, min: int, max: int): Part {
    match r
    case Every(step) => Part(min, max, step)
    case OpenFrom(start, step) => Part(start, max, step)
    case Closed(start, end, step) => Part(start, end, step)
  }

  function ClassifyPart(part: string, min: int, max: int): Option<Part> {
    match ReadPart(part)
    case Some(r) => Some(PartOf(r, min, max))
    case None => None
  }

  predicate LegalPart(p: Part, min: int, max: int) {
    min <= p.start <= p.end <= max && p.step >= 1
  }

  function PartSet(p: Part): set<int>
    requires p.step >= 1
  {
    set v | v in Range(p.start, p.end) && (v - p.start) % p.step == 0
  }

  /** What a field denotes: the union of its parts, or nothing when any part is illegal. */
  function PartsSet(parts: seq<string>, min: int, max: int): Option<set<int>> {
    if parts == [] then Some({})
    else
      match ClassifyPart(parts[|parts| - 1], min, max)
      case None => None
      case Some(p) =>
        if !LegalPart(p, min, max) then None
        else
          match PartsSet(parts[..|parts| - 1], min, max)
          case None => None
          case Some(rest) => Some(rest + PartSet(p))
  }

  function FieldSet(field: string, min: int, max: int): Option<set<int>> {
    if field == "*" then Some(Range(min, max)) else PartsSet(Split(field, ','), min, max)
  }

  /** `parseList`, filling the set value by value. */
  method ParseList(field: string, min: int, max: int) returns (r: Option<set<int>>)
    requires min <= max
    ensures r == FieldSet(field, min, max)
  {
    hide ClassifyPart, PartSet, OneOrTwoDigits, NumberOf;
    if field == "*" {
      var all: set<int> := {};
      var value := min;
      while value <= max
        invariant min <= value <= max + 1
        invariant all == Range(min, value - 1)
      {
        all := all + {value};
        value := value + 1;
      }
      return Some(all);
    }
    var parts := Split(field, ',');
    var values: set<int> := {};
    var i := 0;
    while i < |parts|
      invariant 0 <= i <= |parts|
      invariant PartsSet(parts[..i], min, max) == Some(values)
    {
      assert parts[..i + 1][..i] == parts[..i];
      var c := ClassifyPart(parts[i], min, max);
      if c.None? || !LegalPart(c.value, min, max) {
        IllegalPart(parts, i + 1, min, max);
        return None;
      }
      values := AddPart(values, c.value);
      i := i + 1;
    }
    assert parts[..|parts|] == parts;
    PartsNonEmpty(parts, min, max);
    if values == {} {
      return None;
    }
    return Some(values);
  }

  method AddPart(values: set<int>, p: Part) returns (r: set<int>)
    requires p.step >= 1 && p.start <= p.end
    ensures r == values + PartSet(p)
  {
    r := values;
    var value := p.start;
    ghost var k := 0;
    ghost var done: set<int> := {};
    while value <= p.end
      invariant value == p.start + k * p.step && 0 <= k
      invariant r == values + done
      invariant done <= PartSet(p)
      invariant forall v | v in PartSet(p) :: v < value ==> v in done
      decreases p.end - value
    {
      NextInPart(p, value, k);
      r := r + {value};
      done := done + {value};
      value := value + p.step;
      k := k + 1;
    }
    assert done == PartSet(p);
  }

  /** The loop visits members of the part, and skips none. */
  lemma NextInPart(p: Part, value: int, k: int)
    requires p.step >= 1 && p.start <= value <= p.end && value == p.start + k * p.step
    ensures value in PartSet(p)
    ensures forall v | v in PartSet(p) :: v < value + p.step ==> v <= value
    ensures value + p.step == p.start + (k + 1) * p.step
  {
    Multiple(value - p.start, p.step, k);
    forall v | v in PartSet(p) && value < v < value + p.step
      ensures false
    {
      Remainder(v - p.start, p.step, k, v - value);
    }
  }

  lemma {:induction false} IllegalPart(parts: seq<string>, n: nat, min: int, max: int)
    requires 0 < n <= |parts| && PartsSet(parts[..n], min, max).None?
    ensures PartsSet(parts, min, max).None?
    decreases |parts|
  {
    if n < |parts| {
      assert parts[..|parts| - 1][..n] == parts[..n];
      IllegalPart(parts[..|parts| - 1], n, min, max);
    } else {
      assert parts[..n] == parts;
    }
  }

  lemma PartsNonEmpty(parts: seq<string>, min: int, max: int)
    requires |parts| > 0 && PartsSet(parts, min, max).Some?
    ensures PartsSet(parts, min, max).value != {}
  {
    var p := ClassifyPart(parts[|parts| - 1], min, max).value;
    assert (p.start - p.start) % p.step == 0;
    assert p.start in PartSet(p);
  }

  /** A parsed field is a nonempty set of values of its range. */
  lemma {:induction false} FieldInRange(parts: seq<string>, min: int, max: int)
    requires PartsSet(parts, min, max).Some?
    ensures PartsSet(parts, min, max).value <= Range(min, max)
    decreases |parts|
  {
    if parts != [] {
      FieldInRange(parts[..|parts| - 1], min, max);
    }
  }

  function ReplaceSevens(s: string): string {
    if s == "" then "" else [if s[0] == '7' then '0' else s[0]] + ReplaceSevens(s[1..])
  }

  predicate ValidCron(cron: ParsedCron) {
    && {} < cron.minutes <= Range(0, 59)
    && {} < cron.hours <= Range(0, 23)
    && {} < cron.daysOfMonth <= Range(1, 31)
    && {} < cron.months <= Range(1, 12)
    && {} < cron.daysOfWeek <= Range(0, 6)
  }

  /** The five fields of an expression, or None when one of them is not legal. */
  function CronOfFields(fields: seq<string>): Option<ParsedCron> {
    if |fields| != 5 then None
    else
      var minutes, hours, doms, months, dows :=
        FieldSet(fields[0], 0, 59), FieldSet(fields[1], 0, 23), FieldSet(fields[2], 1, 31),
        FieldSet(fields[3], 1, 12), FieldSet(ReplaceSevens(fields[4]), 0, 6);
      if minutes.Some? && hours.Some? && doms.Some? && months.Some? && dows.Some?
      then Some(ParsedCron(minutes.value, hours.value, doms.value, months.value, dows.value))
      else None
  }

  method ParseFields(fields: seq<string>) returns (r: Option<ParsedCron>)
    ensures r == CronOfFields(fields)
    ensures r.Some? ==> ValidCron(r.value)
  {
    hide FieldSet, Range;
    if |fields| != 5 { return None; }
    var minutes := ParseList(fields[0], 0, 59);
    if minutes.None? { return None; }
    var hours := ParseList(fields[1], 0, 23);
    if hours.None? { return None; }
    var doms := ParseList(fields[2], 1, 31);
    if doms.None? { return None; }
    var months := ParseList(fields[3], 1, 12);
    if months.None? { return None; }
    var dows := ParseList(ReplaceSevens(fields[4]), 0, 6);
    if dows.None? { return None; }
    FieldSetLegal(fields[0], 0, 59);
    FieldSetLegal(fields[1], 0, 23);
    FieldSetLegal(fields[2], 1, 31);
    FieldSetLegal(fields[3], 1, 12);
    FieldSetLegal(ReplaceSevens(fields[4]), 0, 6);
    return Some(ParsedCron(minutes.value, hours.value, doms.value, months.value, dows.value));
  }

  // ---------------------------------------------------------------- expression text

  function TrimStart(s: string): string {
    if s != "" && IsSpace(s[0]) then TrimStart(s[1..]) else s
  }

  function TrimEnd(s: string): string {
    if s != "" && IsSpace(s[|s| - 1]) then TrimEnd(s[..|s| - 1]) else s
  }

  function Trim(s: string): string { TrimEnd(TrimStart(s)) }

  /** `/[a-z@#]/iu`: letters, the two characters that fold to one, and the macro signs. */
  predicate IsNameOrMacro(c: char) {
    'a' <= c <= 'z' || 'A' <= c <= 'Z' || c as int == 0x17F || c as int == 0x212A || c == '@' || c == '#'
  }

  predicate HasNameOrMacro(s: string) { exists i | 0 <= i < |s| :: IsNameOrMacro(s[i]) }

  function LeadingWord(s: string): (w: string)
    ensures |w| <= |s| && (s != "" && !IsSpace(s[0]) ==> w != "")
  {
    if s == "" || IsSpace(s[0]) then "" else [s[0]] + LeadingWord(s[1..])
  }

  /** The maximal runs of characters that are not space. */
  function Words(s: string): seq<string> {
    if s == "" then []
    else if IsSpace(s[0]) then Words(s[1..])
    else [LeadingWord(s)] + Words(s[|LeadingWord(s)|..])
  }

  method SplitWords(s: string) returns (words: seq<string>)
    ensures words == Words(s)
  {
    words := [];
    var i := 0;
    while i < |s|
      invariant 0 <= i <= |s|
      invariant Words(s) == words + Words(s[i..])
    {
      if IsSpace(s[i]) {
        assert s[i..][1..] == s[i + 1..];
        i := i + 1;
      } else {
        var end := WordEnd(s, i);
        assert s[i..][|LeadingWord(s[i..])|..] == s[end..];
        assert Words(s[i..]) == [s[i..end]] + Words(s[end..]);
        words, i := words + [s[i..end]], end;
      }
    }
    assert s[i..] == "";
  }

  lemma LeadingWordFrom(s: string, i: nat)
    requires i <= |s|
    ensures LeadingWord(s[i..]) == if i == |s| || IsSpace(s[i]) then "" else [s[i]] + LeadingWord(s[i + 1..])
  {
    hide IsSpace;
    if i < |s| { assert s[i..][1..] == s[i + 1..]; }
  }

  method WordEnd(s: string, i: nat) returns (end: nat)
    requires i < |s| && !IsSpace(s[i])
    ensures i < end <= |s| && s[i..end] == LeadingWord(s[i..]) && end == i + |LeadingWord(s[i..])|
  {
    hide IsSpace, LeadingWord;
    end := i;
    while end < |s| && !IsSpace(s[end])
      invariant i <= end <= |s|
      invariant LeadingWord(s[i..]) == s[i..end] + LeadingWord(s[end..])
    {
      LeadingWordFrom(s, end);
      assert s[i..end] + [s[end]] == s[i..end + 1];
      end := end + 1;
    }
    LeadingWordFrom(s, end);
  }

  function CronOf(expression: string): Option<ParsedCron> {
    var trimmed := Trim(expression);
    if |trimmed| == 0 || Utf16Length(trimmed) > 64 || HasNameOrMacro(trimmed) then None else CronOfFields(Words(trimmed))
  }

  method ParseFiveFieldCron(expression: string) returns (r: Option<ParsedCron>)
    ensures r == CronOf(expression)
    ensures r.Some? ==> ValidCron(r.value)
  {
    hide CronOfFields;
    var trimmed := Trim(expression);
    if |trimmed| == 0 || Utf16Length(trimmed) > 64 || HasNameOrMacro(trimmed) { return None; }
    var fields := SplitWords(trimmed);
    r := ParseFields(fields);
  }

  /** A field as it may be written: not empty and without space. */
  predicate IsWord(w: string) { w != "" && forall i | 0 <= i < |w| :: !IsSpace(w[i]) }

  /** Fields written with some space after each. */
  function Written(fields: seq<string>, gaps: seq<string>): string
    requires |gaps| == |fields|
  {
    if fields == [] then "" else fields[0] + gaps[0] + Written(fields[1..], gaps[1..])
  }

  predicate IsGap(gap: string) { gap != "" && forall i | 0 <= i < |gap| :: IsSpace(gap[i]) }

  lemma {:induction false} LeadingWordIs(w: string, rest: string)
    requires (forall i | 0 <= i < |w| :: !IsSpace(w[i])) && (rest != "" ==> IsSpace(rest[0]))
    ensures LeadingWord(w + rest) == w
  {
    if w == "" {
      assert w + rest == rest;
    } else {
      assert (w + rest)[1..] == w[1..] + rest;
      LeadingWordIs(w[1..], rest);
    }
  }

  lemma {:induction false} GapSkipped(gap: string, rest: string)
    requires forall i | 0 <= i < |gap| :: IsSpace(gap[i])
    ensures Words(gap + rest) == Words(rest)
  {
    if gap == "" {
      assert gap + rest == rest;
    } else {
      assert (gap + rest)[1..] == gap[1..] + rest;
      GapSkipped(gap[1..], rest);
    }
  }

  /** However much space of whatever kind separates the fields, they are read as written. */
  lemma {:induction false} WordsOfWritten(fields: seq<string>, gaps: seq<string>)
    requires |gaps| == |fields| && (forall i | 0 <= i < |fields| :: IsWord(fields[i]) && IsGap(gaps[i]))
    ensures Words(Written(fields, gaps)) == fields
  {
    if fields != [] {
      var w, gap, rest := fields[0], gaps[0], Written(fields[1..], gaps[1..]);
      WordsOfWritten(fields[1..], gaps[1..]);
      assert IsWord(w) && IsGap(gap);
      var text := w + (gap + rest);
      assert Written(fields, gaps) == text;
      LeadingWordIs(w, gap + rest);
      GapSkipped(gap, rest);
      assert text[|w|..] == gap + rest;
      assert fields == [w] + fields[1..];
    }
  }

  lemma {:induction false} LeadingWordThenSpace(s: string, c: char)
    requires IsSpace(c)
    ensures LeadingWord(s + [c]) == LeadingWord(s)
  {
    hide IsSpace;
    if s == "" {
      assert s + [c] == [c];
    } else {
      assert (s + [c])[1..] == s[1..] + [c];
      LeadingWordThenSpace(s[1..], c);
    }
  }

  lemma {:induction false} SpaceAtTheEnd(s: string, c: char)
    requires IsSpace(c)
    ensures Words(s + [c]) == Words(s)
    decreases |s|
  {
    hide IsSpace, LeadingWord;
    if s == "" {
      assert s + [c] == [c] && [c][1..] == "";
    } else if IsSpace(s[0]) {
      assert (s + [c])[1..] == s[1..] + [c];
      SpaceAtTheEnd(s[1..], c);
    } else {
      LeadingWordThenSpace(s, c);
      var w := LeadingWord(s);
      assert (s + [c])[|w|..] == s[|w|..] + [c];
      SpaceAtTheEnd(s[|w|..], c);
    }
  }

  lemma {:induction false} TrimStartMeaning(s: string)
    ensures exists k :: 0 <= k <= |s| && TrimStart(s) == s[k..]
    ensures TrimStart(s) != "" ==> !IsSpace(TrimStart(s)[0])
  {
    hide IsSpace;
    if s != "" && IsSpace(s[0]) {
      TrimStartMeaning(s[1..]);
      var k :| 0 <= k <= |s[1..]| && TrimStart(s[1..]) == s[1..][k..];
      assert s[1..][k..] == s[k + 1..];
    } else {
      assert s == s[0..];
    }
  }

  lemma {:induction false} TrimEndMeaning(s: string)
    ensures TrimEnd(s) <= s
    ensures TrimEnd(s) != "" ==> !IsSpace(TrimEnd(s)[|TrimEnd(s)| - 1])
  {
    hide IsSpace;
    if s != "" && IsSpace(s[|s| - 1]) { TrimEndMeaning(s[..|s| - 1]); }
  }

  /** Trimming twice is trimming once, and no text gets longer by it. */
  lemma TrimIsFinal(s: string)
    ensures Trim(Trim(s)) == Trim(s) && Utf16Length(Trim(s)) <= Utf16Length(s)
  {
    hide IsSpace;
    var front, both := TrimStart(s), Trim(s);
    TrimStartMeaning(s);
    TrimEndMeaning(front);
    assert TrimStart(both) == both;
    var k :| 0 <= k <= |s| && front == s[k..];
    Utf16LengthOfParts(s, k);
    Utf16LengthOfParts(front, |both|);
    assert both == front[..|both|];
    assert TrimEnd(both) == both;
  }

  lemma {:induction false} TrimStartKeepsWords(s: string)
    ensures Words(TrimStart(s)) == Words(s)
  {
    hide IsSpace;
    if s != "" && IsSpace(s[0]) { TrimStartKeepsWords(s[1..]); }
  }

  lemma {:induction false} TrimEndKeepsWords(s: string)
    ensures Words(TrimEnd(s)) == Words(s)
    decreases |s|
  {
    hide IsSpace, Words;
    if s != "" && IsSpace(s[|s| - 1]) {
      TrimEndKeepsWords(s[..|s| - 1]);
      SpaceAtTheEnd(s[..|s| - 1], s[|s| - 1]);
      assert s == s[..|s| - 1] + [s[|s| - 1]];
    }
  }

  /** An expression of permitted length and characters means its five fields, whatever space is around them. */
  lemma SpacingIsIrrelevant(before: string, fields: seq<string>, gaps: seq<string>)
    requires |gaps| == |fields| && (forall i | 0 <= i < |fields| :: IsWord(fields[i]) && IsGap(gaps[i]))
    requires forall i | 0 <= i < |before| :: IsSpace(before[i])
    requires var trimmed := Trim(before + Written(fields, gaps)); 0 < |trimmed| && Utf16Length(trimmed) <= 64 && !HasNameOrMacro(trimmed)
    ensures CronOf(before + Written(fields, gaps)) == CronOfFields(fields)
  {
    hide IsSpace, CronOfFields, Words, Written, HasNameOrMacro, TrimStart, TrimEnd;
    var text := before + Written(fields, gaps);
    TrimStartKeepsWords(text);
    TrimEndKeepsWords(TrimStart(text));
    GapSkipped(before, Written(fields, gaps));
    WordsOfWritten(fields, gaps);
  }

  lemma FieldSetLegal(field: string, min: int, max: int)
    requires min <= max && FieldSet(field, min, max).Some?
    ensures {} < FieldSet(field, min, max).value <= Range(min, max)
  {
    if field == "*" {
      assert min in Range(min, max);
    } else {
      var parts := Split(field, ',');
      FieldInRange(parts, min, max);
      PartsNonEmpty(parts, min, max);
    }
  }

  // ---------------------------------------------------------------- matching

  predicate MatchesCron(t: Time, cron: ParsedCron) {
    var day := Day(t);
    if Minutes(t) !in cron.minutes || Hours(t) !in cron.hours || Month(day) !in cron.months then false
    else
      var domRestricted := |cron.daysOfMonth| != 31;
      var dowRestricted := |cron.daysOfWeek| != 7;
      if domRestricted && dowRestricted then
        DayOfMonth(day) in cron.daysOfMonth || WeekDay(day) in cron.daysOfWeek
      else if domRestricted then DayOfMonth(day) in cron.daysOfMonth
      else if dowRestricted then WeekDay(day) in cron.daysOfWeek
      else true
  }

  /**
    The rule in terms of sets: minute, hour and month must match, and of the two day fields those that
    leave some day out are alternatives.
  */
  ghost predicate MatchesBySets(t: Time, cron: ParsedCron) {
    var everyDate := cron.daysOfMonth == Range(1, 31);
    var everyWeekDay := cron.daysOfWeek == Range(0, 6);
    && Minutes(t) in cron.minutes
    && Hours(t) in cron.hours
    && Month(Day(t)) in cron.months
    && ((everyDate && everyWeekDay)
        || (!everyDate && DayOfMonth(Day(t)) in cron.daysOfMonth)
        || (!everyWeekDay && WeekDay(Day(t)) in cron.daysOfWeek))
  }

  lemma {:induction false} RangeSize(lo: int, hi: int)
    requires lo <= hi + 1
    ensures |Range(lo, hi)| == hi - lo + 1
    decreases hi - lo
  {
    if lo <= hi {
      RangeSize(lo, hi - 1);
    }
  }

  lemma FullBySize(s: set<int>, lo: int, hi: int)
    requires lo <= hi && s <= Range(lo, hi)
    ensures |s| == hi - lo + 1 <==> s == Range(lo, hi)
  {
    RangeSize(lo, hi);
    var rest := Range(lo, hi) - s;
    assert Range(lo, hi) == s + rest;
    assert |Range(lo, hi)| == |s| + |rest|;
  }

  /** The size tests in the code tell exactly which day fields leave some day out. */
  lemma MatchIsBySets(t: Time, cron: ParsedCron)
    requires ValidCron(cron)
    ensures MatchesCron(t, cron) <==> MatchesBySets(t, cron)
  {
    hide Minutes, Hours, Day, Month, DayOfMonth, WeekDay, Range;
    FullBySize(cron.daysOfMonth, 1, 31);
    FullBySize(cron.daysOfWeek, 0, 6);
  }

  // ---------------------------------------------------------------- the search

  predicate WholeMinute(t: Time) { t % MS_PER_MINUTE == 0 }

  /** The last minute the search looks at. */
  function Horizon(from: Time): Time {
    from / MS_PER_MINUTE * MS_PER_MINUTE + MAX_LOOKAHEAD_MINUTES * MS_PER_MINUTE
  }

  /** `t` is the least whole minute after `from` that matches. */
  ghost predicate IsNextMatch(from: Time, cron: ParsedCron, t: Time) {
    && from < t && WholeMinute(t) && MatchesCron(t, cron)
    && forall u | from < u < t && WholeMinute(u) :: !MatchesCron(u, cron)
  }

  ghost predicate NoMatchUpTo(from: Time, cron: ParsedCron, last: Time) {
    forall u | from < u <= last && WholeMinute(u) :: !MatchesCron(u, cron)
  }

  ghost predicate SearchResult(from: Time, cron: ParsedCron, r: Option<Time>) {
    match r
    case Some(t) => IsNextMatch(from, cron, t) && t <= Horizon(from)
    case None => NoMatchUpTo(from, cron, Horizon(from))
  }

  method NextCronOccurrenceUtc(from: Time, cron: ParsedCron) returns (r: Option<Time>)
    ensures SearchResult(from, cron, r)
  {
    hide MatchesCron, SetMinutes;
    var cursor := from / MS_PER_MINUTE * MS_PER_MINUTE + MS_PER_MINUTE;
    var index := 0;
    while index < MAX_LOOKAHEAD_MINUTES
      invariant 0 <= index <= MAX_LOOKAHEAD_MINUTES
      invariant cursor == from / MS_PER_MINUTE * MS_PER_MINUTE + MS_PER_MINUTE + index * MS_PER_MINUTE
      invariant forall u | from < u < cursor && WholeMinute(u) :: !MatchesCron(u, cron)
    {
      if MatchesCron(cursor, cron) {
        return Some(cursor);
      }
      NextMinute(cursor);
      cursor := SetMinutes(cursor, Minutes(cursor) + 1);
      index := index + 1;
    }
    return None;
  }

  /** The specification leaves no choice: at most one result satisfies it. */
  lemma SearchIsDeterministic(from: Time, cron: ParsedCron, a: Option<Time>, b: Option<Time>)
    requires SearchResult(from, cron, a) && SearchResult(from, cron, b)
    ensures a == b
  {
  }

  /** The first of `n` minutes from `cursor` on that matches. */
  function FirstMatch(cursor: Time, n: nat, cron: ParsedCron): Option<Time>
    decreases n
  {
    if n == 0 then None
    else if MatchesCron(cursor, cron) then Some(cursor)
    else FirstMatch(cursor + MS_PER_MINUTE, n - 1, cron)
  }

  /** The search as a function. */
  function NextOccurrence(from: Time, cron: ParsedCron): Option<Time> {
    FirstMatch(from / MS_PER_MINUTE * MS_PER_MINUTE + MS_PER_MINUTE, MAX_LOOKAHEAD_MINUTES, cron)
  }

  lemma {:induction false} FirstMatchIsFirst(cursor: Time, n: nat, cron: ParsedCron)
    requires WholeMinute(cursor)
    ensures match FirstMatch(cursor, n, cron)
            case Some(t) => cursor <= t < cursor + n * MS_PER_MINUTE && WholeMinute(t) && MatchesCron(t, cron)
                            && forall u | cursor <= u < t && WholeMinute(u) :: !MatchesCron(u, cron)
            case None => forall u | cursor <= u < cursor + n * MS_PER_MINUTE && WholeMinute(u) :: !MatchesCron(u, cron)
    decreases n
  {
    hide MatchesCron;
    if n > 0 && !MatchesCron(cursor, cron) {
      FirstMatchIsFirst(cursor + MS_PER_MINUTE, n - 1, cron);
    }
  }

  lemma NextOccurrenceIsTheResult(from: Time, cron: ParsedCron)
    ensures SearchResult(from, cron, NextOccurrence(from, cron))
  {
    hide MatchesCron, FirstMatch;
    FirstMatchIsFirst(from / MS_PER_MINUTE * MS_PER_MINUTE + MS_PER_MINUTE, MAX_LOOKAHEAD_MINUTES, cron);
  }

  /** Time of day and day number of an instant put together from its parts. */
  lemma Assemble(day: int, hour: int, minute: int)
    requires 0 <= hour <= 23 && 0 <= minute <= 59
    ensures var t := day * MS_PER_DAY + hour * MS_PER_HOUR + minute * MS_PER_MINUTE;
            Day(t) == day && Hours(t) == hour && Minutes(t) == minute && WholeMinute(t)
  {
    var t := day * MS_PER_DAY + hour * MS_PER_HOUR + minute * MS_PER_MINUTE;
    Remainder(t, MS_PER_DAY, day, hour * MS_PER_HOUR + minute * MS_PER_MINUTE);
    Remainder(t, MS_PER_HOUR, 24 * day + hour, minute * MS_PER_MINUTE);
    Remainder(t, MS_PER_MINUTE, 60 * (24 * day + hour) + minute, 0);
    Remainder(24 * day + hour, 24, day, hour);
    Remainder(60 * (24 * day + hour) + minute, 60, 24 * day + hour, minute);
  }

  /** Within any eight days every weekday occurs at every time of day. */
  lemma WeekIsCovered(from: Time, cron: ParsedCron)
    requires ValidCron(cron) && cron.months == Range(1, 12)
    requires cron.daysOfMonth == Range(1, 31) || cron.daysOfWeek != Range(0, 6)
    ensures !NoMatchUpTo(from, cron, Horizon(from))
  {
    hide MatchesCron, Month, DayOfMonth, Range;
    var minute :| minute in cron.minutes;
    var hour :| hour in cron.hours;
    var w :| w in cron.daysOfWeek;
    var d0 := Day(from) + 1;
    var d := d0 + (w - WeekDay(d0)) % 7;
    assert WeekDay(d) == w by {
      var k := (w - WeekDay(d0)) / 7;
      Remainder(d + 4, 7, (d0 + 4) / 7 - k, w);
    }
    var u := d * MS_PER_DAY + hour * MS_PER_HOUR + minute * MS_PER_MINUTE;
    Assemble(d, hour, minute);
    MatchIsBySets(u, cron);
    assert from < u <= Horizon(from);
  }

  /** A month that the expression skips hides every match from a search started just before it. */
  lemma MissingMonthIsFound(cron: ParsedCron, month: int) returns (from: Time)
    requires 1 <= month <= 12 && month !in cron.months
    ensures NoMatchUpTo(from, cron, Horizon(from))
  {
    var first := MakeDay(1970, month, 1);
    from := first * MS_PER_DAY - 1;
    assert from / MS_PER_MINUTE * MS_PER_MINUTE == first * MS_PER_DAY - MS_PER_MINUTE;
    forall u | from < u <= Horizon(from) && WholeMinute(u)
      ensures !MatchesCron(u, cron)
    {
      var day := Day(u);
      assert first <= day < first + 8;
      CivilDateRoundTrip(day, 1970, month, day - first + 1);
    }
  }

  /**
    When the day fields let some day of every week through, the search never fails from any
    starting point if and only if no month is excluded.
  */
  lemma NeverNullExactly(cron: ParsedCron)
    requires ValidCron(cron)
    requires cron.daysOfMonth == Range(1, 31) || cron.daysOfWeek != Range(0, 6)
    ensures (forall from :: !NoMatchUpTo(from, cron, Horizon(from))) <==> cron.months == Range(1, 12)
  {
    hide NoMatchUpTo, MatchesCron, Range;
    if cron.months == Range(1, 12) {
      forall from
        ensures !NoMatchUpTo(from, cron, Horizon(from))
      {
        WeekIsCovered(from, cron);
      }
    } else {
      var month :| month in Range(1, 12) && month !in cron.months;
      var from := MissingMonthIsFound(cron, month);
    }
  }

  // ---------------------------------------------------------------- re-seeding

  const EIGHT_DAYS := 8 * MS_PER_DAY

  /** Ticks that keep finding a null `nextRunAt` and search again, at most eight days apart. */
  ghost predicate Reseeding(cron: ParsedCron, ticks: seq<Time>, results: seq<Option<Time>>) {
    && 0 < |ticks| == |results|
    && (forall i | 0 <= i < |ticks| :: SearchResult(ticks[i], cron, results[i]))
    && (forall i | 0 <= i < |ticks| - 1 :: results[i].None? && ticks[i] <= ticks[i + 1] <= ticks[i] + EIGHT_DAYS)
  }

  lemma WithinHorizon(from: Time, u: Time)
    requires u <= from + EIGHT_DAYS && WholeMinute(u)
    ensures u <= Horizon(from)
  {
    var m := u / MS_PER_MINUTE;
    assert u == m * MS_PER_MINUTE;
    assert m <= from / MS_PER_MINUTE + MAX_LOOKAHEAD_MINUTES;
  }

  lemma {:induction false} NothingSkipped(cron: ParsedCron, ticks: seq<Time>, results: seq<Option<Time>>)
    requires Reseeding(cron, ticks, results)
    ensures ticks[0] <= ticks[|ticks| - 1]
    ensures NoMatchUpTo(ticks[0], cron, ticks[|ticks| - 1])
    decreases |ticks|
  {
    hide MatchesCron, Horizon, WholeMinute;
    var n := |ticks| - 1;
    if n > 0 {
      NothingSkipped(cron, ticks[..n], results[..n]);
      assert results[n - 1].None? && ticks[n - 1] <= ticks[n] <= ticks[n - 1] + EIGHT_DAYS;
      assert NoMatchUpTo(ticks[n - 1], cron, Horizon(ticks[n - 1]));
      hide SearchResult;
      forall u | ticks[0] < u <= ticks[n] && WholeMinute(u)
        ensures !MatchesCron(u, cron)
      {
        if u > ticks[n - 1] {
          WithinHorizon(ticks[n - 1], u);
        }
      }
    }
  }

  /** The first slot written after any number of failed searches is the one an unbounded search finds. */
  lemma NoSlotLost(cron: ParsedCron, ticks: seq<Time>, results: seq<Option<Time>>)
    requires Reseeding(cron, ticks, results) && results[|results| - 1].Some?
    ensures IsNextMatch(ticks[0], cron, results[|results| - 1].value)
  {
    NothingSkipped(cron, ticks, results);
    var last := ticks[|ticks| - 1];
    var t := results[|results| - 1].value;
    assert SearchResult(last, cron, results[|results| - 1]);
    forall u | ticks[0] < u < t && WholeMinute(u)
      ensures !MatchesCron(u, cron)
    {
      if u <= last { assert !MatchesCron(u, cron); }
    }
  }
}
