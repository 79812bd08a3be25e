/**
  The weekday field of a cron expression (packages/automations/src/cron.ts).  Before it is parsed,
  every 7 in its text becomes a 0.  What the field is meant to say is what it says when 7 is one more
  name of Sunday; this module decides for every text whether the two agree.
*/
module Weekdays {
  import opened Common
  import opened Numerals
  import opened Cron

  /** The field with 7 as a second name of Sunday. */
  function Intended(field: string): Option<set<int>> {
    match FieldSet(field, 0, 7)
    case Some(days) => Some(Fold(days))
    case None => None
  }

  function Fold(days: set<int>): set<int> { set v | v in days :: v % 7 }

  /** The field as `parseFiveFieldCron` reads it. */
  function AsRead(field: string): Option<set<int>> { FieldSet(ReplaceSevens(field), 0, 6) }

  // ---------------------------------------------------------------- replacing sevens in a part

  function UnsevenDigit(d: nat): nat { if d == 7 then 0 else d }

  /** A number of at most two digits after every 7 in it became a 0. */
  function Unseven(n: nat): nat { 10 * UnsevenDigit(n / 10) + UnsevenDigit(n % 10) }

  function UnsevenReading(r: Reading): Reading {
    match r
    case Every(s) => Every(Unseven(s))
    case OpenFrom(a, s) => OpenFrom(Unseven(a), Unseven(s))
    case Closed(a, b, s) => Closed(Unseven(a), Unseven(b), Unseven(s))
  }

  predicate TwoDigits(r: Reading) {
    match r
    case Every(s) => s < 100
    case OpenFrom(a, s) => a < 100 && s < 100
    case Closed(a, b, s) => a < 100 && b < 100 && s < 100
  }

  function OnePlace(c: char): char { if c == '7' then '0' else c }

  lemma {:induction false} ReplacedAt(s: string)
    ensures |ReplaceSevens(s)| == |s| && forall i | 0 <= i < |s| :: ReplaceSevens(s)[i] == OnePlace(s[i])
  {
    if s != "" { ReplacedAt(s[1..]); }
  }

  lemma ReplacedCut(s: string, i: nat)
    requires i <= |s|
    ensures |ReplaceSevens(s)| == |s|
    ensures ReplaceSevens(s)[..i] == ReplaceSevens(s[..i]) && ReplaceSevens(s)[i..] == ReplaceSevens(s[i..])
  {
    hide OnePlace;
    ReplacedAt(s);
    ReplacedAt(s[..i]);
    ReplacedAt(s[i..]);
  }

  lemma IndexIs(s: string, c: char, i: nat)
    requires i <= |s| && (i < |s| ==> s[i] == c) && forall j | 0 <= j < i :: s[j] != c
    ensures IndexOf(s, c) == i
  {
  }

  lemma ReplacedIndex(s: string, c: char)
    requires c != '7' && c != '0'
    ensures IndexOf(ReplaceSevens(s), c) == IndexOf(s, c)
  {
    ReplacedAt(s);
    hide IndexOf;
    IndexIs(ReplaceSevens(s), c, IndexOf(s, c));
  }

  lemma DigitsByPlace(s: string)
    ensures OneOrTwoDigits(s) <==> 1 <= |s| <= 2 && forall i | 0 <= i < |s| :: IsDigit(s[i])
  {
    if OneOrTwoDigits(s) {
      forall i | 0 <= i < |s|
        ensures IsDigit(s[i])
      {
        assert s[i] in s;
      }
    }
  }

  lemma ReplacedNumber(s: string)
    ensures OneOrTwoDigits(ReplaceSevens(s)) <==> OneOrTwoDigits(s)
    ensures OneOrTwoDigits(s) ==> NumberOf(s) < 100 && NumberOf(ReplaceSevens(s)) == Unseven(NumberOf(s))
  {
    hide ReplaceSevens, OneOrTwoDigits;
    ReplacedAt(s);
    var t := ReplaceSevens(s);
    DigitsByPlace(s);
    DigitsByPlace(t);
    assert forall i | 0 <= i < |s| :: IsDigit(s[i]) == IsDigit(t[i]);
  }

  lemma ReplacedStar(s: string)
    ensures ReplaceSevens(s) == "*" <==> s == "*"
  {
    ReplacedAt(s);
    if ReplaceSevens(s) == "*" { assert s[0] == '*'; }
  }

  lemma ReplacedPart(part: string)
    ensures ReadPart(ReplaceSevens(part)).None? <==> ReadPart(part).None?
    ensures ReadPart(part).Some? ==>
              TwoDigits(ReadPart(part).value) && ReadPart(ReplaceSevens(part)) == Some(UnsevenReading(ReadPart(part).value))
  {
    hide IndexOf, OneOrTwoDigits, NumberOf, Unseven, ReplaceSevens;
    var slash := IndexOf(part, '/');
    ReplacedIndex(part, '/');
    if slash < |part| {
      var base := part[..slash];
      ReplacedCut(part, slash);
      ReplacedCut(part, slash + 1);
      ReplacedNumber(part[slash + 1..]);
      ReplacedStar(base);
      ReplacedRange(base);
    } else {
      ReplacedCut(part, 0);
      ReplacedRange(part);
      OneStays();
    }
  }

  lemma OneStays()
    ensures Unseven(1) == 1
  {
  }

  /** The pieces of a number or a range. */
  lemma ReplacedRange(s: string)
    ensures var dash := IndexOf(s, '-'); var t := ReplaceSevens(s);
            && |t| == |s| && IndexOf(t, '-') == dash
            && (OneOrTwoDigits(t) <==> OneOrTwoDigits(s))
            && (OneOrTwoDigits(s) ==> NumberOf(s) < 100 && NumberOf(t) == Unseven(NumberOf(s)))
            && (dash < |s| ==>
                  && t[..dash] == ReplaceSevens(s[..dash]) && t[dash + 1..] == ReplaceSevens(s[dash + 1..])
                  && (OneOrTwoDigits(t[..dash]) <==> OneOrTwoDigits(s[..dash]))
                  && (OneOrTwoDigits(t[dash + 1..]) <==> OneOrTwoDigits(s[dash + 1..]))
                  && (OneOrTwoDigits(s[..dash]) ==> NumberOf(s[..dash]) < 100 && NumberOf(t[..dash]) == Unseven(NumberOf(s[..dash])))
                  && (OneOrTwoDigits(s[dash + 1..]) ==>
                        NumberOf(s[dash + 1..]) < 100 && NumberOf(t[dash + 1..]) == Unseven(NumberOf(s[dash + 1..]))))
  {
    hide IndexOf, OneOrTwoDigits, NumberOf, Unseven, ReplaceSevens;
    var dash := IndexOf(s, '-');
    ReplacedIndex(s, '-');
    ReplacedNumber(s);
    ReplacedCut(s, dash);
    if dash < |s| {
      ReplacedCut(s, dash + 1);
      ReplacedNumber(s[..dash]);
      ReplacedNumber(s[dash + 1..]);
    }
  }

  lemma {:induction false} ReplacedSplit(s: string)
    ensures var parts := Split(s, ',');
            |Split(ReplaceSevens(s), ',')| == |parts|
            && forall i | 0 <= i < |parts| :: Split(ReplaceSevens(s), ',')[i] == ReplaceSevens(parts[i])
    decreases |s|
  {
    hide IndexOf, ReplaceSevens;
    var i := IndexOf(s, ',');
    ReplacedIndex(s, ',');
    ReplacedCut(s, i);
    if i < |s| {
      ReplacedCut(s, i + 1);
      ReplacedSplit(s[i + 1..]);
    }
  }

  // ---------------------------------------------------------------- what one part says

  /** Whether steps of `s` arrive at a distance of `n`. */
  predicate Hits(n: int, s: nat)
    requires s != 0
  {
    n % s == 0
  }

  predicate Accepts(r: Reading, max: int) { LegalPart(PartOf(r, 0, max), 0, max) }

  predicate Covers(r: Reading, max: int, v: int)
    requires Accepts(r, max)
  {
    var p := PartOf(r, 0, max);
    p.start <= v <= p.end && Hits(v - p.start, p.step)
  }

  /** Named as intended, where Sunday is 0 or 7. */
  predicate NamesDay(r: Reading, day: int)
    requires Accepts(r, 7)
  {
    Covers(r, 7, day) || (day == 0 && Covers(r, 7, 7))
  }

  /** A part is lost to replacing when a bound or a step of it becomes impossible. */
  predicate LosesAll(r: Reading) {
    match r
    case Every(s) => Unseven(s) == 0
    case OpenFrom(a, s) => Unseven(a) > 6 || Unseven(s) == 0
    case Closed(a, b, s) => !(Unseven(a) <= Unseven(b) <= 6) || Unseven(s) == 0
  }

  /** A part means nothing when it runs backward, beyond 7 or in steps of 0. */
  predicate Meaningless(r: Reading) {
    match r
    case Every(s) => s == 0
    case OpenFrom(a, s) => a > 7 || s == 0
    case Closed(a, b, s) => !(a <= b <= 7) || s == 0
  }

  /** Weekdays that replacing adds: steps of 71 to 76 shrink to 1 to 6, and an open part from 7 starts at 0. */
  predicate Gains(r: Reading, day: int) {
    match r
    case Every(s) => 71 <= s <= 76 && 1 <= day <= 6 && Hits(day, s - 70)
    case OpenFrom(a, s) =>
      if a == 7 then 1 <= day <= 6 && Unseven(s) != 0 && Hits(day, Unseven(s))
      else 71 <= s <= 76 && a < day <= 6 && Hits(day - a, s - 70)
    case Closed(a, b, s) => b <= 6 && 71 <= s <= 76 && a < day <= b && Hits(day - a, s - 70)
  }

  /** Weekdays that replacing takes away: all but Sunday of 0-7, and the Sunday an open part ends with. */
  predicate Loses(r: Reading, day: int) {
    match r
    case Every(s) => false
    case OpenFrom(a, s) => 1 <= a <= 6 && day == 0 && s != 0 && Hits(7 - a, s)
    case Closed(a, b, s) => a == 0 && b == 7 && 1 <= day <= 6 && s != 0 && Hits(day, s)
  }

  lemma RefusalsExactly(r: Reading)
    ensures Accepts(r, 7) <==> !Meaningless(r)
    ensures Accepts(UnsevenReading(r), 6) <==> !LosesAll(r)
  {
    hide Unseven;
  }

  lemma SmallRemainder(n: int, s: int)
    requires 0 <= n < s
    ensures n % s == 0 <==> n == 0
  {
  }

  /** What a step does to differences of at most 7. */
  lemma StepWithoutSeven(n: int, s: nat)
    requires 0 <= n <= 7 && 1 <= s < 100 && Unseven(s) != 0 && !(71 <= s <= 76)
    ensures s <= 7 ==> Unseven(s) == s
    ensures n <= 6 ==> (Hits(n, s) <==> Hits(n, Unseven(s)))
    ensures Hits(0, s) && Hits(0, Unseven(s)) && (Hits(n, s) && s > 7 ==> n == 0)
    ensures s > 7 ==> Unseven(s) > 7
  {
    if s > 7 {
      SmallRemainder(n, s);
      SmallRemainder(n, Unseven(s));
    }
  }

  lemma StepWithSeven(n: int, s: nat)
    requires 0 <= n <= 7 && 71 <= s <= 76
    ensures Unseven(s) == s - 70 && (Hits(n, s) <==> n == 0) && Hits(0, s - 70)
  {
    SmallRemainder(n, s);
  }

  /** Read as 0 to 6 after replacing, the part names the days it is meant to name, less those it loses, and those it gains. */
  predicate SaysExactly(r: Reading, day: int) {
    && Accepts(r, 7) && Accepts(UnsevenReading(r), 6)
    && (Covers(UnsevenReading(r), 6, day) <==> (NamesDay(r, day) && !Loses(r, day)) || Gains(r, day))
    && (Loses(r, day) ==> NamesDay(r, day))
    && (Gains(r, day) ==> !NamesDay(r, day))
  }

  lemma EveryExactly(s: nat, day: int)
    requires s < 100 && 0 <= day <= 6 && s != 0 && Unseven(s) != 0
    ensures SaysExactly(Every(s), day)
  {
    hide Unseven, Hits;
    if 71 <= s <= 76 { StepWithSeven(day, s); StepWithSeven(7, s); } else { StepWithoutSeven(day, s); StepWithoutSeven(7, s); }
  }

  lemma UnsevenSmall(n: nat)
    ensures n <= 6 ==> Unseven(n) == n
    ensures n == 7 ==> Unseven(n) == 0
  {
  }

  lemma HitsAtOnce(s: nat)
    requires s != 0
    ensures Hits(0, s)
  {
  }

  lemma OpenExactly(a: nat, s: nat, day: int)
    requires a < 100 && s < 100 && 0 <= day <= 6 && !LosesAll(OpenFrom(a, s)) && !Meaningless(OpenFrom(a, s))
    ensures SaysExactly(OpenFrom(a, s), day)
  {
    hide Unseven, Hits;
    UnsevenSmall(a);
    UnsevenSmall(7);
    if 71 <= s <= 76 {
      StepWithSeven(7 - a, s);
      if a <= day { StepWithSeven(day - a, s); }
    } else {
      StepWithoutSeven(7 - a, s);
      if a <= day { StepWithoutSeven(day - a, s); }
    }
  }

  lemma ClosedExactly(a: nat, b: nat, s: nat, day: int)
    requires a < 100 && b <= 6 && s < 100 && 0 <= day <= 6 && !LosesAll(Closed(a, b, s)) && !Meaningless(Closed(a, b, s))
    ensures SaysExactly(Closed(a, b, s), day)
  {
    hide Unseven, Hits;
    UnsevenSmall(a);
    UnsevenSmall(b);
    if a <= day {
      if 71 <= s <= 76 { StepWithSeven(day - a, s); } else { StepWithoutSeven(day - a, s); }
    }
  }

  /** A range that ends with 7 is read as one that ends with 0. */
  lemma ClosedBySeven(a: nat, s: nat, day: int)
    requires a < 100 && s < 100 && 0 <= day <= 6 && !LosesAll(Closed(a, 7, s)) && !Meaningless(Closed(a, 7, s))
    ensures SaysExactly(Closed(a, 7, s), day)
  {
    hide Unseven, Hits;
    UnsevenSmall(a);
    UnsevenSmall(7);
    HitsAtOnce(s);
    HitsAtOnce(Unseven(s));
    assert (a == 0 || a == 7) && UnsevenReading(Closed(a, 7, s)) == Closed(0, 0, Unseven(s));
  }

  lemma PartExactly(r: Reading, day: int)
    requires TwoDigits(r) && !LosesAll(r) && !Meaningless(r) && 0 <= day <= 6
    ensures SaysExactly(r, day)
  {
    hide SaysExactly;
    match r
    case Every(s) => EveryExactly(s, day);
    case OpenFrom(a, s) => OpenExactly(a, s, day);
    case Closed(a, b, s) => if b == 7 { ClosedBySeven(a, s, day); } else { ClosedExactly(a, b, s, day); }
  }

  // ---------------------------------------------------------------- what a field says

  function PartsOf(field: string): seq<string> { Split(field, ',') }

  predicate Legal(part: string, max: int) { ReadPart(part).Some? && Accepts(ReadPart(part).value, max) }

  predicate LegalNames(part: string, max: int, v: int) { Legal(part, max) && Covers(ReadPart(part).value, max, v) }

  ghost predicate Named(parts: seq<string>, max: int, v: int) { exists i :: 0 <= i < |parts| && LegalNames(parts[i], max, v) }

  lemma CoversIsMember(r: Reading, max: int, v: int)
    requires Accepts(r, max)
    ensures v in PartSet(PartOf(r, 0, max)) <==> Covers(r, max, v)
  {
  }

  lemma NamedByLast(parts: seq<string>, max: int, v: int)
    requires parts != []
    ensures Named(parts, max, v) <==> Named(parts[..|parts| - 1], max, v) || LegalNames(parts[|parts| - 1], max, v)
  {
    hide LegalNames;
    var init := parts[..|parts| - 1];
    if i :| 0 <= i < |parts| && LegalNames(parts[i], max, v) {
      if i < |init| { assert LegalNames(init[i], max, v); }
    }
    if i :| 0 <= i < |init| && LegalNames(init[i], max, v) {
      assert LegalNames(parts[i], max, v);
    }
  }

  lemma {:induction false} PartsSetMeaning(parts: seq<string>, max: int)
    ensures PartsSet(parts, 0, max).Some? <==> forall i | 0 <= i < |parts| :: Legal(parts[i], max)
    ensures PartsSet(parts, 0, max).Some? ==> forall v :: v in PartsSet(parts, 0, max).value <==> Named(parts, max, v)
  {
    hide ReadPart, PartSet, Covers, Accepts, Named;
    if parts != [] {
      var n := |parts| - 1;
      PartsSetMeaning(parts[..n], max);
      assert Legal(parts[n], max) <==> ClassifyPart(parts[n], 0, max).Some? && LegalPart(ClassifyPart(parts[n], 0, max).value, 0, max) by {
        LegalIsLegal(parts[n], max);
      }
      if PartsSet(parts, 0, max).Some? {
        forall v
          ensures v in PartsSet(parts, 0, max).value <==> Named(parts, max, v)
        {
          NamedByLast(parts, max, v);
          CoversIsMember(ReadPart(parts[n]).value, max, v);
        }
      }
    } else {
      assert forall v :: !Named(parts, max, v) by { NothingNamed(max); }
    }
  }

  lemma LegalIsLegal(part: string, max: int)
    ensures Legal(part, max) <==> ClassifyPart(part, 0, max).Some? && LegalPart(ClassifyPart(part, 0, max).value, 0, max)
  {
    hide ReadPart;
  }

  lemma NothingNamed(max: int)
    ensures forall v :: !Named([], max, v)
  {
  }

  /** The part is refused as it is read, or as it is meant. */
  predicate RefusedAsRead(part: string) { ReadPart(part).None? || LosesAll(ReadPart(part).value) }

  predicate RefusedAsMeant(part: string) { ReadPart(part).None? || Meaningless(ReadPart(part).value) }

  predicate MeansDay(part: string, day: int) {
    !RefusedAsMeant(part) && Accepts(ReadPart(part).value, 7) && NamesDay(ReadPart(part).value, day)
  }

  predicate GainsDay(part: string, day: int) { ReadPart(part).Some? && Gains(ReadPart(part).value, day) }

  predicate LosesDay(part: string, day: int) { ReadPart(part).Some? && Loses(ReadPart(part).value, day) }

  predicate KeepsOrGains(part: string, day: int) { (MeansDay(part, day) && !LosesDay(part, day)) || GainsDay(part, day) }

  /**
    What can be read off the parts of a field: either both readings refuse it, or neither does and every
    weekday that one part loses or gains is named by another part all the same.
  */
  ghost predicate SevensAreHarmless(field: string) {
    var parts := PartsOf(field);
    || field == "*"
    || ((exists i :: 0 <= i < |parts| && RefusedAsRead(parts[i])) && (exists i :: 0 <= i < |parts| && RefusedAsMeant(parts[i])))
    || ((forall i | 0 <= i < |parts| :: !RefusedAsRead(parts[i]) && !RefusedAsMeant(parts[i]))
        && (forall i, day | 0 <= i < |parts| && 0 <= day <= 6 && GainsDay(parts[i], day) ::
              exists j :: 0 <= j < |parts| && MeansDay(parts[j], day))
        && (forall i, day | 0 <= i < |parts| && 0 <= day <= 6 && LosesDay(parts[i], day) ::
              exists j :: 0 <= j < |parts| && KeepsOrGains(parts[j], day)))
  }

  lemma AsReadMeaning(field: string)
    requires field != "*"
    ensures AsRead(field).Some? <==> forall i | 0 <= i < |PartsOf(field)| :: !RefusedAsRead(PartsOf(field)[i])
    ensures AsRead(field).Some? ==> AsRead(field).value <= Range(0, 6)
    ensures AsRead(field).Some? && (forall i | 0 <= i < |PartsOf(field)| :: !RefusedAsMeant(PartsOf(field)[i])) ==>
              forall day | 0 <= day <= 6 ::
                day in AsRead(field).value <==> exists i :: 0 <= i < |PartsOf(field)| && KeepsOrGains(PartsOf(field)[i], day)
  {
    var parts, replaced := PartsOf(field), PartsOf(ReplaceSevens(field));
    ReplacedStar(field);
    ReplacedSplit(field);
    PartsSetMeaning(replaced, 6);
    hide ReadPart, Split, PartsSet, Unseven, ReplaceSevens, NamesDay, Covers, Gains, Loses, Meaningless, LosesAll, Accepts, UnsevenReading;
    if AsRead(field).Some? { FieldInRange(replaced, 0, 6); }
    forall i | 0 <= i < |parts|
      ensures Legal(replaced[i], 6) <==> !RefusedAsRead(parts[i])
      ensures Legal(replaced[i], 6) && !RefusedAsMeant(parts[i]) ==>
                forall day | 0 <= day <= 6 :: LegalNames(replaced[i], 6, day) <==> KeepsOrGains(parts[i], day)
    {
      ReplacedPart(parts[i]);
      if ReadPart(parts[i]).Some? {
        var r := ReadPart(parts[i]).value;
        RefusalsExactly(r);
        if !RefusedAsRead(parts[i]) && !RefusedAsMeant(parts[i]) {
          forall day | 0 <= day <= 6
            ensures LegalNames(replaced[i], 6, day) <==> KeepsOrGains(parts[i], day)
          {
            PartExactly(r, day);
          }
        }
      }
    }
    hide RefusedAsRead, RefusedAsMeant, KeepsOrGains, Named, Legal, LegalNames;
    if AsRead(field).Some? && forall i | 0 <= i < |parts| :: !RefusedAsMeant(parts[i]) {
      forall day | 0 <= day <= 6
        ensures day in AsRead(field).value <==> exists i :: 0 <= i < |parts| && KeepsOrGains(parts[i], day)
      {
        NamedByPlace(replaced, 6, day);
      }
    }
  }

  lemma NamedByPlace(parts: seq<string>, max: int, v: int)
    ensures Named(parts, max, v) <==> exists i :: 0 <= i < |parts| && LegalNames(parts[i], max, v)
  {
  }

  lemma IntendedMeaning(field: string)
    requires field != "*"
    ensures Intended(field).Some? <==> forall i | 0 <= i < |PartsOf(field)| :: !RefusedAsMeant(PartsOf(field)[i])
    ensures Intended(field).Some? ==> Intended(field).value <= Range(0, 6)
    ensures Intended(field).Some? ==>
              forall day | 0 <= day <= 6 ::
                day in Intended(field).value <==> exists i :: 0 <= i < |PartsOf(field)| && MeansDay(PartsOf(field)[i], day)
  {
    var parts := PartsOf(field);
    PartsSetMeaning(parts, 7);
    hide ReadPart, Split, PartsSet, Covers, Meaningless, Accepts;
    if Intended(field).Some? { FieldInRange(parts, 0, 7); }
    forall i | 0 <= i < |parts|
      ensures Legal(parts[i], 7) <==> !RefusedAsMeant(parts[i])
    {
      if ReadPart(parts[i]).Some? { RefusalsExactly(ReadPart(parts[i]).value); }
    }
    if Intended(field).Some? {
      var days := FieldSet(field, 0, 7).value;
      hide FieldSet;
      forall day | 0 <= day <= 6
        ensures day in Intended(field).value <==> exists i :: 0 <= i < |parts| && MeansDay(parts[i], day)
      {
        assert day in Intended(field).value <==> day in days || (day == 0 && 7 in days) by { FoldedDay(days, day); }
        if day in days {
          var i :| 0 <= i < |parts| && LegalNames(parts[i], 7, day);
          assert MeansDay(parts[i], day);
        }
        if day == 0 && 7 in days {
          var i :| 0 <= i < |parts| && LegalNames(parts[i], 7, 7);
          assert MeansDay(parts[i], day);
        }
      }
    }
  }

  lemma FoldedDay(days: set<int>, day: int)
    requires days <= Range(0, 7) && 0 <= day <= 6
    ensures day in Fold(days) <==> day in days || (day == 0 && 7 in days)
  {
  }

  /** Replacing sevens in the text does what it is meant to do exactly for the fields whose sevens are harmless. */
  lemma SevenMeansSundayExactly(field: string)
    ensures AsRead(field) == Intended(field) <==> SevensAreHarmless(field)
  {
    if field == "*" {
      ReplacedStar(field);
      StarMeaning();
    } else {
      AsReadMeaning(field);
      IntendedMeaning(field);
      hide RefusedAsRead, RefusedAsMeant, MeansDay, LosesDay, GainsDay, AsRead, Intended, Split, Range;
      if AsRead(field).Some? && Intended(field).Some? { BothSay(field); }
    }
  }

  lemma StarMeaning()
    ensures FieldSet("*", 0, 6) == Intended("*")
  {
    var s := Fold(Range(0, 7));
    forall d
      ensures d in s <==> d in Range(0, 6)
    {
      if 0 <= d <= 6 { FoldedDay(Range(0, 7), d); }
    }
    assert s == Range(0, 6);
  }

  lemma BothSay(field: string)
    requires field != "*" && AsRead(field).Some? && Intended(field).Some?
    ensures AsRead(field) == Intended(field) <==> SevensAreHarmless(field)
  {
    var parts, read, meant := PartsOf(field), AsRead(field).value, Intended(field).value;
    AsReadMeaning(field);
    IntendedMeaning(field);
    forall i, day | 0 <= i < |parts| && 0 <= day <= 6
      ensures LosesDay(parts[i], day) ==> MeansDay(parts[i], day)
    {
      PartSays(parts[i], day);
    }
    hide RefusedAsRead, RefusedAsMeant, MeansDay, LosesDay, GainsDay, AsRead, Intended, PartsOf, Range;
    if read == meant {
      EqualIsHarmless(field, parts, read);
    } else if SevensAreHarmless(field) {
      forall day | 0 <= day <= 6
        ensures day in read <==> day in meant
      {
        if day in read {
          var i :| 0 <= i < |parts| && KeepsOrGains(parts[i], day);
          assert GainsDay(parts[i], day) || MeansDay(parts[i], day);
        }
        if day in meant {
          var i :| 0 <= i < |parts| && MeansDay(parts[i], day);
          assert LosesDay(parts[i], day) || KeepsOrGains(parts[i], day);
        }
      }
      SameDays(read, meant);
    }
  }

  lemma EqualIsHarmless(field: string, parts: seq<string>, days: set<int>)
    requires field != "*" && parts == PartsOf(field)
    requires forall i | 0 <= i < |parts| :: !RefusedAsRead(parts[i]) && !RefusedAsMeant(parts[i])
    requires forall i, day | 0 <= i < |parts| && 0 <= day <= 6 :: LosesDay(parts[i], day) ==> MeansDay(parts[i], day)
    requires forall day | 0 <= day <= 6 :: day in days <==> exists i :: 0 <= i < |parts| && KeepsOrGains(parts[i], day)
    requires forall day | 0 <= day <= 6 :: day in days <==> exists i :: 0 <= i < |parts| && MeansDay(parts[i], day)
    ensures SevensAreHarmless(field)
  {
    hide RefusedAsRead, RefusedAsMeant, MeansDay, LosesDay, GainsDay, PartsOf;
    forall i, day | 0 <= i < |parts| && 0 <= day <= 6 && GainsDay(parts[i], day)
      ensures exists j :: 0 <= j < |parts| && MeansDay(parts[j], day)
    {
      assert KeepsOrGains(parts[i], day);
      assert day in days;
    }
    hide KeepsOrGains;
    forall i, day | 0 <= i < |parts| && 0 <= day <= 6 && LosesDay(parts[i], day)
      ensures exists j :: 0 <= j < |parts| && KeepsOrGains(parts[j], day)
    {
      assert MeansDay(parts[i], day);
      assert day in days;
    }
  }

  lemma SameDays(a: set<int>, b: set<int>)
    requires a <= Range(0, 6) && b <= Range(0, 6) && forall day | 0 <= day <= 6 :: day in a <==> day in b
    ensures a == b
  {
  }

  lemma PartSays(part: string, day: int)
    requires !RefusedAsRead(part) && !RefusedAsMeant(part) && 0 <= day <= 6
    ensures LosesDay(part, day) ==> MeansDay(part, day)
  {
    ReplacedPart(part);
    RefusalsExactly(ReadPart(part).value);
    hide ReadPart, Gains, Loses, NamesDay, Meaningless, LosesAll;
    PartExactly(ReadPart(part).value, day);
  }

  // ---------------------------------------------------------------- fields of one part

  /** Without a comma the two agree exactly when both refuse, or neither does and no weekday is gained or lost. */
  lemma OnePartExactly(field: string)
    requires field != "*" && PartsOf(field) == [field]
    ensures AsRead(field) == Intended(field)
            <==> (RefusedAsRead(field) && RefusedAsMeant(field))
                 || (!RefusedAsRead(field) && !RefusedAsMeant(field)
                     && forall day | 0 <= day <= 6 :: !GainsDay(field, day) && !LosesDay(field, day))
  {
    SevenMeansSundayExactly(field);
    if !RefusedAsRead(field) && !RefusedAsMeant(field) {
      forall day | 0 <= day <= 6
        ensures LosesDay(field, day) ==> !KeepsOrGains(field, day)
        ensures GainsDay(field, day) ==> !MeansDay(field, day)
      {
        PartGainsOrLoses(field, day);
      }
    }
    hide RefusedAsRead, RefusedAsMeant, AsRead, Intended, MeansDay, GainsDay, LosesDay, KeepsOrGains, PartsOf;
    assert [field][0] == field;
  }

  lemma PartGainsOrLoses(part: string, day: int)
    requires !RefusedAsRead(part) && !RefusedAsMeant(part) && 0 <= day <= 6
    ensures LosesDay(part, day) ==> !KeepsOrGains(part, day)
    ensures GainsDay(part, day) ==> !MeansDay(part, day)
  {
    ReplacedPart(part);
    hide ReadPart, NamesDay, Meaningless, LosesAll, Unseven, Hits;
    PartExactly(ReadPart(part).value, day);
  }

  lemma WholeWeekText()
    ensures PartsOf("0-7") == ["0-7"] && ReadPart("0-7") == Some(Closed(0, 7, 1))
  {
    assert IndexOf("0-7", ',') == 3 && IndexOf("0-7", '/') == 3 && IndexOf("0-7", '-') == 1;
    assert "0-7"[..1] == "0" && "0-7"[2..] == "7";
  }

  /** `0-7`, which names every day, is taken for Sunday alone. */
  lemma WholeWeekBecomesSunday()
    ensures AsRead("0-7") == Some({0}) && Intended("0-7") == Some(Range(0, 6))
  {
    hide AsRead, Intended, ReadPart, PartsOf, Unseven;
    WholeWeekText();
    UnsevenSmall(0);
    UnsevenSmall(7);
    UnsevenSmall(1);
    var r := Closed(0, 7, 1);
    OnePartDays("0-7", r);
    forall day | 0 <= day <= 6
      ensures NamesDay(r, day) && !Gains(r, day) && (Loses(r, day) <==> day != 0)
    {
    }
    hide NamesDay, Gains, Loses;
    assert AsRead("0-7").value == {0};
    assert Intended("0-7").value == Range(0, 6);
  }

  lemma OpenSundayText()
    ensures PartsOf("7/2") == ["7/2"] && ReadPart("7/2") == Some(OpenFrom(7, 2))
  {
    assert IndexOf("7/2", ',') == 3 && IndexOf("7/2", '/') == 1;
    assert "7/2"[..1] == "7" && "7/2"[2..] == "2" && IndexOf("7", '-') == 1;
  }

  /** `7/2`, which names Sunday, also runs on the other even days. */
  lemma SundayBecomesEvenDays()
    ensures AsRead("7/2") == Some({0, 2, 4, 6}) && Intended("7/2") == Some({0})
  {
    hide AsRead, Intended, ReadPart, PartsOf, Unseven;
    OpenSundayText();
    UnsevenSmall(7);
    UnsevenSmall(2);
    var r := OpenFrom(7, 2);
    OnePartDays("7/2", r);
    forall day | 0 <= day <= 6
      ensures (NamesDay(r, day) <==> day == 0) && !Loses(r, day) && (Gains(r, day) <==> day in {2, 4, 6})
    {
    }
    hide NamesDay, Gains, Loses;
    assert AsRead("7/2").value == {0, 2, 4, 6};
    assert Intended("7/2").value == {0};
  }

  lemma RefusalTexts()
    ensures PartsOf("1-7") == ["1-7"] && ReadPart("1-7") == Some(Closed(1, 7, 1))
    ensures PartsOf("*/7") == ["*/7"] && ReadPart("*/7") == Some(Every(7))
    ensures PartsOf("7-3") == ["7-3"] && ReadPart("7-3") == Some(Closed(7, 3, 1))
  {
    RangeToSevenText();
    StepOfSevenText();
    RangeFromSevenText();
  }

  lemma RangeToSevenText()
    ensures PartsOf("1-7") == ["1-7"] && ReadPart("1-7") == Some(Closed(1, 7, 1))
  {
    assert IndexOf("1-7", ',') == 3 && IndexOf("1-7", '/') == 3 && IndexOf("1-7", '-') == 1;
    assert "1-7"[..1] == "1" && "1-7"[2..] == "7";
  }

  lemma StepOfSevenText()
    ensures PartsOf("*/7") == ["*/7"] && ReadPart("*/7") == Some(Every(7))
  {
    assert IndexOf("*/7", ',') == 3 && IndexOf("*/7", '/') == 1;
    assert "*/7"[..1] == "*" && "*/7"[2..] == "7";
  }

  lemma RangeFromSevenText()
    ensures PartsOf("7-3") == ["7-3"] && ReadPart("7-3") == Some(Closed(7, 3, 1))
  {
    assert IndexOf("7-3", ',') == 3 && IndexOf("7-3", '/') == 3 && IndexOf("7-3", '-') == 1;
    assert "7-3"[..1] == "7" && "7-3"[2..] == "3";
  }

  /** A range up to 7 and steps of 7 are refused though they mean something; a range from 7 is accepted though it means nothing. */
  lemma RefusalsChange()
    ensures AsRead("1-7") == None && Intended("1-7").Some?
    ensures AsRead("*/7") == None && Intended("*/7") == Some({0})
    ensures AsRead("7-3").Some? && Intended("7-3") == None
  {
    hide AsRead, Intended, ReadPart, PartsOf, Unseven, NamesDay, Gains, Loses;
    RefusalTexts();
    UnsevenSmall(1);
    UnsevenSmall(3);
    UnsevenSmall(7);
    OnePartDays("1-7", Closed(1, 7, 1));
    OnePartDays("7-3", Closed(7, 3, 1));
    OnePartDays("*/7", Every(7));
    StepOfSevenIsSunday();
    assert Intended("*/7").value == {0};
  }

  lemma StepOfSevenIsSunday()
    ensures Accepts(Every(7), 7) && forall day | 0 <= day <= 6 :: NamesDay(Every(7), day) <==> day == 0
  {
  }

  /** Both readings of a field of one part, from the numbers in it. */
  lemma OnePartDays(field: string, r: Reading)
    requires field != "*" && PartsOf(field) == [field] && ReadPart(field) == Some(r)
    ensures AsRead(field).None? <==> LosesAll(r)
    ensures Intended(field).None? <==> Meaningless(r)
    ensures Intended(field).Some? ==>
              && Accepts(r, 7) && Intended(field).value <= Range(0, 6)
              && forall day | 0 <= day <= 6 :: day in Intended(field).value <==> NamesDay(r, day)
    ensures AsRead(field).Some? && Intended(field).Some? ==>
              && AsRead(field).value <= Range(0, 6)
              && forall day | 0 <= day <= 6 ::
                   day in AsRead(field).value <==> (NamesDay(r, day) && !Loses(r, day)) || Gains(r, day)
  {
    AsReadMeaning(field);
    IntendedMeaning(field);
    RefusalsExactly(r);
    assert PartsOf(field)[0] == field;
    hide AsRead, Intended, ReadPart, Split, LosesAll, Meaningless, NamesDay, Loses, Gains, Accepts;
  }
}
