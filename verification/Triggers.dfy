/**
  Trigger configurations as rules store them, and their reading
  (packages/automations/src/triggers.ts).
*/
module Triggers {
  import opened Common
  import opened Evaluate
  import opened Numerals
  import Calendar
  import Cron
  import J = CanonicalJson
  import RunKeys
  import Scheduler

  /** What parsing yields; a duration that is not given and a duration of 0 are one, as every reader treats them so. */
  datatype Config =
    | Every(minutes: nat)
    | CronText(expression: string)
    | OnEvent(event: EventConfig)
    | OnStatus(transition: StatusConfig)

  function TypeOfConfig(c: Config): TriggerType {
    match c
    case OnEvent(_) => Event
    case OnStatus(_) => StatusTransition
    case _ => Schedule
  }

  const MAX_INTERVAL_MINUTES := 1_440
  const MAX_FOR_DURATION_SECONDS := 3_600
  const MAX_TEXT := 64

  // ---------------------------------------------------------------- the schemas

  function EventTypeText(t: EventType): string {
    match t
    case StatusChanged => "integration.status.changed"
    case DataChanged => "integration.data.changed"
    case JobFailure => "job.failed"
    case BurnRateChanged => "slo.burn-rate.changed"
    case ImpactChanged => "dependency.impact.changed"
  }

  function EventTypeOfText(s: string): Option<EventType> {
    if s == "integration.status.changed" then Some(StatusChanged)
    else if s == "integration.data.changed" then Some(DataChanged)
    else if s == "job.failed" then Some(JobFailure)
    else if s == "slo.burn-rate.changed" then Some(BurnRateChanged)
    else if s == "dependency.impact.changed" then Some(ImpactChanged)
    else None
  }

  function WildcardText(status: Option<IntegrationStatus>): string { if status.None? then "*" else StatusText(status.value) }

  /** A status or the wildcard; the outer None is a refusal. */
  function WildcardOfText(s: string): Option<Option<IntegrationStatus>> {
    if s == "*" then Some(None)
    else if s == "unknown" then Some(Some(Unknown))
    else if s == "available" then Some(Some(Available))
    else if s == "unavailable" then Some(Some(Unavailable))
    else None
  }

  /** An object with no other keys than these. */
  predicate IsStrict(v: J.Json, keys: set<string>) {
    v.Obj? && forall i | 0 <= i < |v.members| :: v.members[i].key in keys
  }

  function TextAt(v: J.Json, key: string): Option<string>
    requires v.Obj?
  {
    match J.Lookup(v.members, key)
    case Some(Str(s)) => Some(s)
    case _ => None
  }

  /** A whole number within bounds, read from the way JavaScript prints it. */
  function NumberAt(v: J.Json, key: string, min: nat, max: nat): Option<nat>
    requires v.Obj?
  {
    match J.Lookup(v.members, key)
    case Some(Num(text)) =>
      if text != "" && AllDigits(text) && (|text| > 1 ==> text[0] != '0') && min <= Digits(text) <= max
      then Some(Digits(text)) else None
    case _ => None
  }

  predicate Absent(v: J.Json, key: string)
    requires v.Obj?
  {
    J.Lookup(v.members, key).None?
  }

  /** An optional text that, where given, has to satisfy `ok`; the outer None is a refusal. */
  function OptionalTextAt(v: J.Json, key: string, ok: string -> bool): Option<Option<string>>
    requires v.Obj?
  {
    if Absent(v, key) then Some(None)
    else if TextAt(v, key).Some? && ok(TextAt(v, key).value) then Some(TextAt(v, key)) else None
  }

  // ---------------------------------------------------------------- parsing

  function ParseInterval(v: J.Json): Option<Config> {
    if IsStrict(v, {"kind", "everyMinutes"}) && TextAt(v, "kind") == Some("interval") then
      match NumberAt(v, "everyMinutes", 1, MAX_INTERVAL_MINUTES)
      case Some(n) => Some(Every(n))
      case None => None
    else None
  }

  function ParseShorthand(v: J.Json): Option<Config> {
    if IsStrict(v, {"everyMinutes"}) then
      match NumberAt(v, "everyMinutes", 1, MAX_INTERVAL_MINUTES)
      case Some(n) => Some(Every(n))
      case None => None
    else None
  }

  function ParseCron(v: J.Json): Option<Config> {
    if IsStrict(v, {"kind", "expression", "timezone"}) && TextAt(v, "kind") == Some("cron")
       && (Absent(v, "timezone") || TextAt(v, "timezone") == Some("UTC"))
    then
      match TextAt(v, "expression")
      case Some(e) =>
        if 1 <= |e| && Utf16Length(e) <= MAX_TEXT && Cron.CronOf(e).Some? then Some(CronText(Cron.Trim(e))) else None
      case None => None
    else None
  }

  function ParseEvent(v: J.Json): Option<Config> {
    if !IsStrict(v, {"eventType", "integrationId", "integrationType"}) || TextAt(v, "eventType").None? then None
    else
      var eventType := EventTypeOfText(TextAt(v, "eventType").value);
      var id := OptionalTextAt(v, "integrationId", IsUuid);
      var kind := OptionalTextAt(v, "integrationType", IsIntegrationType);
      if eventType.Some? && id.Some? && kind.Some?
      then Some(OnEvent(EventConfig(eventType.value, id.value, kind.value)))
      else None
  }

  /** The shape of a status trigger, before `from` and `to` are compared. */
  function StatusShape(v: J.Json): Option<StatusConfig> {
    if !IsStrict(v, {"from", "to", "integrationId", "integrationType", "forDurationSeconds"})
       || TextAt(v, "from").None? || TextAt(v, "to").None?
    then None
    else
      var from, to := WildcardOfText(TextAt(v, "from").value), WildcardOfText(TextAt(v, "to").value);
      var id := OptionalTextAt(v, "integrationId", IsUuid);
      var kind := OptionalTextAt(v, "integrationType", IsIntegrationType);
      var seconds := if Absent(v, "forDurationSeconds") then Some(0)
                     else NumberAt(v, "forDurationSeconds", 0, MAX_FOR_DURATION_SECONDS);
      if from.Some? && to.Some? && id.Some? && kind.Some? && seconds.Some?
      then Some(StatusConfig(from.value, to.value, id.value, kind.value, seconds.value))
      else None
  }

  function ParseStatus(v: J.Json): Option<Config> {
    match StatusShape(v)
    case Some(config) => if config.from.Some? && config.from == config.to then None else Some(OnStatus(config))
    case None => None
  }

  /** `parseTriggerConfig`; None is its validation error. */
  function ParseTriggerConfig(t: TriggerType, v: J.Json): Option<Config> {
    match t
    case Schedule =>
      if ParseInterval(v).Some? then ParseInterval(v)
      else if ParseShorthand(v).Some? then ParseShorthand(v)
      else ParseCron(v)
    case Event => ParseEvent(v)
    case StatusTransition => ParseStatus(v)
  }

  // ---------------------------------------------------------------- what is accepted

  predicate ValidConfig(c: Config) {
    match c
    case Every(n) => 1 <= n <= MAX_INTERVAL_MINUTES
    case CronText(e) => 1 <= |e| && Utf16Length(e) <= MAX_TEXT && Cron.Trim(e) == e && Cron.CronOf(e).Some?
    case OnEvent(config) => ValidFilters(config.integrationId, config.integrationType)
    case OnStatus(config) =>
      && ValidFilters(config.integrationId, config.integrationType)
      && config.forDurationSeconds <= MAX_FOR_DURATION_SECONDS
      && (config.from.Some? ==> config.from != config.to)
  }

  predicate ValidFilters(id: Option<string>, kind: Option<string>) {
    (id.Some? ==> IsUuid(id.value)) && (kind.Some? ==> IsIntegrationType(kind.value))
  }

  function With(ms: seq<J.Member>, key: string, v: Option<J.Json>): seq<J.Member> {
    if v.Some? then ms + [J.Member(key, v.value)] else ms
  }

  function OptionalText(s: Option<string>): Option<J.Json> { if s.Some? then Some(J.Str(s.value)) else None }

  function Number(n: nat): J.Json { J.Num(Decimal(n)) }

  /** A configuration written out in full. */
  function Render(c: Config): J.Json {
    match c
    case Every(n) => J.Obj([J.Member("kind", J.Str("interval")), J.Member("everyMinutes", Number(n))])
    case CronText(e) =>
      J.Obj([J.Member("kind", J.Str("cron")), J.Member("expression", J.Str(e)), J.Member("timezone", J.Str("UTC"))])
    case OnEvent(config) =>
      J.Obj(With(With([J.Member("eventType", J.Str(EventTypeText(config.eventType)))],
                      "integrationId", OptionalText(config.integrationId)),
                 "integrationType", OptionalText(config.integrationType)))
    case OnStatus(config) =>
      J.Obj(With(With([J.Member("from", J.Str(WildcardText(config.from))), J.Member("to", J.Str(WildcardText(config.to))),
                       J.Member("forDurationSeconds", Number(config.forDurationSeconds))],
                      "integrationId", OptionalText(config.integrationId)),
                 "integrationType", OptionalText(config.integrationType)))
  }

  lemma LookupWith(ms: seq<J.Member>, key: string, v: Option<J.Json>, k: string)
    requires J.Lookup(ms, key) == None
    ensures J.Lookup(With(ms, key, v), k) == if k == key then v else J.Lookup(ms, k)
  {
    if v.Some? { assert With(ms, key, v)[..|ms|] == ms; }
  }

  /** The members of a literal object, looked up from its end. */
  lemma LookupLast(ms: seq<J.Member>, m: J.Member, k: string)
    ensures J.Lookup(ms + [m], k) == if k == m.key then Some(m.value) else J.Lookup(ms, k)
  {
    assert (ms + [m])[..|ms|] == ms;
  }

  lemma LookupOne(m: J.Member, k: string)
    ensures J.Lookup([m], k) == if k == m.key then Some(m.value) else None
  {
    assert [m][..0] == [];
  }

  lemma LookupTwo(a: J.Member, b: J.Member, k: string)
    ensures J.Lookup([a, b], k) == if k == b.key then Some(b.value) else if k == a.key then Some(a.value) else None
  {
    LookupOne(a, k);
    LookupLast([a], b, k);
    assert [a] + [b] == [a, b];
  }

  lemma LookupThree(a: J.Member, b: J.Member, c: J.Member, k: string)
    ensures J.Lookup([a, b, c], k)
            == if k == c.key then Some(c.value) else if k == b.key then Some(b.value)
               else if k == a.key then Some(a.value) else None
  {
    LookupTwo(a, b, k);
    LookupLast([a, b], c, k);
    assert [a, b] + [c] == [a, b, c];
  }

  lemma NumberReadsBack(n: nat, text: string)
    requires text == Decimal(n)
    ensures text != "" && AllDigits(text) && (|text| > 1 ==> text[0] != '0') && Digits(text) == n
  {
    DigitsOfDecimal(n);
    NoLeadingZero(n);
  }

  lemma TextsReadBack(t: EventType, status: Option<IntegrationStatus>)
    ensures EventTypeOfText(EventTypeText(t)) == Some(t)
    ensures WildcardOfText(WildcardText(status)) == Some(status)
  {
  }

  lemma RenderedScheduleParses(c: Config)
    requires ValidConfig(c) && TypeOfConfig(c) == Schedule
    ensures ParseTriggerConfig(Schedule, Render(c)) == Some(c)
  {
    hide Cron.CronOf, Cron.Trim, Utf16Length, Decimal, Digits, AllDigits, J.Lookup;
    match c
    case Every(n) =>
      var kind, every := J.Member("kind", J.Str("interval")), J.Member("everyMinutes", Number(n));
      LookupTwo(kind, every, "kind");
      LookupTwo(kind, every, "everyMinutes");
      NumberReadsBack(n, Decimal(n));
    case CronText(e) =>
      var kind, text, zone := J.Member("kind", J.Str("cron")), J.Member("expression", J.Str(e)), J.Member("timezone", J.Str("UTC"));
      LookupThree(kind, text, zone, "kind");
      LookupThree(kind, text, zone, "expression");
      LookupThree(kind, text, zone, "timezone");
      var v := Render(c);
      assert TextAt(v, "kind") == Some("cron");
      assert v.members[1].key == "expression";
      assert !IsStrict(v, {"everyMinutes"});
  }

  lemma RenderedEventParses(config: EventConfig)
    requires ValidConfig(OnEvent(config))
    ensures ParseTriggerConfig(Event, Render(OnEvent(config))) == Some(OnEvent(config))
  {
    hide J.Lookup, IsUuid, IsIntegrationType, EventTypeOfText, EventTypeText;
    TextsReadBack(config.eventType, None);
    var first := J.Member("eventType", J.Str(EventTypeText(config.eventType)));
    var ms := With([first], "integrationId", OptionalText(config.integrationId));
    forall k: string
      ensures J.Lookup([first], k) == if k == "eventType" then Some(first.value) else None
    {
      LookupOne(first, k);
    }
    forall k: string
      ensures J.Lookup(ms, k) == if k == "integrationId" then OptionalText(config.integrationId) else J.Lookup([first], k)
    {
      LookupWith([first], "integrationId", OptionalText(config.integrationId), k);
    }
    forall k: string
      ensures J.Lookup(Render(OnEvent(config)).members, k)
              == if k == "integrationType" then OptionalText(config.integrationType) else J.Lookup(ms, k)
    {
      LookupWith(ms, "integrationType", OptionalText(config.integrationType), k);
    }
  }

  lemma OptionsAreKnown(config: StatusConfig)
    ensures IsStrict(Render(OnStatus(config)), {"from", "to", "integrationId", "integrationType", "forDurationSeconds"})
  {
    hide WildcardText, Number;
  }

  lemma RenderedStatusParses(config: StatusConfig)
    requires ValidConfig(OnStatus(config))
    ensures ParseTriggerConfig(StatusTransition, Render(OnStatus(config))) == Some(OnStatus(config))
  {
    hide J.Lookup, With, IsUuid, IsIntegrationType, WildcardOfText, WildcardText, Decimal, Digits, AllDigits;
    OptionsAreKnown(config);
    TextsReadBack(StatusChanged, config.from);
    TextsReadBack(StatusChanged, config.to);
    NumberReadsBack(config.forDurationSeconds, Decimal(config.forDurationSeconds));
    var a, b := J.Member("from", J.Str(WildcardText(config.from))), J.Member("to", J.Str(WildcardText(config.to)));
    var c := J.Member("forDurationSeconds", Number(config.forDurationSeconds));
    var ms := With([a, b, c], "integrationId", OptionalText(config.integrationId));
    forall k: string
      ensures J.Lookup([a, b, c], k)
              == if k == c.key then Some(c.value) else if k == b.key then Some(b.value)
                 else if k == a.key then Some(a.value) else None
    {
      LookupThree(a, b, c, k);
    }
    forall k: string
      ensures J.Lookup(ms, k) == if k == "integrationId" then OptionalText(config.integrationId) else J.Lookup([a, b, c], k)
    {
      LookupWith([a, b, c], "integrationId", OptionalText(config.integrationId), k);
    }
    forall k: string
      ensures J.Lookup(Render(OnStatus(config)).members, k)
              == if k == "integrationType" then OptionalText(config.integrationType) else J.Lookup(ms, k)
    {
      LookupWith(ms, "integrationType", OptionalText(config.integrationType), k);
    }
  }

  /** Every valid configuration can be stored, and is read back as it was. */
  lemma RenderedConfigParses(c: Config)
    requires ValidConfig(c)
    ensures ParseTriggerConfig(TypeOfConfig(c), Render(c)) == Some(c)
  {
    hide ValidConfig, ParseTriggerConfig, Render;
    match c
    case OnEvent(config) => RenderedEventParses(config);
    case OnStatus(config) => RenderedStatusParses(config);
    case _ => RenderedScheduleParses(c);
  }

  /**
    What parsing accepts is a valid configuration of the declared type; a stored cron text is trimmed
    and means what the text as given meant, so reading it again never fails.
  */
  lemma ParsedConfigIsValid(t: TriggerType, v: J.Json)
    requires ParseTriggerConfig(t, v).Some?
    ensures var c := ParseTriggerConfig(t, v).value;
            && ValidConfig(c) && TypeOfConfig(c) == t
            && (c.CronText? ==> exists e :: TextAt(v, "expression") == Some(e) && Cron.CronOf(e) == Cron.CronOf(c.expression))
  {
    hide J.Lookup, IsUuid, IsIntegrationType, Utf16Length, Cron.HasNameOrMacro, Cron.CronOfFields, Cron.Words, Cron.Trim, Digits, AllDigits;
    if t == Schedule && ParseInterval(v).None? && ParseShorthand(v).None? {
      var e := TextAt(v, "expression").value;
      Cron.TrimIsFinal(e);
      assert Cron.CronOf(Cron.Trim(e)) == Cron.CronOf(e);
    }
  }

  // ---------------------------------------------------------------- key order

  /** Objects that differ in key order give the same value for every key, up to key order inside it. */
  lemma SameLookup(ms: seq<J.Member>, ns: seq<J.Member>, k: string)
    requires J.UniqueKeys(ms) && J.UniqueKeys(ns) && J.SameMembers(ms, ns)
    ensures J.Lookup(ms, k).Some? <==> J.Lookup(ns, k).Some?
    ensures J.Lookup(ms, k).Some? ==> J.Same(J.Lookup(ms, k).value, J.Lookup(ns, k).value)
  {
    hide J.Lookup, J.Same, J.UniqueKeys, J.HasTwin, J.IsTwin;
    if J.Lookup(ms, k).Some? { LookupTwin(ms, ns, k); }
    if J.Lookup(ns, k).Some? { LookupFromTwin(ms, ns, k); }
  }

  lemma LookupTwin(ms: seq<J.Member>, ns: seq<J.Member>, k: string)
    requires J.UniqueKeys(ns) && J.SameMembers(ms, ns) && J.Lookup(ms, k).Some?
    ensures J.Lookup(ns, k).Some? && J.Same(J.Lookup(ms, k).value, J.Lookup(ns, k).value)
  {
    hide J.Lookup, J.Same, J.IsTwin;
    J.LookupMeaning(ms, k);
    J.LookupMeaning(ns, k);
    var i :| 0 <= i < |ms| && ms[i] == J.Member(k, J.Lookup(ms, k).value);
    assert J.HasTwin(ms[i], ns);
    hide J.SameMembers;
    var j :| 0 <= j < |ns| && J.Twins(ms[i], ns[j]);
    assert ns[j].key == k;
  }

  lemma LookupFromTwin(ms: seq<J.Member>, ns: seq<J.Member>, k: string)
    requires J.SameMembers(ms, ns) && J.Lookup(ns, k).Some?
    ensures J.Lookup(ms, k).Some?
  {
    hide J.Lookup, J.Same, J.HasTwin;
    J.LookupMeaning(ms, k);
    J.LookupMeaning(ns, k);
    var j :| 0 <= j < |ns| && ns[j] == J.Member(k, J.Lookup(ns, k).value);
    assert J.IsTwin(ms, ns[j]);
    hide J.SameMembers;
    var i :| 0 <= i < |ms| && J.Twins(ms[i], ns[j]);
    assert ms[i].key == k;
  }

  lemma SameScalars(a: J.Json, b: J.Json)
    requires J.Same(a, b)
    ensures a.Str? || a.Num? || b.Str? || b.Num? ==> a == b
  {
  }

  lemma SameFields(a: J.Json, b: J.Json, k: string)
    requires a.Obj? && b.Obj? && J.Valid(a) && J.Valid(b) && J.Same(a, b)
    ensures TextAt(a, k) == TextAt(b, k) && Absent(a, k) == Absent(b, k)
    ensures forall min: nat, max: nat :: NumberAt(a, k, min, max) == NumberAt(b, k, min, max)
  {
    hide J.Lookup, J.UniqueKeys, J.SameMembers, Digits, AllDigits;
    SameLookup(a.members, b.members, k);
    if J.Lookup(a.members, k).Some? {
      SameScalars(J.Lookup(a.members, k).value, J.Lookup(b.members, k).value);
    }
    hide J.Same, J.Valid;
  }

  lemma SameStrictness(a: J.Json, b: J.Json, keys: set<string>)
    requires a.Obj? && b.Obj? && J.Same(a, b)
    ensures IsStrict(a, keys) == IsStrict(b, keys)
  {
    forall i, j | 0 <= i < |a.members| && 0 <= j < |b.members| && J.Twins(a.members[i], b.members[j])
      ensures a.members[i].key == b.members[j].key
    {
    }
    hide J.Same, J.Twins;
    forall i | 0 <= i < |a.members| ensures IsStrict(b, keys) ==> a.members[i].key in keys {
      assert J.HasTwin(a.members[i], b.members);
    }
    forall j | 0 <= j < |b.members| ensures IsStrict(a, keys) ==> b.members[j].key in keys {
      assert J.IsTwin(a.members, b.members[j]);
    }
  }

  /** Two objects that no reading of a field tells apart. */
  ghost predicate Alike(a: J.Json, b: J.Json) {
    && a.Obj? && b.Obj?
    && (forall k :: TextAt(a, k) == TextAt(b, k))
    && (forall k :: Absent(a, k) == Absent(b, k))
    && (forall k, min: nat, max: nat :: NumberAt(a, k, min, max) == NumberAt(b, k, min, max))
    && (forall keys :: IsStrict(a, keys) == IsStrict(b, keys))
  }

  lemma SameIsAlike(a: J.Json, b: J.Json)
    requires a.Obj? && b.Obj? && J.Valid(a) && J.Valid(b) && J.Same(a, b)
    ensures Alike(a, b)
  {
    hide J.Same, J.Valid, IsStrict, TextAt, NumberAt, Absent;
    forall k: string
      ensures TextAt(a, k) == TextAt(b, k)
      ensures Absent(a, k) == Absent(b, k)
    {
      SameFields(a, b, k);
    }
    forall k: string, min: nat, max: nat
      ensures NumberAt(a, k, min, max) == NumberAt(b, k, min, max)
    {
      SameFields(a, b, k);
    }
    forall keys: set<string>
      ensures IsStrict(a, keys) == IsStrict(b, keys)
    {
      SameStrictness(a, b, keys);
    }
  }

  lemma AlikeOptional(a: J.Json, b: J.Json, k: string, ok: string -> bool)
    requires Alike(a, b)
    ensures OptionalTextAt(a, k, ok) == OptionalTextAt(b, k, ok)
  {
    hide IsStrict, TextAt, NumberAt, Absent;
  }

  lemma AlikeSchedules(a: J.Json, b: J.Json)
    requires Alike(a, b)
    ensures ParseTriggerConfig(Schedule, a) == ParseTriggerConfig(Schedule, b)
  {
    hide IsStrict, TextAt, NumberAt, Absent, Cron.CronOf, Cron.Trim, Utf16Length;
  }

  lemma AlikeEvents(a: J.Json, b: J.Json)
    requires Alike(a, b)
    ensures ParseTriggerConfig(Event, a) == ParseTriggerConfig(Event, b)
  {
    AlikeOptional(a, b, "integrationId", IsUuid);
    AlikeOptional(a, b, "integrationType", IsIntegrationType);
    hide IsStrict, TextAt, NumberAt, Absent, OptionalTextAt, IsUuid, IsIntegrationType, EventTypeOfText;
  }

  lemma AlikeTransitions(a: J.Json, b: J.Json)
    requires Alike(a, b)
    ensures ParseTriggerConfig(StatusTransition, a) == ParseTriggerConfig(StatusTransition, b)
  {
    AlikeOptional(a, b, "integrationId", IsUuid);
    AlikeOptional(a, b, "integrationType", IsIntegrationType);
    hide IsStrict, TextAt, NumberAt, Absent, OptionalTextAt, IsUuid, IsIntegrationType, WildcardOfText;
    assert StatusShape(a) == StatusShape(b);
  }

  /** A database that reorders the keys of a stored object does not change what the rule means. */
  lemma ParseIgnoresKeyOrder(t: TriggerType, a: J.Json, b: J.Json)
    requires J.Valid(a) && J.Valid(b) && J.Same(a, b)
    ensures ParseTriggerConfig(t, a) == ParseTriggerConfig(t, b)
  {
    if a.Obj? {
      SameIsAlike(a, b);
      hide ParseTriggerConfig, Alike;
      match t
      case Schedule => AlikeSchedules(a, b);
      case Event => AlikeEvents(a, b);
      case StatusTransition => AlikeTransitions(a, b);
    } else {
      hide J.Valid, ParseTriggerConfig;
      NonObjectsRefused(t, a);
      NonObjectsRefused(t, b);
    }
  }

  lemma NonObjectsRefused(t: TriggerType, v: J.Json)
    requires !v.Obj?
    ensures ParseTriggerConfig(t, v) == None
  {
  }

  // ---------------------------------------------------------------- what is refused

  /**
    A well-formed status trigger is refused exactly when no event after any previous status can ever
    match it.
  */
  lemma RefusedExactlyWhenNothingMatches(v: J.Json)
    requires StatusShape(v).Some?
    ensures ParseStatus(v).None? <==>
            forall e: DomainEvent, previous: Option<IntegrationStatus> | e.IntegrationStatusChanged? && ValidEvent(e) ::
              !MatchesStatusTransition(StatusShape(v).value, previous, e.status, EventFields(e).value)
  {
    hide J.Lookup, IsStrict, NumberAt, TextAt, Absent, WildcardOfText, ValidEvent;
    var config := StatusShape(v).value;
    if ParseStatus(v).Some? {
      var (previous, current) := SomeTransition(config);
      var e := SomeEvent(config, current);
      EventPassesFilters(config, current);
      assert MatchesStatusTransition(config, Some(previous), e.status, EventFields(e).value);
    }
  }

  function SomeTransition(config: StatusConfig): (IntegrationStatus, IntegrationStatus) {
    if config.from.Some? then
      (config.from.value, if config.to.Some? then config.to.value else if config.from.value == Unknown then Available else Unknown)
    else if config.to.Some? then (if config.to.value == Unknown then Available else Unknown, config.to.value)
    else (Unknown, Available)
  }

  function SomeEvent(config: StatusConfig, current: IntegrationStatus): DomainEvent {
    IntegrationStatusChanged(if config.integrationId.Some? then config.integrationId.value else "a",
                             if config.integrationType.Some? then config.integrationType.value else "a",
                             current, "2024-01-01T00:00:00.000Z")
  }

  /** A UUID can name a resource in an event and a rule in a run key. */
  lemma UuidIsResourceId(s: string)
    requires IsUuid(s)
    ensures IsResourceId(s) && RunKeys.IsRuleId(s)
  {
    forall c | c in s
      ensures IsHexDigit(c) || c == '-'
    {
      var i :| 0 <= i < |s| && s[i] == c;
      assert if i in {8, 13, 18, 23} then s[i] == '-' else IsHexDigit(s[i]);
    }
  }

  lemma EventPassesFilters(config: StatusConfig, current: IntegrationStatus)
    requires ValidFilters(config.integrationId, config.integrationType)
    ensures var e := SomeEvent(config, current);
            ValidEvent(e) && MatchesFilters(config.integrationId, config.integrationType, EventFields(e).value)
  {
    hide IsUuid, IsIntegrationType, IsResourceId, Calendar.IsIsoDateTime;
    if config.integrationId.Some? { UuidIsResourceId(config.integrationId.value); }
    assert IsIntegrationType("a") && IsResourceId("a") by { LetterIsFine(); }
    MomentIsFine();
  }

  lemma LetterIsFine()
    ensures IsIntegrationType("a") && IsResourceId("a")
  {
    assert "a"[1..] == "";
  }

  lemma MomentIsFine()
    ensures Calendar.IsIsoDateTime("2024-01-01T00:00:00.000Z")
  {
  }

  // ---------------------------------------------------------------- meaning

  /** A valid configuration as the scheduler uses it. */
  function Denotes(c: Config): Trigger
    requires ValidConfig(c)
  {
    match c
    case Every(n) => ScheduleTrigger(Interval(n))
    case CronText(e) => ScheduleTrigger(CronSchedule(Cron.CronOf(e).value))
    case OnEvent(config) => EventTrigger(config)
    case OnStatus(config) => StatusTrigger(config)
  }

  /** A stored trigger: what the rest of the engine sees of it. */
  function SourceOf(t: TriggerType, v: J.Json): (r: TriggerSource)
    ensures DeclaredType(r) == t
  {
    if ParseTriggerConfig(t, v).None? then Broken(t)
    else
      assert ValidConfig(ParseTriggerConfig(t, v).value) && TypeOfConfig(ParseTriggerConfig(t, v).value) == t by {
        ParsedConfigIsValid(t, v);
      }
      Parsed(Denotes(ParseTriggerConfig(t, v).value))
  }

  /** A schedule moves forward: the next run lies strictly later, and for an interval it always exists. */
  lemma ScheduleMovesForward(c: Config, from: Time)
    requires ValidConfig(c) && TypeOfConfig(c) == Schedule
    ensures var next := Scheduler.NextScheduleRunAt(Denotes(c).schedule, from);
            && (next.Some? ==> from < next.value)
            && (c.Every? ==> next.Some? && next.value - from <= 24 * 60 * 60_000)
  {
    hide Cron.CronOf;
    if c.CronText? {
      hide Cron.MatchesCron, Cron.NextOccurrence, Cron.WholeMinute;
      Cron.NextOccurrenceIsTheResult(from, Cron.CronOf(c.expression).value);
    }
  }
}
