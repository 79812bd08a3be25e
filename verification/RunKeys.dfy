/**
  Run keys (packages/automations/src/run-key.ts).  A run key is the only thing that stops two
  workers from running one occurrence twice, so two different occurrences must never share a key
  and one occurrence must always get the same key.
*/
module RunKeys {
  import opened Common
  import opened Numerals
  import opened Evaluate
  import Calendar

  const RUN_KEY_MAX := 200
  const SEGMENT_MAX := 64

  /** The largest instant a `Date` can hold, in either direction. */
  const MAX_TIME := 8_640_000_000_000_000

  predicate IsDateTime(t: Time) { -MAX_TIME <= t <= MAX_TIME }

  predicate IsSafe(c: char) {
    'a' <= c <= 'z' || 'A' <= c <= 'Z' || '0' <= c <= '9' || c == '.' || c == '_' || c == ':' || c == '-'
  }

  /** The alphabet and length the run schema accepts. */
  predicate ValidRunKey(key: string) {
    1 <= |key| <= RUN_KEY_MAX && forall c | c in key :: IsSafe(c)
  }

  /** What keys need of a rule identifier; every UUID meets it. */
  predicate IsRuleId(s: string) {
    |s| == 36 && forall c | c in s :: 'a' <= c <= 'f' || 'A' <= c <= 'F' || '0' <= c <= '9' || c == '-'
  }

  function Take(s: string, n: nat): string { if |s| <= n then s else s[..n] }

  function ReplaceUnsafe(s: string): (r: string)
    ensures |r| == |s| && forall i | 0 <= i < |s| :: r[i] == if IsSafe(s[i]) then s[i] else '-'
  {
    if s == "" then "" else [if IsSafe(s[0]) then s[0] else '-'] + ReplaceUnsafe(s[1..])
  }

  function SanitizeSegment(s: string): (r: string)
    ensures 1 <= |r| <= SEGMENT_MAX && forall c | c in r :: IsSafe(c)
  {
    var cleaned := Take(ReplaceUnsafe(s), SEGMENT_MAX);
    if |cleaned| > 0 then cleaned else "x"
  }

  function ClampRunKey(s: string): string { Take(s, RUN_KEY_MAX) }

  function BuildScheduleRunKey(automationId: string, scheduledFor: Time): string {
    ClampRunKey(automationId + ":sch:" + IntText(scheduledFor))
  }

  function BuildStatusDebounceRunKey(automationId: string, pendingSinceIso: string, status: string): string {
    ClampRunKey(automationId + ":deb:" + SanitizeSegment(pendingSinceIso) + ":" + SanitizeSegment(status))
  }

  function EventTypeName(e: DomainEvent): string {
    match e
    case JobHeartbeat(_, _) => "job.heartbeat"
    case JobFailed(_, _, _) => "job.failed"
    case BoardUpdated(_, _) => "board.updated"
    case BoardDeleted(_, _) => "board.deleted"
    case IntegrationUpdated(_, _, _) => "integration.updated"
    case IntegrationDeleted(_, _, _) => "integration.deleted"
    case IntegrationStatusChanged(_, _, _, _) => "integration.status.changed"
    case IntegrationDataChanged(_, _, _) => "integration.data.changed"
    case NotificationCreated(_, _, _) => "notification.created"
    case NotificationUpdated(_, _, _) => "notification.updated"
    case NotificationDismissed(_, _, _) => "notification.dismissed"
    case SloBurnRateChanged(_, _, _, _, _) => "slo.burn-rate.changed"
    case DependencyImpactChanged(_, _, _) => "dependency.impact.changed"
  }

  /** The fields of an event that its key mentions. */
  function Subject(e: DomainEvent): seq<string> {
    match e
    case JobHeartbeat(j, _) => [j]
    case JobFailed(j, _, _) => [j]
    case BoardUpdated(b, _) => [b]
    case BoardDeleted(b, _) => [b]
    case IntegrationUpdated(i, _, _) => [i]
    case IntegrationDeleted(i, _, _) => [i]
    case IntegrationStatusChanged(i, _, _, _) => [i]
    case IntegrationDataChanged(i, _, _) => [i]
    case NotificationCreated(u, n, _) => [u, n]
    case NotificationUpdated(u, n, _) => [u, n]
    case NotificationDismissed(u, n, _) => [u, n]
    case SloBurnRateChanged(_, slo, state, w, _) => [slo, state, w]
    case DependencyImpactChanged(key, impact, _) => [key, impact]
  }

  function JoinSegments(segments: seq<string>): string {
    if segments == [] then "" else ":" + SanitizeSegment(segments[0]) + JoinSegments(segments[1..])
  }

  function BuildEventRunKey(automationId: string, e: DomainEvent): string {
    ClampRunKey(automationId + ":evt:" + SanitizeSegment(EventTypeName(e)) + ":" + SanitizeSegment(e.occurredAt)
                + JoinSegments(Subject(e)))
  }

  // ---------------------------------------------------------------- decimal text

  lemma TimeTextLength(t: Time)
    requires IsDateTime(t)
    ensures |IntText(t)| <= 17
  {
    assert Power10(16) == 10_000_000_000_000_000 by {
      assert Power10(4) == 10_000;
      assert Power10(8) == 10_000 * Power10(4);
      assert Power10(12) == 10_000 * Power10(8);
      assert Power10(16) == 10_000 * Power10(12);
    }
    DecimalLength(if t < 0 then -t else t, 16);
  }

  // ---------------------------------------------------------------- schedule keys

  /** One key per rule and slot: nothing is lost to the length limit. */
  lemma ScheduleKeyIdentifiesSlot(a: string, t: Time, b: string, u: Time)
    requires IsRuleId(a) && IsRuleId(b) && IsDateTime(t) && IsDateTime(u)
    ensures BuildScheduleRunKey(a, t) == BuildScheduleRunKey(b, u) <==> a == b && t == u
  {
    TimeTextLength(t);
    TimeTextLength(u);
    if BuildScheduleRunKey(a, t) == BuildScheduleRunKey(b, u) {
      var k, l := BuildScheduleRunKey(a, t), BuildScheduleRunKey(b, u);
      assert k == a + ":sch:" + IntText(t) && l == b + ":sch:" + IntText(u);
      assert k[..36] == a && l[..36] == b;
      assert k[41..] == IntText(t) && l[41..] == IntText(u);
      IntTextInjective(t, u);
    }
  }

  // ---------------------------------------------------------------- cutting at colons

  predicate NoColon(s: string) { ':' !in s }

  function ColonIndex(s: string): nat {
    if s == "" || s[0] == ':' then 0 else 1 + ColonIndex(s[1..])
  }

  lemma {:induction false} FirstColon(s: string, rest: string)
    requires NoColon(s)
    ensures ColonIndex(s + ":" + rest) == |s|
  {
    if s != "" {
      assert (s + ":" + rest)[1..] == s[1..] + ":" + rest;
      FirstColon(s[1..], rest);
    }
  }

  lemma CutAtColon(s: string, rest: string, s': string, rest': string)
    requires NoColon(s) && NoColon(s') && s + ":" + rest == s' + ":" + rest'
    ensures s == s' && rest == rest'
  {
    var whole := s + ":" + rest;
    assert |s| == |s'| by {
      FirstColon(s, rest);
      FirstColon(s', rest');
    }
    assert whole[..|s|] == s && whole[..|s'|] == s';
    assert whole[|s| + 1..] == rest && whole[|s'| + 1..] == rest';
  }

  /** A segment that is already clean is used as it is. */
  predicate CleanSegment(s: string) {
    1 <= |s| <= SEGMENT_MAX && forall c | c in s :: IsSafe(c)
  }

  lemma CleanStays(s: string)
    requires CleanSegment(s)
    ensures SanitizeSegment(s) == s
  {
    assert ReplaceUnsafe(s) == s;
  }

  lemma IsoIsClean(s: string)
    requires Calendar.IsIsoDateTime(s)
    ensures CleanSegment(s) && |s| == 24
  {
    forall i | 0 <= i < 24
      ensures IsSafe(s[i])
    {
      if i < 4 { assert s[i] in s[..4]; }
      else if 5 <= i < 7 { assert s[i] in s[5..7]; }
      else if 8 <= i < 10 { assert s[i] in s[8..10]; }
      else if 11 <= i < 13 { assert s[i] in s[11..13]; }
      else if 14 <= i < 16 { assert s[i] in s[14..16]; }
      else if 17 <= i < 19 { assert s[i] in s[17..19]; }
      else if 20 <= i < 23 { assert s[i] in s[20..23]; }
    }
  }

  // ---------------------------------------------------------------- debounce keys

  lemma StatusTextInjective(a: IntegrationStatus, b: IntegrationStatus)
    ensures StatusText(a) == StatusText(b) ==> a == b
  {
    assert |StatusText(Unknown)| == 7 && |StatusText(Available)| == 9 && |StatusText(Unavailable)| == 11;
  }

  lemma DebounceKeyShape(id: string, since: string, status: IntegrationStatus)
    requires IsRuleId(id) && Calendar.IsIsoDateTime(since)
    ensures BuildStatusDebounceRunKey(id, since, StatusText(status)) == id + ":deb:" + since + ":" + StatusText(status)
  {
    IsoIsClean(since);
    CleanStays(since);
    CleanStays(StatusText(status));
  }

  lemma DebounceKeyIdentifiesArming(a: string, since: string, status: IntegrationStatus,
                                    b: string, since': string, status': IntegrationStatus)
    requires IsRuleId(a) && IsRuleId(b) && Calendar.IsIsoDateTime(since) && Calendar.IsIsoDateTime(since')
    ensures BuildStatusDebounceRunKey(a, since, StatusText(status))
            == BuildStatusDebounceRunKey(b, since', StatusText(status'))
            <==> a == b && since == since' && status == status'
  {
    hide BuildStatusDebounceRunKey, Calendar.IsIsoDateTime;
    IsoIsClean(since);
    IsoIsClean(since');
    DebounceKeyShape(a, since, status);
    DebounceKeyShape(b, since', status');
    StatusTextInjective(status, status');
    var k := a + ":deb:" + since + ":" + StatusText(status);
    var l := b + ":deb:" + since' + ":" + StatusText(status');
    if k == l {
      assert k[..36] == a && l[..36] == b;
      assert k[41..65] == since && l[41..65] == since';
      assert k[66..] == StatusText(status) && l[66..] == StatusText(status');
    }
  }

  // ---------------------------------------------------------------- event keys

  /** Events a rule can be triggered by. */
  predicate IsTriggerEvent(e: DomainEvent) { ValidEvent(e) && EventTypeOf(e).Some? }

  predicate PlainSegments(segments: seq<string>) {
    forall s | s in segments :: CleanSegment(s) && NoColon(s)
  }

  lemma ResourceIdIsPlain(s: string)
    requires IsResourceId(s)
    ensures CleanSegment(s) && NoColon(s)
  {
  }

  lemma WordIsPlain(s: string)
    requires 1 <= |s| <= SEGMENT_MAX
    requires forall i | 0 <= i < |s| :: 'a' <= s[i] <= 'z' || s[i] == '-' || s[i] == '.'
    ensures CleanSegment(s) && NoColon(s)
  {
  }

  lemma SubjectIsPlain(e: DomainEvent)
    requires IsTriggerEvent(e)
    ensures PlainSegments(Subject(e))
    ensures Length(Subject(e)) <= 88 && |Subject(e)| > 0
  {
    hide Calendar.IsIsoDateTime, CleanSegment, NoColon, IsResourceId;
    var s := Subject(e);
    match e
    case JobFailed(j, _, _) =>
      WordIsPlain("heartbeat");
      assert Length(s[1..]) == 0;
    case IntegrationStatusChanged(i, _, _, _) =>
      ResourceIdIsPlain(i);
      IdLength(i);
      assert Length(s[1..]) == 0;
    case IntegrationDataChanged(i, _, _) =>
      ResourceIdIsPlain(i);
      IdLength(i);
      assert Length(s[1..]) == 0;
    case SloBurnRateChanged(_, slo, state, w, _) =>
      ResourceIdIsPlain(slo);
      IdLength(slo);
      StateIsPlain(state);
      WindowIsPlain(w);
      assert s[1..] == [state, w] && s[1..][1..] == [w] && s[1..][1..][1..] == [];
      assert Length([w]) == 1 + |w| + Length([]) && Length([state, w]) == 1 + |state| + Length([w]);
    case DependencyImpactChanged(key, impact, _) =>
      ResourceIdIsPlain(key);
      IdLength(key);
      ImpactIsPlain(impact);
      assert s[1..] == [impact] && s[1..][1..] == [];
      assert Length([impact]) == 1 + |impact| + Length([]);
  }

  lemma IdLength(s: string)
    requires IsResourceId(s)
    ensures |s| <= 64
  {
  }

  lemma StateIsPlain(s: string)
    requires s in {"healthy", "warning", "critical", "insufficient-data"}
    ensures CleanSegment(s) && NoColon(s) && |s| <= 17
  {
    WordIsPlain(s);
  }

  lemma WindowIsPlain(s: string)
    requires s in {"fast", "slow"}
    ensures CleanSegment(s) && NoColon(s) && |s| <= 4
  {
    WordIsPlain(s);
  }

  lemma ImpactIsPlain(s: string)
    requires s in {"none", "at-risk", "impacted"}
    ensures CleanSegment(s) && NoColon(s) && |s| <= 8
  {
    WordIsPlain(s);
  }

  function Length(segments: seq<string>): nat {
    if segments == [] then 0 else 1 + |segments[0]| + Length(segments[1..])
  }

  lemma {:induction false} JoinLength(segments: seq<string>)
    requires PlainSegments(segments)
    ensures |JoinSegments(segments)| == Length(segments)
  {
    if segments != [] {
      CleanStays(segments[0]);
      JoinLength(segments[1..]);
    }
  }

  lemma {:induction false} JoinInjective(a: seq<string>, b: seq<string>)
    requires PlainSegments(a) && PlainSegments(b) && |a| == |b| && JoinSegments(a) == JoinSegments(b)
    ensures a == b
  {
    hide CleanSegment, NoColon, SanitizeSegment;
    if |a| == 1 {
      CleanStays(a[0]);
      CleanStays(b[0]);
      assert JoinSegments(a[1..]) == "" && JoinSegments(b[1..]) == "";
      assert JoinSegments(a)[1..] == a[0] && JoinSegments(b)[1..] == b[0];
    } else if |a| > 1 {
      CleanStays(a[0]);
      CleanStays(b[0]);
      var restA, restB := JoinSegments(a[1..]), JoinSegments(b[1..]);
      assert restA == ":" + restA[1..] && restB == ":" + restB[1..];
      assert JoinSegments(a)[1..] == a[0] + ":" + restA[1..];
      assert JoinSegments(b)[1..] == b[0] + ":" + restB[1..];
      CutAtColon(a[0], restA[1..], b[0], restB[1..]);
      JoinInjective(a[1..], b[1..]);
      assert a == [a[0]] + a[1..] && b == [b[0]] + b[1..];
    }
  }

  lemma TypeNameIsPlain(e: DomainEvent)
    requires EventTypeOf(e).Some?
    ensures CleanSegment(EventTypeName(e)) && NoColon(EventTypeName(e)) && |EventTypeName(e)| <= 26
  {
    hide CleanSegment, NoColon;
    match e
    case IntegrationStatusChanged(_, _, _, _) => WordIsPlain("integration.status.changed");
    case IntegrationDataChanged(_, _, _) => WordIsPlain("integration.data.changed");
    case JobFailed(_, _, _) => WordIsPlain("job.failed");
    case SloBurnRateChanged(_, _, _, _, _) => WordIsPlain("slo.burn-rate.changed");
    case DependencyImpactChanged(_, _, _) => WordIsPlain("dependency.impact.changed");
  }

  lemma EventKeyShape(id: string, e: DomainEvent)
    requires IsRuleId(id) && IsTriggerEvent(e)
    ensures BuildEventRunKey(id, e)
            == id + ":evt:" + (EventTypeName(e) + ":" + (e.occurredAt + JoinSegments(Subject(e))))
  {
    hide Calendar.IsIsoDateTime, CleanSegment, NoColon, IsResourceId, SanitizeSegment, EventTypeName, Subject, JoinSegments;
    TypeNameIsPlain(e);
    CleanStays(EventTypeName(e));
    IsoIsClean(e.occurredAt);
    CleanStays(e.occurredAt);
    SubjectIsPlain(e);
    JoinLength(Subject(e));
    assert id + ":evt:" + EventTypeName(e) + ":" + e.occurredAt + JoinSegments(Subject(e))
        == id + ":evt:" + (EventTypeName(e) + ":" + (e.occurredAt + JoinSegments(Subject(e))));
  }

  /** Two triggering events get one key exactly when rule, type, time and subject agree. */
  lemma EventKeyIdentifiesSubject(a: string, e: DomainEvent, b: string, f: DomainEvent)
    requires IsRuleId(a) && IsRuleId(b) && IsTriggerEvent(e) && IsTriggerEvent(f)
    ensures BuildEventRunKey(a, e) == BuildEventRunKey(b, f)
            <==> a == b && EventTypeName(e) == EventTypeName(f) && e.occurredAt == f.occurredAt && Subject(e) == Subject(f)
  {
    hide Calendar.IsIsoDateTime, CleanSegment, NoColon, IsResourceId, BuildEventRunKey, EventTypeName, Subject, JoinSegments, Length;
    EventKeyShape(a, e);
    EventKeyShape(b, f);
    IsoIsClean(e.occurredAt);
    IsoIsClean(f.occurredAt);
    TypeNameIsPlain(e);
    TypeNameIsPlain(f);
    var restE := e.occurredAt + JoinSegments(Subject(e));
    var restF := f.occurredAt + JoinSegments(Subject(f));
    var k := a + ":evt:" + (EventTypeName(e) + ":" + restE);
    var l := b + ":evt:" + (EventTypeName(f) + ":" + restF);
    if k == l {
      assert k[..36] == a && l[..36] == b;
      assert k[41..] == EventTypeName(e) + ":" + restE && l[41..] == EventTypeName(f) + ":" + restF;
      CutAtColon(EventTypeName(e), restE, EventTypeName(f), restF);
      assert restE[..24] == e.occurredAt && restF[..24] == f.occurredAt;
      assert restE[24..] == JoinSegments(Subject(e)) && restF[24..] == JoinSegments(Subject(f));
      SameTypeSameArity(e, f);
      SubjectIsPlain(e);
      SubjectIsPlain(f);
      JoinInjective(Subject(e), Subject(f));
    }
  }

  lemma SameTypeSameArity(e: DomainEvent, f: DomainEvent)
    requires EventTypeName(e) == EventTypeName(f)
    ensures |Subject(e)| == |Subject(f)|
  {
  }

  /**
    The status itself is not part of the key: two status events of one integration in the same
    millisecond share a key, and only the first can run.
  */
  lemma StatusIsNotInTheKey(id: string, integration: string, kind: string, at: string)
    ensures BuildEventRunKey(id, IntegrationStatusChanged(integration, kind, Available, at))
            == BuildEventRunKey(id, IntegrationStatusChanged(integration, kind, Unavailable, at))
  {
  }

  // ---------------------------------------------------------------- all keys

  /** What one automatic run is for. */
  datatype Cause =
    | Slot(at: Time)
    | Arming(since: Time, status: IntegrationStatus)
    | Occurrence(event: DomainEvent)

  predicate ValidCause(c: Cause) {
    match c
    case Slot(t) => IsDateTime(t)
    case Arming(since, _) => Calendar.InIsoRange(since)
    case Occurrence(e) => IsTriggerEvent(e)
  }

  function RunKey(id: string, c: Cause): string {
    match c
    case Slot(t) => BuildScheduleRunKey(id, t)
    case Arming(since, status) => BuildStatusDebounceRunKey(id, Calendar.IsoString(since), StatusText(status))
    case Occurrence(e) => BuildEventRunKey(id, e)
  }

  function Marker(c: Cause): string {
    match c
    case Slot(_) => ":sch:"
    case Arming(_, _) => ":deb:"
    case Occurrence(_) => ":evt:"
  }

  lemma KeyPrefix(id: string, c: Cause)
    requires IsRuleId(id) && ValidCause(c)
    ensures |RunKey(id, c)| > 41 && RunKey(id, c)[..36] == id && RunKey(id, c)[36..41] == Marker(c)
  {
    hide Calendar.IsIsoDateTime, IsResourceId, BuildEventRunKey, BuildStatusDebounceRunKey, EventTypeName, Subject, JoinSegments, Calendar.IsoString, Calendar.InIsoRange;
    match c
    case Slot(t) => TimeTextLength(t);
    case Arming(since, status) =>
      Calendar.IsoStringShape(since);
      DebounceKeyShape(id, Calendar.IsoString(since), status);
    case Occurrence(e) => EventKeyShape(id, e);
  }

  /** The three key spaces are disjoint, and so are the spaces of different rules. */
  lemma KeySpacesDisjoint(a: string, c: Cause, b: string, d: Cause)
    requires IsRuleId(a) && IsRuleId(b) && ValidCause(c) && ValidCause(d)
    requires RunKey(a, c) == RunKey(b, d)
    ensures a == b && c.Slot? == d.Slot? && c.Arming? == d.Arming? && c.Occurrence? == d.Occurrence?
  {
    hide RunKey, IsRuleId, ValidCause;
    KeyPrefix(a, c);
    KeyPrefix(b, d);
    assert ":sch:"[1] == 's' && ":deb:"[1] == 'd' && ":evt:"[1] == 'e';
  }

  /** Same slot, same arming, or events of one type, instant and subject. */
  predicate SameOccurrence(c: Cause, d: Cause) {
    match c
    case Slot(t) => d == Slot(t)
    case Arming(since, status) => d == Arming(since, status)
    case Occurrence(e) =>
      d.Occurrence? && EventTypeName(e) == EventTypeName(d.event) && e.occurredAt == d.event.occurredAt
      && Subject(e) == Subject(d.event)
  }

  /** A key stands for one occurrence of one rule: keys agree exactly when rule and occurrence do. */
  lemma RunKeyIdentifiesOccurrence(a: string, c: Cause, b: string, d: Cause)
    requires IsRuleId(a) && IsRuleId(b) && ValidCause(c) && ValidCause(d)
    ensures RunKey(a, c) == RunKey(b, d) <==> a == b && SameOccurrence(c, d)
  {
    hide BuildScheduleRunKey, BuildStatusDebounceRunKey, BuildEventRunKey, IsTriggerEvent, EventTypeName, Subject,
         Calendar.IsoString, Calendar.InIsoRange, Calendar.IsIsoDateTime;
    if RunKey(a, c) == RunKey(b, d) {
      KeySpacesDisjoint(a, c, b, d);
    }
    if (a == b && SameOccurrence(c, d)) || RunKey(a, c) == RunKey(b, d) {
      match c
      case Slot(t) => ScheduleKeyIdentifiesSlot(a, t, b, d.at);
      case Arming(since, status) =>
        Calendar.IsoStringShape(since);
        Calendar.IsoStringShape(d.since);
        DebounceKeyIdentifiesArming(a, Calendar.IsoString(since), status, b, Calendar.IsoString(d.since), d.status);
        if Calendar.IsoString(since) == Calendar.IsoString(d.since) {
          Calendar.IsoStringInjective(since, d.since);
        }
      case Occurrence(e) => EventKeyIdentifiesSubject(a, e, b, d.event);
    }
  }

  /** Every key the scheduler builds is accepted by the run schema. */
  lemma KeysAreValid(id: string, c: Cause)
    requires IsRuleId(id) && ValidCause(c)
    ensures ValidRunKey(RunKey(id, c))
  {
    hide Calendar.IsIsoDateTime, IsResourceId, EventTypeName, Subject, JoinSegments, Calendar.IsoString, Calendar.InIsoRange,
         IsTriggerEvent, SanitizeSegment, IntText;
    match c
    case Slot(t) =>
      TimeTextLength(t);
      ClampIsSafe(id + ":sch:" + IntText(t));
    case Arming(since, status) =>
      ClampIsSafe(id + ":deb:" + SanitizeSegment(Calendar.IsoString(since)) + ":" + SanitizeSegment(StatusText(status)));
    case Occurrence(e) =>
      JoinIsSafe(Subject(e));
      ClampIsSafe(id + ":evt:" + SanitizeSegment(EventTypeName(e)) + ":" + SanitizeSegment(e.occurredAt)
                  + JoinSegments(Subject(e)));
  }

  lemma ClampIsSafe(whole: string)
    requires |whole| > 0 && forall c | c in whole :: IsSafe(c)
    ensures ValidRunKey(ClampRunKey(whole))
  {
  }

  lemma {:induction false} JoinIsSafe(segments: seq<string>)
    ensures forall c | c in JoinSegments(segments) :: IsSafe(c)
  {
    if segments != [] {
      JoinIsSafe(segments[1..]);
    }
  }
}
