/**
  Domain events, trigger configurations and the decision whether a rule fires
  (packages/automations/src/evaluate.ts, packages/automations/src/triggers.ts).
*/
module Evaluate {
  import opened Common
  import Calendar
  import Cron
  import C = Conditions

  datatype IntegrationStatus = Unknown | Available | Unavailable

  function StatusText(s: IntegrationStatus): string {
    match s
    case Unknown => "unknown"
    case Available => "available"
    case Unavailable => "unavailable"
  }

  datatype DomainEvent =
    | JobHeartbeat(jobType: string, occurredAt: string)
    | JobFailed(jobType: string, errorCode: string, occurredAt: string)
    | BoardUpdated(boardId: string, occurredAt: string)
    | BoardDeleted(boardId: string, occurredAt: string)
    | IntegrationUpdated(integrationId: string, integrationType: string, occurredAt: string)
    | IntegrationDeleted(integrationId: string, integrationType: string, occurredAt: string)
    | IntegrationStatusChanged(integrationId: string, integrationType: string, status: IntegrationStatus, occurredAt: string)
    | IntegrationDataChanged(integrationId: string, integrationType: string, occurredAt: string)
    | NotificationCreated(userId: string, notificationId: string, occurredAt: string)
    | NotificationUpdated(userId: string, notificationId: string, occurredAt: string)
    | NotificationDismissed(userId: string, notificationId: string, occurredAt: string)
    | SloBurnRateChanged(serviceKey: string, sloId: string, state: string, window: string, occurredAt: string)
    | DependencyImpactChanged(serviceKey: string, impactStatus: string, occurredAt: string)

  predicate IsResourceId(s: string) {
    1 <= |s| <= 64 && forall c | c in s :: 'a' <= c <= 'z' || 'A' <= c <= 'Z' || '0' <= c <= '9' || c == '_' || c == '-'
  }

  predicate IsIntegrationType(s: string) { 1 <= |s| && Utf16Length(s) <= 64 }

  /** The event schema, as far as the rules read it. */
  predicate ValidEvent(e: DomainEvent) {
    && Calendar.IsIsoDateTime(e.occurredAt)
    && match e
       case JobHeartbeat(j, _) => j == "heartbeat"
       case JobFailed(j, code, _) => j == "heartbeat" && code in {"REDIS_DOWN", "INTERNAL_ERROR"}
       case BoardUpdated(b, _) => IsResourceId(b)
       case BoardDeleted(b, _) => IsResourceId(b)
       case IntegrationUpdated(i, t, _) => IsResourceId(i) && IsIntegrationType(t)
       case IntegrationDeleted(i, t, _) => IsResourceId(i) && IsIntegrationType(t)
       case IntegrationStatusChanged(i, t, _, _) => IsResourceId(i) && IsIntegrationType(t)
       case IntegrationDataChanged(i, t, _) => IsResourceId(i) && IsIntegrationType(t)
       case NotificationCreated(u, n, _) => IsResourceId(u) && IsResourceId(n)
       case NotificationUpdated(u, n, _) => IsResourceId(u) && IsResourceId(n)
       case NotificationDismissed(u, n, _) => IsResourceId(u) && IsResourceId(n)
       case SloBurnRateChanged(k, s, state, w, _) =>
         IsResourceId(k) && IsResourceId(s) && w in {"fast", "slow"}
         && state in {"healthy", "warning", "critical", "insufficient-data"}
       case DependencyImpactChanged(k, s, _) => IsResourceId(k) && s in {"none", "at-risk", "impacted"}
  }

  // ---------------------------------------------------------------- triggers

  datatype EventType = StatusChanged | DataChanged | JobFailure | BurnRateChanged | ImpactChanged

  datatype ScheduleConfig = Interval(everyMinutes: nat) | CronSchedule(cron: Cron.ParsedCron)

  datatype EventConfig = EventConfig(eventType: EventType, integrationId: Option<string>, integrationType: Option<string>)

  /** In `from` and `to`, None is the wildcard. */
  datatype StatusConfig = StatusConfig(
    from: Option<IntegrationStatus>,
    to: Option<IntegrationStatus>,
    integrationId: Option<string>,
    integrationType: Option<string>,
    forDurationSeconds: nat)

  datatype Trigger = ScheduleTrigger(schedule: ScheduleConfig) | EventTrigger(event: EventConfig) | StatusTrigger(transition: StatusConfig)

  datatype TriggerType = Schedule | Event | StatusTransition

  function TypeOf(t: Trigger): TriggerType {
    match t
    case ScheduleTrigger(_) => Schedule
    case EventTrigger(_) => Event
    case StatusTrigger(_) => StatusTransition
  }

  /** A stored trigger either parses, or is one whose parsing throws. */
  datatype TriggerSource = Parsed(trigger: Trigger) | Broken(declared: TriggerType)

  function DeclaredType(s: TriggerSource): TriggerType {
    match s
    case Parsed(t) => TypeOf(t)
    case Broken(d) => d
  }

  function AllowedFields(t: Trigger): set<C.Field> {
    match t
    case ScheduleTrigger(_) => {}
    case EventTrigger(config) =>
      (match config.eventType
       case StatusChanged => {C.Status, C.IntegrationType, C.IntegrationId}
       case DataChanged => {C.IntegrationType, C.IntegrationId}
       case JobFailure => {C.ErrorCode, C.JobType}
       case BurnRateChanged => {C.ServiceKey, C.SloId, C.BurnState, C.Window}
       case ImpactChanged => {C.ServiceKey, C.ImpactStatus})
    case StatusTrigger(_) => {C.Status, C.PreviousStatus, C.IntegrationType, C.IntegrationId}
  }

  // ---------------------------------------------------------------- evaluation

  datatype SkipReason = Mismatch | ConditionFalse | Cooldown | Loop | UnknownEvent

  datatype Evaluation = Match | Skip(reason: SkipReason)

  datatype Input = Input(
    automationId: string,
    source: TriggerSource,
    condition: C.Raw,
    cooldownSeconds: int,
    lastTriggeredAt: Option<Time>,
    lastObservedStatus: Option<IntegrationStatus>,
    causation: Option<string>,
    now: Time,
    event: Option<DomainEvent>)

  predicate InCooldown(last: Option<Time>, cooldownSeconds: int, now: Time) {
    last.Some? && cooldownSeconds > 0 && now - last.value < cooldownSeconds * 1000
  }

  /** An event that names the rule itself as its cause would make it loop. */
  predicate CausedByItself(input: Input) { input.causation == Some(input.automationId) && input.automationId != "" }

  function EventTypeOf(e: DomainEvent): Option<EventType> {
    match e
    case IntegrationStatusChanged(_, _, _, _) => Some(StatusChanged)
    case IntegrationDataChanged(_, _, _) => Some(DataChanged)
    case JobFailed(_, _, _) => Some(JobFailure)
    case SloBurnRateChanged(_, _, _, _, _) => Some(BurnRateChanged)
    case DependencyImpactChanged(_, _, _) => Some(ImpactChanged)
    case _ => None
  }

  function EventFields(e: DomainEvent): Option<map<C.Field, C.Value>> {
    match e
    case IntegrationStatusChanged(id, kind, status, _) =>
      Some(map[C.Status := C.StringValue(StatusText(status)), C.IntegrationType := C.StringValue(kind),
               C.IntegrationId := C.StringValue(id)])
    case IntegrationDataChanged(id, kind, _) =>
      Some(map[C.IntegrationType := C.StringValue(kind), C.IntegrationId := C.StringValue(id)])
    case JobFailed(job, code, _) =>
      Some(map[C.JobType := C.StringValue(job), C.ErrorCode := C.StringValue(code)])
    case SloBurnRateChanged(key, slo, state, window, _) =>
      Some(map[C.ServiceKey := C.StringValue(key), C.SloId := C.StringValue(slo),
               C.BurnState := C.StringValue(state), C.Window := C.StringValue(window)])
    case DependencyImpactChanged(key, impact, _) =>
      Some(map[C.ServiceKey := C.StringValue(key), C.ImpactStatus := C.StringValue(impact)])
    case _ => None
  }

  predicate MatchesFilters(wantedId: Option<string>, wantedType: Option<string>, fields: map<C.Field, C.Value>) {
    && (wantedId.Some? ==> C.IntegrationId in fields && fields[C.IntegrationId] == C.StringValue(wantedId.value))
    && (wantedType.Some? ==> C.IntegrationType in fields && fields[C.IntegrationType] == C.StringValue(wantedType.value))
  }

  predicate MatchesStatusTransition(config: StatusConfig, previous: Option<IntegrationStatus>, current: IntegrationStatus,
                                    fields: map<C.Field, C.Value>)
  {
    if previous.None? || previous.value == current then false
    else if config.from.Some? && config.from != previous then false
    else if config.to.Some? && config.to.value != current then false
    else MatchesFilters(config.integrationId, config.integrationType, fields)
  }

  function TransitionFields(fields: map<C.Field, C.Value>, previous: Option<IntegrationStatus>): map<C.Field, C.Value> {
    fields[C.PreviousStatus := C.StringValue(if previous.Some? then StatusText(previous.value) else "")]
  }

  /** `evaluateAutomationTrigger` */
  function EvaluateTrigger(input: Input): Evaluation {
    if CausedByItself(input) then Skip(Loop)
    else if InCooldown(input.lastTriggeredAt, input.cooldownSeconds, input.now) then Skip(Cooldown)
    else if input.source.Broken? then Skip(Mismatch)
    else
      var trigger := input.source.trigger;
      match C.ParseConditionConfig(AllowedFields(trigger), input.condition)
      case Err(_) => Skip(Mismatch)
      case Ok(condition) =>
        match trigger
        case ScheduleTrigger(_) => if input.event.Some? then Skip(Mismatch) else Match
        case EventTrigger(config) =>
          (if input.event.None? || !ValidEvent(input.event.value) then Skip(UnknownEvent)
           else
             var e := input.event.value;
             if EventTypeOf(e) != Some(config.eventType) then Skip(Mismatch)
             else
               match EventFields(e)
               case None => Skip(UnknownEvent)
               case Some(fields) =>
                 if !MatchesFilters(config.integrationId, config.integrationType, fields) then Skip(Mismatch)
                 else if !C.EvaluateOptional(condition, fields) then Skip(ConditionFalse)
                 else Match)
        case StatusTrigger(config) =>
          (if input.event.None? || !ValidEvent(input.event.value) then Skip(UnknownEvent)
           else
             var e := input.event.value;
             if !e.IntegrationStatusChanged? then Skip(Mismatch)
             else
               var fields := EventFields(e).value;
               if !MatchesStatusTransition(config, input.lastObservedStatus, e.status, fields) then Skip(Mismatch)
               else if !C.EvaluateOptional(condition, TransitionFields(fields, input.lastObservedStatus))
               then Skip(ConditionFalse)
               else Match)
  }

  /** Every field a condition may mention is present on every event that reaches it. */
  lemma EventsProvideTheirFields(trigger: Trigger, e: DomainEvent, previous: Option<IntegrationStatus>)
    ensures trigger.EventTrigger? && EventTypeOf(e) == Some(trigger.event.eventType)
            ==> EventFields(e).Some? && C.Provides(EventFields(e).value, AllowedFields(trigger))
    ensures trigger.StatusTrigger? && e.IntegrationStatusChanged?
            ==> C.Provides(TransitionFields(EventFields(e).value, previous), AllowedFields(trigger))
  {
  }

  /** What an accepted condition says about an event, in classical logic. */
  ghost predicate ConditionHolds(trigger: Trigger, raw: C.Raw, fields: map<C.Field, C.Value>) {
    match C.ParseConditionConfig(AllowedFields(trigger), raw)
    case Err(_) => false
    case Ok(None) => true
    case Ok(Some(n)) => C.Holds(n, C.FactsOf(fields))
  }

  lemma ConditionIsClassical(trigger: Trigger, raw: C.Raw, fields: map<C.Field, C.Value>)
    requires C.Provides(fields, AllowedFields(trigger))
    requires C.ParseConditionConfig(AllowedFields(trigger), raw).Ok?
    ensures C.EvaluateOptional(C.ParseConditionConfig(AllowedFields(trigger), raw).value, fields)
            <==> ConditionHolds(trigger, raw, fields)
  {
    var allowed := AllowedFields(trigger);
    var parsed := C.ParseConditionConfig(allowed, raw).value;
    if parsed.Some? {
      C.AcceptedExactly(allowed, raw, parsed.value);
      C.EvaluateIsClassical(parsed.value, fields, allowed);
    }
  }

  lemma TransitionFiltersMeaning(config: StatusConfig, last: Option<IntegrationStatus>, e: DomainEvent)
    requires e.IntegrationStatusChanged?
    ensures EventFields(e).Some?
    ensures MatchesStatusTransition(config, last, e.status, EventFields(e).value) <==>
            && last.Some? && last.value != e.status && config.from in {None, last} && config.to in {None, Some(e.status)}
            && config.integrationId in {None, Some(e.integrationId)} && config.integrationType in {None, Some(e.integrationType)}
  {
  }

  /** A status rule matches exactly when the stated transition happened and its condition holds. */
  lemma TransitionMatchesExactly(input: Input)
    requires input.source.Parsed? && input.source.trigger.StatusTrigger?
    ensures EvaluateTrigger(input) == Match <==>
            && !CausedByItself(input)
            && !InCooldown(input.lastTriggeredAt, input.cooldownSeconds, input.now)
            && input.event.Some? && ValidEvent(input.event.value) && input.event.value.IntegrationStatusChanged?
            && var config, e := input.source.trigger.transition, input.event.value;
               && input.lastObservedStatus.Some? && input.lastObservedStatus.value != e.status
               && config.from in {None, input.lastObservedStatus}
               && config.to in {None, Some(e.status)}
               && config.integrationId in {None, Some(e.integrationId)}
               && config.integrationType in {None, Some(e.integrationType)}
               && ConditionHolds(input.source.trigger, input.condition,
                                 TransitionFields(EventFields(e).value, input.lastObservedStatus))
  {
    hide ValidEvent, C.ParseConditionConfig, MatchesStatusTransition, EventFields, TransitionFields, AllowedFields, C.Provides,
         C.EvaluateOptional, InCooldown, CausedByItself;
    if input.event.Some? && input.event.value.IntegrationStatusChanged? {
      var trigger, e := input.source.trigger, input.event.value;
      EventsProvideTheirFields(trigger, e, input.lastObservedStatus);
      TransitionFiltersMeaning(trigger.transition, input.lastObservedStatus, e);
      if C.ParseConditionConfig(AllowedFields(trigger), input.condition).Ok? {
        ConditionIsClassical(trigger, input.condition, TransitionFields(EventFields(e).value, input.lastObservedStatus));
      }
    }
  }

  /** An event rule matches exactly when an event of its type passes its filters and its condition. */
  lemma EventMatchesExactly(input: Input)
    requires input.source.Parsed? && input.source.trigger.EventTrigger?
    ensures EvaluateTrigger(input) == Match <==>
            && !CausedByItself(input)
            && !InCooldown(input.lastTriggeredAt, input.cooldownSeconds, input.now)
            && input.event.Some? && ValidEvent(input.event.value)
            && var config, e := input.source.trigger.event, input.event.value;
               && EventTypeOf(e) == Some(config.eventType)
               && MatchesFilters(config.integrationId, config.integrationType, EventFields(e).value)
               && ConditionHolds(input.source.trigger, input.condition, EventFields(e).value)
  {
    hide ValidEvent, C.ParseConditionConfig;
    if input.event.Some? {
      var trigger, e := input.source.trigger, input.event.value;
      EventsProvideTheirFields(trigger, e, None);
      if EventTypeOf(e) == Some(trigger.event.eventType)
         && C.ParseConditionConfig(AllowedFields(trigger), input.condition).Ok? {
        ConditionIsClassical(trigger, input.condition, EventFields(e).value);
      }
    }
  }

  /** An event type that carries no integration can never pass a filter on one. */
  lemma FilterOnForeignFieldNeverMatches(input: Input)
    requires input.source.Parsed? && input.source.trigger.EventTrigger?
    requires input.source.trigger.event.eventType in {JobFailure, BurnRateChanged, ImpactChanged}
    requires input.source.trigger.event.integrationId.Some? || input.source.trigger.event.integrationType.Some?
    ensures EvaluateTrigger(input).Skip?
  {
  }
}
