/**
  The debounce state machine of status-transition rules (packages/automations/src/scheduler.ts,
  #processEvent and #processStatusDebounce).

  A status event or a timer tick runs one section under the rule's lease.  Sections of one rule
  are taken one after another and each is atomic, as the lease intends; but the row that was read
  before the lease was granted may be arbitrarily old, and the code falls back on it.
*/
module Debounce {
  import opened Common
  import opened Evaluate
  import opened AutomationStore
  import opened RunKeys
  import Calendar
  import C = Conditions

  // ---------------------------------------------------------------- the two sections

  /** `readPendingDebounce`: records with empty identifiers do not count. */
  function ReadPending(o: Option<Observed>): Option<Pending> {
    if o.Some? && o.value.pending.Some?
       && |o.value.pending.value.integrationId| > 0 && |o.value.pending.value.integrationType| > 0
    then o.value.pending
    else None
  }

  function StatusOf(o: Option<Observed>): Option<IntegrationStatus> {
    if o.Some? then Some(o.value.status) else None
  }

  /** `fresh?.column ?? runtime.column` */
  function Fallback<T>(current: Option<T>, stale: Option<T>): Option<T> {
    if current.Some? then current else stale
  }

  predicate MatchesStatusFilters(config: StatusConfig, integrationId: string, integrationType: string) {
    config.integrationId in {None, Some(integrationId)} && config.integrationType in {None, Some(integrationType)}
  }

  function EvaluateRule(id: RuleId, rule: Rule, lastTriggeredAt: Option<Time>, last: Option<IntegrationStatus>,
                        now: Time, event: DomainEvent): Evaluation
  {
    EvaluateTrigger(Input(id, rule.source, rule.condition, rule.cooldownSeconds, lastTriggeredAt, last, None, now, Some(event)))
  }

  /** No pending transition: `observedStateWithPending(status, null)` with a null `nextRunAt`. */
  function Cleared(row: Runtime, status: IntegrationStatus): Runtime {
    row.(observed := Some(Observed(status, None)), nextRunAt := None)
  }

  predicate IsStatusRule(rule: Rule) { DeclaredType(rule.source) == StatusTransition }

  /** #processEvent on a status event, under the lease: the new row and what to dispatch. */
  function StatusSection(id: RuleId, rule: Rule, row: Runtime, stale: Runtime, now: Time, e: DomainEvent)
    : (Runtime, Option<Cause>)
    requires IsStatusRule(rule) && e.IntegrationStatusChanged?
  {
    var previous := Fallback(row.observed, stale.observed);
    if rule.source.Broken? then (row, None)
    else
      var config := rule.source.trigger.transition;
      if !MatchesStatusFilters(config, e.integrationId, e.integrationType) then (Cleared(row, e.status), None)
      else
        var evaluation := EvaluateRule(id, rule, Fallback(row.lastTriggeredAt, stale.lastTriggeredAt),
                                       StatusOf(previous), now, e);
        if config.forDurationSeconds <= 0 then
          (Cleared(row, e.status), if evaluation.Skip? then None else Some(Occurrence(e)))
        else if evaluation.Match? then
          if previous.None? then (Cleared(row, e.status), None)
          else
            var pending := Pending(previous.value.status, e.status, now, e.integrationId, e.integrationType);
            (row.(observed := Some(Observed(e.status, Some(pending))),
                  nextRunAt := Some(now + config.forDurationSeconds * 1000)), None)
        else
          var pending := ReadPending(previous);
          if pending.Some? && pending.value.to == e.status
          then (row.(observed := Some(Observed(e.status, pending))), None)
          else (Cleared(row, e.status), None)
  }

  /** The event the timer replays: the transition that was armed. */
  function Replay(p: Pending): DomainEvent {
    IntegrationStatusChanged(p.integrationId, p.integrationType, p.to, Calendar.IsoString(p.since))
  }

  predicate Due(row: Runtime, now: Time) { row.nextRunAt.Some? && row.nextRunAt.value <= now }

  /** #processStatusDebounce, under the lease. */
  function TimerSection(id: RuleId, rule: Rule, row: Runtime, stale: Runtime, now: Time): (Runtime, Option<Cause>)
    requires IsStatusRule(rule)
  {
    if !Due(stale, now) then (row, None)
    else
      var state := Fallback(row.observed, stale.observed);
      var pending := ReadPending(state);
      if state.None? || pending.None? || pending.value.to != state.value.status then
        (if state.Some? then Cleared(row, state.value.status) else row.(observed := None, nextRunAt := None), None)
      else if rule.source.Broken? then (Cleared(row, state.value.status), None)
      else
        var p := pending.value;
        var config := rule.source.trigger.transition;
        if config.forDurationSeconds <= 0 || now - p.since < config.forDurationSeconds * 1000 then (row, None)
        else
          var evaluation := EvaluateRule(id, rule, Fallback(row.lastTriggeredAt, stale.lastTriggeredAt),
                                         Some(p.from), now, Replay(p));
          (Cleared(row, state.value.status),
           if evaluation.Skip? then None else Some(Arming(p.since, state.value.status)))
  }

  // ---------------------------------------------------------------- runs

  /** `seen` is the index of the state that was read before the lease was granted. */
  datatype Step =
    | OnStatus(now: Time, event: DomainEvent, seen: nat)
    | OnTimer(now: Time, seen: nat)
    | OnReset(next: Option<Time>)
    | OnCompleted(at: Time, failures: int)
    | OnLease(owner: Option<WorkerId>, until: Option<Time>)

  datatype History = History(id: RuleId, rule: Rule, rows: seq<Runtime>, steps: seq<Step>, fires: seq<Option<Cause>>)

  predicate LegalStep(s: Step, i: nat) {
    match s
    case OnStatus(now, e, seen) =>
      seen <= i && Calendar.InIsoRange(now) && ValidEvent(e) && e.IntegrationStatusChanged?
    case OnTimer(_, seen) => seen <= i
    case _ => true
  }

  ghost predicate StepAt(h: History, i: nat)
    requires IsStatusRule(h.rule) && i < |h.steps| && |h.rows| == |h.steps| + 1 && |h.fires| == |h.steps|
  {
    && LegalStep(h.steps[i], i)
    && (h.rows[i + 1], h.fires[i]) ==
       match h.steps[i]
       case OnStatus(now, e, seen) => StatusSection(h.id, h.rule, h.rows[i], h.rows[seen], now, e)
       case OnTimer(now, seen) => TimerSection(h.id, h.rule, h.rows[i], h.rows[seen], now)
       case OnReset(next) => (h.rows[i].(nextRunAt := next, leaseOwner := None, leaseUntil := None), None)
       case OnCompleted(at, failures) =>
         (h.rows[i].(lastTriggeredAt := Some(at), lastCompletedAt := Some(at), failureCount := failures), None)
       case OnLease(owner, until) => (h.rows[i].(leaseOwner := owner, leaseUntil := until), None)
  }

  ghost predicate Run(h: History) {
    && IsStatusRule(h.rule) && |h.rows| == |h.steps| + 1 && |h.fires| == |h.steps|
    && h.rows[0].observed.None? && h.rows[0].lastTriggeredAt.None?
    && forall i | 0 <= i < |h.steps| :: StepAt(h, i)
  }

  // ---------------------------------------------------------------- the stale read is harmless

  /** Observed state and last trigger time never become null again. */
  lemma {:induction false} ColumnsOnlyFill(h: History, j: nat, i: nat)
    requires Run(h) && j <= i < |h.rows|
    ensures h.rows[j].observed.Some? ==> h.rows[i].observed.Some?
    ensures h.rows[j].lastTriggeredAt.Some? ==> h.rows[i].lastTriggeredAt.Some?
    decreases i
  {
    hide StatusSection, TimerSection;
    if j < i {
      ColumnsOnlyFill(h, j, i - 1);
      assert StepAt(h, i - 1);
      match h.steps[i - 1]
      case OnStatus(now, e, seen) => StatusSectionFills(h.id, h.rule, h.rows[i - 1], h.rows[seen], now, e);
      case OnTimer(now, seen) =>
        ColumnsOnlyFill(h, seen, i - 1);
        TimerSectionFills(h.id, h.rule, h.rows[i - 1], h.rows[seen], now);
      case _ =>
    }
  }

  lemma StatusSectionFills(id: RuleId, rule: Rule, row: Runtime, stale: Runtime, now: Time, e: DomainEvent)
    requires IsStatusRule(rule) && e.IntegrationStatusChanged?
    ensures var (r, _) := StatusSection(id, rule, row, stale, now, e);
            r.lastTriggeredAt == row.lastTriggeredAt && (row.observed.Some? ==> r.observed.Some?)
  {
    hide EvaluateRule;
  }

  lemma TimerSectionFills(id: RuleId, rule: Rule, row: Runtime, stale: Runtime, now: Time)
    requires IsStatusRule(rule)
    ensures var (r, _) := TimerSection(id, rule, row, stale, now);
            r.lastTriggeredAt == row.lastTriggeredAt && (row.observed.Some? ==> r.observed.Some?)
  {
    hide EvaluateRule;
  }

  lemma StaleReadHarmless(h: History, seen: nat, i: nat)
    requires Run(h) && seen <= i < |h.rows|
    ensures Fallback(h.rows[i].observed, h.rows[seen].observed) == h.rows[i].observed
    ensures Fallback(h.rows[i].lastTriggeredAt, h.rows[seen].lastTriggeredAt) == h.rows[i].lastTriggeredAt
  {
    ColumnsOnlyFill(h, seen, i);
  }

  // ---------------------------------------------------------------- armings

  /** Step `a` saw the configured transition and armed the pending record `p`. */
  ghost predicate Arms(h: History, a: nat, p: Pending)
    requires Run(h) && a < |h.steps|
  {
    && h.steps[a].OnStatus?
    && var e := h.steps[a].event;
       && e.IntegrationStatusChanged? && p.since == h.steps[a].now
       && p.to == e.status && p.integrationId == e.integrationId && p.integrationType == e.integrationType
       && h.rows[a].observed.Some? && h.rows[a].observed.value.status == p.from
       && EvaluateRule(h.id, h.rule, h.rows[a].lastTriggeredAt, Some(p.from), h.steps[a].now, e) == Match
  }

  /** Between `a` and `n` the rule saw only matching events with the armed status, and did not fire. */
  ghost predicate Undisturbed(h: History, a: nat, n: nat, status: IntegrationStatus)
    requires Run(h) && n <= |h.steps|
  {
    forall k | a < k < n ::
      && h.fires[k].None?
      && (h.steps[k].OnStatus? ==>
            && h.steps[k].event.IntegrationStatusChanged? && h.steps[k].event.status == status
            && h.rule.source.Parsed?
            && MatchesStatusFilters(h.rule.source.trigger.transition, h.steps[k].event.integrationId, h.steps[k].event.integrationType))
  }

  /** A pending record is always the work of one earlier arming that nothing has disturbed since. */
  ghost predicate Armed(h: History, a: nat, n: nat, p: Pending)
    requires Run(h) && n <= |h.steps|
  {
    && a < n && Arms(h, a, p) && Undisturbed(h, a, n, p.to)
    && h.rule.source.Parsed? && h.rule.source.trigger.transition.forDurationSeconds > 0
  }

  lemma PendingAfterStatus(id: RuleId, rule: Rule, row: Runtime, now: Time, e: DomainEvent)
    requires IsStatusRule(rule) && e.IntegrationStatusChanged?
    ensures var (r, fire) := StatusSection(id, rule, row, row, now, e);
            r.observed.Some? && r.observed.value.pending.Some? && rule.source.Parsed? ==>
              var p, config := r.observed.value.pending.value, rule.source.trigger.transition;
              && fire.None? && config.forDurationSeconds > 0
              && MatchesStatusFilters(config, e.integrationId, e.integrationType)
              && r.observed.value.status == e.status == p.to
              && row.observed.Some?
              && (|| row.observed.value.pending == Some(p)
                  || (&& p == Pending(row.observed.value.status, e.status, now, e.integrationId, e.integrationType)
                      && EvaluateRule(id, rule, row.lastTriggeredAt, Some(p.from), now, e) == Match))
    ensures rule.source.Broken? ==> StatusSection(id, rule, row, row, now, e) == (row, None)
  {
    hide EvaluateRule;
  }

  lemma PendingAfterTimer(id: RuleId, rule: Rule, row: Runtime, stale: Runtime, now: Time)
    requires IsStatusRule(rule)
    requires Fallback(row.observed, stale.observed) == row.observed
    ensures var (r, fire) := TimerSection(id, rule, row, stale, now);
            r.observed.Some? && r.observed.value.pending.Some? ==> r == row && fire.None?
  {
    hide EvaluateRule;
  }

  lemma {:induction false} PendingWasArmed(h: History, n: nat) returns (a: nat)
    requires Run(h) && n <= |h.steps|
    requires h.rows[n].observed.Some? && h.rows[n].observed.value.pending.Some?
    ensures Armed(h, a, n, h.rows[n].observed.value.pending.value)
    ensures h.rows[n].observed.value.status == h.rows[n].observed.value.pending.value.to
    decreases n
  {
    hide EvaluateRule, ValidEvent, Calendar.InIsoRange, StatusSection, TimerSection;
    var i := n - 1;
    assert StepAt(h, i);
    var p := h.rows[n].observed.value.pending.value;
    match h.steps[i]
    case OnStatus(now, e, seen) =>
      StaleReadHarmless(h, seen, i);
      StaleStatusHarmless(h.id, h.rule, h.rows[i], h.rows[seen], now, e);
      PendingAfterStatus(h.id, h.rule, h.rows[i], now, e);
      if h.rule.source.Parsed? && h.rows[i].observed.value.pending != Some(p) {
        a := i;
      } else {
        a := PendingWasArmed(h, i);
      }
    case OnTimer(now, seen) =>
      StaleReadHarmless(h, seen, i);
      PendingAfterTimer(h.id, h.rule, h.rows[i], h.rows[seen], now);
      a := PendingWasArmed(h, i);
    case _ =>
      a := PendingWasArmed(h, i);
  }

  lemma StaleStatusHarmless(id: RuleId, rule: Rule, row: Runtime, stale: Runtime, now: Time, e: DomainEvent)
    requires IsStatusRule(rule) && e.IntegrationStatusChanged?
    requires Fallback(row.observed, stale.observed) == row.observed
    requires Fallback(row.lastTriggeredAt, stale.lastTriggeredAt) == row.lastTriggeredAt
    ensures StatusSection(id, rule, row, stale, now, e) == StatusSection(id, rule, row, row, now, e)
  {
    hide EvaluateRule;
  }

  // ---------------------------------------------------------------- firing

  /**
    Replaying an armed transition can only be refused by the cooldown: its trigger and condition
    were accepted when it was armed and depend on nothing that has changed.
  */
  lemma ReplayDiffersByCooldownOnly(h: History, a: nat, p: Pending, lastTriggeredAt: Option<Time>, now: Time)
    requires Run(h) && a < |h.steps| && Arms(h, a, p)
    ensures EvaluateRule(h.id, h.rule, lastTriggeredAt, Some(p.from), now, Replay(p))
            == if InCooldown(lastTriggeredAt, h.rule.cooldownSeconds, now) then Skip(Cooldown) else Match
  {
    assert StepAt(h, a);
    Calendar.IsoStringShape(p.since);
    ReplayIsValid(h.steps[a].event, p);
    hide StatusSection, TimerSection, StepAt, Run, ValidEvent, C.ParseConditionConfig, Calendar.IsoString, Calendar.InIsoRange,
         C.EvaluateOptional;
    var e, r := h.steps[a].event, Replay(p);
    assert EventFields(e) == EventFields(r);
  }

  lemma ReplayIsValid(e: DomainEvent, p: Pending)
    requires e.IntegrationStatusChanged? && ValidEvent(e)
    requires p.to == e.status && p.integrationId == e.integrationId && p.integrationType == e.integrationType
    requires Calendar.IsIsoDateTime(Calendar.IsoString(p.since))
    ensures ValidEvent(Replay(p)) && |p.integrationId| > 0 && |p.integrationType| > 0
  {
    hide Calendar.IsoString, Calendar.IsIsoDateTime;
  }

  /** A timer section that fires consumes an arming that is old enough and undisturbed. */
  lemma FiringIsJustified(h: History, i: nat) returns (a: nat)
    requires Run(h) && i < |h.steps| && h.fires[i].Some? && h.fires[i].value.Arming?
    ensures a < i && h.steps[i].OnTimer? && h.rows[i].observed.Some? && h.rows[i].observed.value.pending.Some?
    ensures var p := h.rows[i].observed.value.pending.value;
            && Armed(h, a, i, p)
            && h.fires[i] == Some(Arming(h.steps[a].now, h.steps[a].event.status))
            && h.steps[i].now - h.steps[a].now >= h.rule.source.trigger.transition.forDurationSeconds * 1000
            && !InCooldown(h.rows[i].lastTriggeredAt, h.rule.cooldownSeconds, h.steps[i].now)
    ensures h.rows[i + 1].observed == Some(Observed(h.steps[a].event.status, None))
  {
    assert StepAt(h, i);
    match h.steps[i]
    case OnTimer(now, seen) =>
      StaleReadHarmless(h, seen, i);
      FiringNeedsPending(h.id, h.rule, h.rows[i], h.rows[seen], now);
      a := PendingWasArmed(h, i);
      hide StatusSection, EvaluateRule;
      ReplayDiffersByCooldownOnly(h, a, h.rows[i].observed.value.pending.value, h.rows[i].lastTriggeredAt, now);
    case OnStatus(now, e, seen) =>
      hide EvaluateRule;
      assert false;
  }

  lemma FiringNeedsPending(id: RuleId, rule: Rule, row: Runtime, stale: Runtime, now: Time)
    requires IsStatusRule(rule) && Fallback(row.observed, stale.observed) == row.observed
    requires TimerSection(id, rule, row, stale, now).1.Some?
    ensures row.observed.Some? && row.observed.value.pending.Some?
  {
    hide EvaluateRule;
  }

  /** One arming fires at most once: between two firings lies a new arming. */
  lemma OneFiringPerArming(h: History, i: nat, j: nat) returns (a: nat)
    requires Run(h) && i < j < |h.steps|
    requires h.fires[i].Some? && h.fires[i].value.Arming? && h.fires[j].Some? && h.fires[j].value.Arming?
    ensures i < a < j && h.steps[a].OnStatus? && h.fires[j].value.since == h.steps[a].now
    ensures h.rows[j].observed.Some? && h.rows[j].observed.value.pending.Some?
    ensures Armed(h, a, j, h.rows[j].observed.value.pending.value)
  {
    a := FiringIsJustified(h, j);
    var b := FiringIsJustified(h, i);
    assert a != i;
  }

  /**
    Exactly when a timer section fires: it was due when the worker looked, a transition is pending,
    the rule still debounces, the time has passed, and the cooldown is over.
  */
  lemma TimerFiresExactly(h: History, i: nat)
    requires Run(h) && i < |h.steps| && h.steps[i].OnTimer?
    ensures h.steps[i].seen <= i
    ensures h.fires[i].Some? <==>
            var now, row := h.steps[i].now, h.rows[i];
            && Due(h.rows[h.steps[i].seen], now)
            && row.observed.Some? && row.observed.value.pending.Some?
            && h.rule.source.Parsed?
            && now - row.observed.value.pending.value.since >= h.rule.source.trigger.transition.forDurationSeconds * 1000
            && !InCooldown(row.lastTriggeredAt, h.rule.cooldownSeconds, now)
  {
    assert StepAt(h, i);
    var seen, now, row := h.steps[i].seen, h.steps[i].now, h.rows[i];
    StaleReadHarmless(h, seen, i);
    hide StatusSection, EvaluateRule, StepAt, Run;
    if row.observed.Some? && row.observed.value.pending.Some? {
      var p := row.observed.value.pending.value;
      PendingReplays(h, i);
      hide Replay, InCooldown, Cleared;
    }
  }

  /** A pending record can be read back, and replaying it is refused only by the cooldown. */
  lemma PendingReplays(h: History, i: nat)
    requires Run(h) && i < |h.steps| && h.rows[i].observed.Some? && h.rows[i].observed.value.pending.Some?
    ensures ReadPending(h.rows[i].observed) == h.rows[i].observed.value.pending
    ensures h.rows[i].observed.value.status == h.rows[i].observed.value.pending.value.to
    ensures h.rule.source.Parsed? && h.rule.source.trigger.transition.forDurationSeconds > 0
    ensures forall last, now ::
              EvaluateRule(h.id, h.rule, last, Some(h.rows[i].observed.value.pending.value.from), now,
                           Replay(h.rows[i].observed.value.pending.value))
              == if InCooldown(last, h.rule.cooldownSeconds, now) then Skip(Cooldown) else Match
  {
    var a := PendingWasArmed(h, i);
    var p := h.rows[i].observed.value.pending.value;
    assert StepAt(h, a);
    hide Run, StatusSection, TimerSection, EvaluateRule, ValidEvent, Calendar.IsoString, Calendar.InIsoRange, Calendar.IsIsoDateTime;
    Calendar.IsoStringShape(p.since);
    ReplayIsValid(h.steps[a].event, p);
    forall last, now
      ensures EvaluateRule(h.id, h.rule, last, Some(p.from), now, Replay(p))
           == if InCooldown(last, h.rule.cooldownSeconds, now) then Skip(Cooldown) else Match
    {
      ReplayDiffersByCooldownOnly(h, a, p, last, now);
    }
  }
}
