/**
  What the handlers of one scheduler worker achieve (packages/automations/src/scheduler.ts): which
  rows seeding fills, what a schedule that runs has behind it and where it goes next, and that an
  event is acted on once.
*/
module SchedulerMeaning {
  import opened Common
  import opened Evaluate
  import opened AutomationStore
  import opened RunKeys
  import opened Scheduler
  import C = Conditions
  import Cron
  import Debounce
  import J = CanonicalJson
  import Triggers

  // ---------------------------------------------------------------- seeding

  /** The slot that seeding finds for a rule: none for rules that are not enabled, working schedules. */
  function SeedSlot(db: Db, id: RuleId, now: Time): Option<Time> {
    if id in db.rules && db.rules[id].enabled && db.rules[id].source.Parsed? && db.rules[id].source.trigger.ScheduleTrigger?
    then NextScheduleRunAt(db.rules[id].source.trigger.schedule, now)
    else None
  }

  /** Exactly the listed rules with a slot get it, and no other row, column or table changes. */
  lemma {:induction false} SeededExactly(db: Db, ids: seq<RuleId>, now: Time)
    ensures var after := Seeded(db, ids, now);
            && after.rules == db.rules && after.runs == db.runs && after.runtimes.Keys == db.runtimes.Keys
            && forall id | id in db.runtimes ::
                 after.runtimes[id] == if id in ids && SeedSlot(db, id, now).Some?
                                       then db.runtimes[id].(nextRunAt := SeedSlot(db, id, now))
                                       else db.runtimes[id]
  {
    hide NextScheduleRunAt;
    if ids != [] {
      var init, last := ids[..|ids| - 1], ids[|ids| - 1];
      SeededExactly(db, init, now);
      assert ids == init + [last];
      var before := Seeded(db, init, now);
      assert SeedSlot(before, last, now) == SeedSlot(db, last, now);
    }
  }

  predicate IsUnscheduled(db: Db, id: RuleId) {
    id in db.rules && id in db.runtimes && db.rules[id].enabled && db.runtimes[id].nextRunAt.None?
  }

  function SeededNext(db: Db, id: RuleId, ids: seq<RuleId>, now: Time): Option<Time> {
    var after := Seeded(db, ids, now);
    if id in after.runtimes then after.runtimes[id].nextRunAt else None
  }

  /**
    A cron schedule without a next run that each tick lists for seeding, at most eight days apart, and
    that gets a slot on the last of them only; whatever else happens between the ticks.
  */
  ghost predicate SeedingTicks(id: RuleId, cron: Cron.ParsedCron, dbs: seq<Db>, lists: seq<seq<RuleId>>, ticks: seq<Time>) {
    && |ticks| > 0 && |dbs| == |ticks| && |lists| == |ticks|
    && (forall i | 0 <= i < |ticks| ::
          IsUnscheduled(dbs[i], id) && dbs[i].rules[id].source == Parsed(ScheduleTrigger(CronSchedule(cron))) && id in lists[i])
    && (forall i | 0 <= i < |ticks| - 1 ::
          SeededNext(dbs[i], id, lists[i], ticks[i]).None? && ticks[i] <= ticks[i + 1] <= ticks[i] + Cron.EIGHT_DAYS)
  }

  /** What the ticks write are the results of the searches. */
  lemma TicksSearch(id: RuleId, cron: Cron.ParsedCron, dbs: seq<Db>, lists: seq<seq<RuleId>>, ticks: seq<Time>, i: nat)
    requires SeedingTicks(id, cron, dbs, lists, ticks) && i < |ticks|
    ensures SeededNext(dbs[i], id, lists[i], ticks[i]) == Cron.NextOccurrence(ticks[i], cron)
    ensures Cron.SearchResult(ticks[i], cron, Cron.NextOccurrence(ticks[i], cron))
  {
    hide Cron.NextOccurrence, Cron.MatchesCron, Cron.IsNextMatch, Cron.SearchResult, Seeded;
    Cron.NextOccurrenceIsTheResult(ticks[i], cron);
    SeededExactly(dbs[i], lists[i], ticks[i]);
    assert IsUnscheduled(dbs[i], id);
    assert SeedSlot(dbs[i], id, ticks[i]) == Cron.NextOccurrence(ticks[i], cron);
  }

  /** The first slot that seeding writes is the one a search without a horizon would have found on the first tick. */
  lemma NoSlotLostBySeeding(id: RuleId, cron: Cron.ParsedCron, dbs: seq<Db>, lists: seq<seq<RuleId>>, ticks: seq<Time>)
    requires SeedingTicks(id, cron, dbs, lists, ticks)
    requires var n := |ticks| - 1; SeededNext(dbs[n], id, lists[n], ticks[n]).Some?
    ensures var n := |ticks| - 1; Cron.IsNextMatch(ticks[0], cron, SeededNext(dbs[n], id, lists[n], ticks[n]).value)
  {
    hide Cron.NextOccurrence, Cron.MatchesCron, Cron.IsNextMatch, Cron.SearchResult, SeededNext;
    var results := seq(|ticks|, i requires 0 <= i < |ticks| => Cron.NextOccurrence(ticks[i], cron));
    forall i | 0 <= i < |ticks|
      ensures SeededNext(dbs[i], id, lists[i], ticks[i]) == results[i] && Cron.SearchResult(ticks[i], cron, results[i])
    {
      TicksSearch(id, cron, dbs, lists, ticks, i);
    }
    Cron.NoSlotLost(cron, ticks, results);
  }

  /** The next run of a rule after its schedule moved on. */
  function Advanced(db: Db, id: RuleId, rule: Rule, from: Time): Option<Time> {
    var after := AfterAdvance(db, id, rule, from);
    if id in after.runtimes then after.runtimes[id].nextRunAt else None
  }

  /** A schedule that moves on to a slot moves on to the next one there is. */
  lemma AdvancedIsNextMatch(db: Db, id: RuleId, rule: Rule, from: Time, cron: Cron.ParsedCron)
    requires id in db.runtimes && rule.source == Parsed(ScheduleTrigger(CronSchedule(cron)))
    ensures var next := Advanced(db, id, rule, from);
            Cron.SearchResult(from, cron, next) && (next.Some? ==> Cron.IsNextMatch(from, cron, next.value))
  {
    hide Cron.NextOccurrence, Cron.MatchesCron, Cron.IsNextMatch;
    Cron.NextOccurrenceIsTheResult(from, cron);
  }

  /**
    A schedule that moves on and finds no slot within the horizon loses none either: when ticks at most
    eight days apart, the first at most eight days later, seed its row again, the slot written in the end
    is the next one after the time it moved on from.
  */
  lemma NoSlotLostAfterAdvance(db: Db, id: RuleId, rule: Rule, from: Time, cron: Cron.ParsedCron,
                               dbs: seq<Db>, lists: seq<seq<RuleId>>, ticks: seq<Time>)
    requires id in db.runtimes && rule.source == Parsed(ScheduleTrigger(CronSchedule(cron)))
    requires Advanced(db, id, rule, from).None?
    requires SeedingTicks(id, cron, dbs, lists, ticks) && from <= ticks[0] <= from + Cron.EIGHT_DAYS
    requires var n := |ticks| - 1; SeededNext(dbs[n], id, lists[n], ticks[n]).Some?
    ensures var n := |ticks| - 1; Cron.IsNextMatch(from, cron, SeededNext(dbs[n], id, lists[n], ticks[n]).value)
  {
    hide Cron.NextOccurrence, Cron.MatchesCron, Cron.IsNextMatch, Cron.SearchResult, SeededNext, Advanced;
    AdvancedIsNextMatch(db, id, rule, from, cron);
    var times := [from] + ticks;
    var results := [None] + seq(|ticks|, i requires 0 <= i < |ticks| => Cron.NextOccurrence(ticks[i], cron));
    forall i | 0 <= i < |times|
      ensures Cron.SearchResult(times[i], cron, results[i])
      ensures i > 0 ==> SeededNext(dbs[i - 1], id, lists[i - 1], ticks[i - 1]) == results[i]
    {
      if i > 0 { TicksSearch(id, cron, dbs, lists, ticks, i - 1); }
    }
    Cron.NoSlotLost(cron, times, results);
  }

  // ---------------------------------------------------------------- schedules

  function Leased(db: Db, worker: Worker, job: Job): Db {
    if job.claimed then db else AfterClaim(db, job.id, worker.id, job.now, job.now + worker.leaseMs)
  }

  /** A dispatch that sends has inserted the run, moved the schedule on and finished the run. */
  lemma SentOutcome(db: Db, worker: Worker, job: Job, w: World, admitted: bool, off: bool)
    requires Dispatched(db, worker, job, w, admitted, off).1
    ensures Dispatched(db, worker, job, w, admitted, off).0
            == AfterComplete(Bumped(AfterInsert(Leased(db, worker, job), w.newId, RunFor(job)), job),
                             worker.id, job.id, w.newId, Verdict(w, admitted).0, w.at)
  {
    hide RunKey, Bumped, AfterComplete, AfterConflict, AfterInsert, CanClaim;
  }

  /** A dispatch that sends leaves the rule's row with the schedule moved on and the time of the run. */
  lemma DispatchedRow(db: Db, worker: Worker, job: Job, w: World, admitted: bool, off: bool)
    requires w.newId !in db.runs && Dispatched(db, worker, job, w, admitted, off).1 && job.id in db.runtimes
    ensures var after := Dispatched(db, worker, job, w, admitted, off).0;
            && after.rules == db.rules && job.id in after.runtimes
            && after.runtimes[job.id].nextRunAt == Bumped(db, job).runtimes[job.id].nextRunAt
            && after.runtimes[job.id].lastTriggeredAt == Some(w.at)
  {
    hide Dispatched, Bumped, RunKey;
    SentOutcome(db, worker, job, w, admitted, off);
    var leased := Leased(db, worker, job);
    assert leased.rules == db.rules && leased.runs == db.runs && job.id in leased.runtimes
           && leased.runtimes[job.id].nextRunAt == db.runtimes[job.id].nextRunAt;
    var inserted := AfterInsert(leased, w.newId, RunFor(job));
    hide AfterClaim;
    BumpIsLocal(db, inserted, job);
    CompleteRow(Bumped(inserted, job), worker.id, job.id, w.newId, Verdict(w, admitted).0, w.at);
  }

  lemma CompleteRow(db: Db, worker: WorkerId, id: RuleId, run: RunId, status: RunStatus, at: Time)
    requires id in db.runtimes
    ensures var after := AfterComplete(db, worker, id, run, status, at);
            && after.rules == db.rules && id in after.runtimes
            && after.runtimes[id].nextRunAt == db.runtimes[id].nextRunAt && after.runtimes[id].lastTriggeredAt == Some(at)
            && after.runtimes[id].observed == db.runtimes[id].observed
  {
  }

  lemma BumpIsLocal(a: Db, b: Db, job: Job)
    requires job.id in a.runtimes && job.id in b.runtimes && a.runtimes[job.id].nextRunAt == b.runtimes[job.id].nextRunAt
    ensures job.id in Bumped(a, job).runtimes && job.id in Bumped(b, job).runtimes
    ensures Bumped(a, job).runtimes[job.id].nextRunAt == Bumped(b, job).runtimes[job.id].nextRunAt
    ensures Bumped(b, job).runs == b.runs && Bumped(b, job).rules == b.rules
  {
    hide NextScheduleRunAt;
  }

  /** A dispatch sends the action exactly when nothing stands against it. */
  lemma DispatchSendsExactly(db: Db, worker: Worker, job: Job, w: World, admitted: bool, off: bool)
    ensures Dispatched(db, worker, job, w, admitted, off).1
            <==> && !off && (job.claimed || CanClaim(db, job.id, worker.id, job.now))
                 && !HasKey(db.runs, RunKey(job.id, job.cause))
                 && w.authorized && admitted && !w.stopped
  {
    hide RunKey, Bumped, AfterComplete, AfterConflict, CanClaim;
    assert Leased(db, worker, job).runs == db.runs;
  }

  /** The rule's trigger is the reading of some stored object. */
  ghost predicate IsStored(rule: Rule) {
    exists t, v :: rule.source == Triggers.SourceOf(t, v)
  }

  /** A stored schedule always moves forward. */
  lemma StoredScheduleMovesForward(rule: Rule, from: Time)
    requires IsStored(rule) && rule.source.Parsed? && rule.source.trigger.ScheduleTrigger?
    ensures var next := NextScheduleRunAt(rule.source.trigger.schedule, from); next.Some? ==> from < next.value
  {
    hide NextScheduleRunAt, Triggers.ParseTriggerConfig;
    var t, v :| rule.source == Triggers.SourceOf(t, v);
    Triggers.ParsedConfigIsValid(t, v);
    Triggers.ScheduleMovesForward(Triggers.ParseTriggerConfig(t, v).value, from);
  }

  /**
    When a schedule is acted on, its slot was due and past the cooldown, no run had that slot's key and
    one has it now, and the row holds the next slot, which is strictly later, or none.
  */
  lemma ScheduleStepMeaning(db: Db, worker: Worker, id: RuleId, now: Time, w: World, admitted: bool, off: bool)
    requires w.newId !in db.runs && ScheduleStep(db, worker, id, now, w, admitted, off).1
    ensures IsReady(db, id, Schedule) && db.rules[id].source.Parsed? && db.rules[id].source.trigger.ScheduleTrigger?
    ensures db.runtimes[id].nextRunAt.Some? && db.runtimes[id].nextRunAt.value <= now
    ensures !InCooldown(db.runtimes[id].lastTriggeredAt, db.rules[id].cooldownSeconds, now)
    ensures var (rule, row, after) := (db.rules[id], db.runtimes[id], ScheduleStep(db, worker, id, now, w, admitted, off).0);
            var key := RunKey(id, Slot(row.nextRunAt.value)); var next := NextScheduleRunAt(rule.source.trigger.schedule, now);
            && after.rules == db.rules && id in after.runtimes
            && !HasKey(db.runs, key) && HasKey(after.runs, key)
            && after.runtimes[id].nextRunAt == next
            && (IsStored(rule) ==> next.None? || now < next.value)
  {
    hide RunKey, NextScheduleRunAt, Dispatched, IsStored;
    var (rule, row) := (db.rules[id], db.runtimes[id]);
    ScheduleMatchMeaning(Input(id, rule.source, rule.condition, rule.cooldownSeconds, row.lastTriggeredAt, None, None, now, None));
    hide EvaluateTrigger;
    var job := Job(id, rule, Slot(row.nextRunAt.value), now, true, false);
    DispatchGuarantees(db, worker, job, w, admitted, off);
    DispatchedRow(db, worker, job, w, admitted, off);
    if IsStored(rule) { StoredScheduleMovesForward(rule, now); }
  }

  /** A schedule is acted on exactly when it is due, accepted and past its cooldown, and nothing stands against the dispatch. */
  lemma ScheduleSendsExactly(db: Db, worker: Worker, id: RuleId, now: Time, w: World, admitted: bool, off: bool)
    requires IsReady(db, id, Schedule)
    ensures var (rule, row) := (db.rules[id], db.runtimes[id]);
            ScheduleStep(db, worker, id, now, w, admitted, off).1
            <==> && row.nextRunAt.Some? && row.nextRunAt.value <= now
                 && rule.source.Parsed? && C.ParseConditionConfig(AllowedFields(rule.source.trigger), rule.condition).Ok?
                 && !InCooldown(row.lastTriggeredAt, rule.cooldownSeconds, now)
                 && !off && CanClaim(db, id, worker.id, now) && !HasKey(db.runs, RunKey(id, Slot(row.nextRunAt.value)))
                 && w.authorized && admitted && !w.stopped
  {
    hide RunKey, Dispatched, CanClaim, C.ParseConditionConfig, HasKey, InCooldown;
    var (rule, row) := (db.rules[id], db.runtimes[id]);
    if Debounce.Due(row, now) {
      DispatchSendsExactly(db, worker, Job(id, rule, Slot(row.nextRunAt.value), now, true, false), w, admitted, off);
    }
  }

  lemma ScheduleMatchMeaning(input: Input)
    requires EvaluateTrigger(input).Match? && DeclaredType(input.source) == Schedule
    ensures input.source.Parsed? && input.source.trigger.ScheduleTrigger?
    ensures !InCooldown(input.lastTriggeredAt, input.cooldownSeconds, input.now)
  {
    hide InCooldown;
  }

  /** Until the next slot comes no worker acts on the schedule again, whatever it is told. */
  lemma ScheduleActsOncePerSlot(db: Db, first: Worker, second: Worker, id: RuleId, now: Time, later: Time,
                                w: World, v: World, admitted: bool, readmitted: bool, off: bool, reoff: bool)
    requires w.newId !in db.runs && ScheduleStep(db, first, id, now, w, admitted, off).1 && IsStored(db.rules[id])
    requires var next := NextScheduleRunAt(db.rules[id].source.trigger.schedule, now); next.Some? ==> later < next.value
    ensures var after := ScheduleStep(db, first, id, now, w, admitted, off).0;
            ScheduleStep(after, second, id, later, v, readmitted, reoff) == (after, false)
  {
    hide NextScheduleRunAt, RunKey, Dispatched, EvaluateTrigger, IsStored;
    ScheduleStepMeaning(db, first, id, now, w, admitted, off);
  }

  // ---------------------------------------------------------------- events

  /** An event rule is acted on for a matching event past the cooldown, and for each occurrence once. */
  lemma EventStepMeaning(db: Db, first: Worker, second: Worker, id: RuleId, now: Time, later: Time, e: DomainEvent,
                         w: World, v: World, admitted: bool, readmitted: bool, off: bool, reoff: bool)
    requires w.newId !in db.runs && EventStep(db, first, id, now, e, w, admitted, off).1
    requires v.newId !in EventStep(db, first, id, now, e, w, admitted, off).0.runs
    ensures IsReady(db, id, Event) && db.rules[id].source.Parsed? && db.rules[id].source.trigger.EventTrigger?
    ensures ValidEvent(e) && EventTypeOf(e) == Some(db.rules[id].source.trigger.event.eventType)
    ensures !InCooldown(db.runtimes[id].lastTriggeredAt, db.rules[id].cooldownSeconds, now)
    ensures var after := EventStep(db, first, id, now, e, w, admitted, off).0;
            && !HasKey(db.runs, RunKey(id, Occurrence(e))) && HasKey(after.runs, RunKey(id, Occurrence(e)))
            && !EventStep(after, second, id, later, e, v, readmitted, reoff).1
  {
    hide RunKey, Dispatched, ValidEvent;
    var (rule, row) := (db.rules[id], db.runtimes[id]);
    EventMatchMeaning(Input(id, rule.source, rule.condition, rule.cooldownSeconds, row.lastTriggeredAt,
                            Debounce.StatusOf(row.observed), None, now, Some(e)));
    hide EvaluateTrigger;
    var job := Job(id, rule, Occurrence(e), now, false, false);
    DispatchGuarantees(db, first, job, w, admitted, off);
    var after := Dispatched(db, first, job, w, admitted, off).0;
    if IsReady(after, id, Event) {
      DispatchGuarantees(after, second, Job(id, after.rules[id], Occurrence(e), later, false, false), v, readmitted, reoff);
    }
  }

  lemma EventMatchMeaning(input: Input)
    requires EvaluateTrigger(input).Match? && DeclaredType(input.source) == Event
    ensures input.source.Parsed? && input.source.trigger.EventTrigger? && input.event.Some?
    ensures ValidEvent(input.event.value) && EventTypeOf(input.event.value) == Some(input.source.trigger.event.eventType)
    ensures !InCooldown(input.lastTriggeredAt, input.cooldownSeconds, input.now)
  {
    hide InCooldown, ValidEvent;
  }
}
