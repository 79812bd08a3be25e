/**
  One scheduler worker as an object (packages/automations/src/scheduler.ts, class
  AutomationScheduler), its calls taken one after another.  Each method is proved to have the effect
  of a function on the database; the interleavings of many workers are the subject of
  DispatchProtocol, the debounce rule that of Debounce.
*/
module Scheduler {
  import opened Common
  import opened Evaluate
  import opened AutomationStore
  import opened RunKeys
  import opened SlidingWindow
  import Cron
  import Debounce

  /** `nextScheduleRunAt` */
  function NextScheduleRunAt(config: ScheduleConfig, from: Time): Option<Time> {
    match config
    case Interval(minutes) => Some(from + minutes * 60_000)
    case CronSchedule(cron) => Cron.NextOccurrence(from, cron)
  }

  /** What a claim-and-dispatch is asked to do. */
  datatype Job = Job(id: RuleId, rule: Rule, cause: Cause, now: Time, bump: bool, claimed: bool)

  /** What the rest of the world answers: identifiers, the owner check, shutdown, the dispatcher, the clock. */
  datatype World = World(newId: RunId, authorized: bool, stopped: bool, outcome: Option<RunStatus>, at: Time)

  datatype Worker = Worker(id: WorkerId, leaseMs: int)

  // ---------------------------------------------------------------- effects as functions

  function AfterAdvance(db: Db, id: RuleId, rule: Rule, from: Time): Db {
    match rule.source
    case Broken(_) => AfterUpdate(db, id, NO_CHANGE.(nextRunAt := Some(Some(from + 60_000))))
    case Parsed(ScheduleTrigger(config)) =>
      AfterUpdate(db, id, NO_CHANGE.(nextRunAt := Some(NextScheduleRunAt(config, from))))
    case _ => db
  }

  predicate Failure(status: RunStatus) { status == Failed || status == Unclear }

  function AfterComplete(db: Db, worker: WorkerId, id: RuleId, run: RunId, status: RunStatus, at: Time): Db {
    var finished := AfterFinish(db, run, status, at);
    var failures := if Failure(status) then (if id in db.runtimes then db.runtimes[id].failureCount else 0) + 1 else 0;
    var patch := Patch(None, Some(Some(at)), Some(Some(at)), None, Some(failures));
    AfterRelease(AfterUpdate(finished, id, patch), id, worker)
  }

  ghost function FindRun(db: Db, key: string): (r: Option<RunId>)
    ensures r.Some? ==> r.value in db.runs && db.runs[r.value].runKey == key
    ensures r.None? <==> !HasKey(db.runs, key)
  {
    if HasKey(db.runs, key) then var i :| i in db.runs && db.runs[i].runKey == key; Some(i) else None
  }

  function RunFor(job: Job): Run { Run(Some(job.id), RunKey(job.id, job.cause), Running, job.now, None) }

  function Bumped(db: Db, job: Job): Db { if job.bump then AfterAdvance(db, job.id, job.rule, job.now) else db }

  /** The key is taken: close an unfinished run, move the schedule on, give the lease back. */
  function AfterConflict(db: Db, worker: Worker, job: Job, found: RunId, at: Time): Db
    requires found in db.runs
  {
    var closed := if Open(db.runs[found].status) then AfterFinish(db, found, Unclear, at) else db;
    AfterRelease(Bumped(closed, job), job.id, worker.id)
  }

  /** How an inserted run ends, and whether its action was sent. */
  function Verdict(w: World, admitted: bool): (RunStatus, bool) {
    if !w.authorized then (Denied, false)
    else if !admitted then (Skipped, false)
    else if w.stopped then (Unclear, false)
    else (if w.outcome.Some? then w.outcome.value else Unclear, true)
  }

  /** Under the lease: what the run key decides. */
  ghost function Keyed(db: Db, worker: Worker, job: Job, w: World, admitted: bool): (Db, bool) {
    match FindRun(db, RunKey(job.id, job.cause))
    case Some(found) => (AfterConflict(db, worker, job, found, w.at), false)
    case None =>
      var (status, sent) := Verdict(w, admitted);
      (AfterComplete(Bumped(AfterInsert(db, w.newId, RunFor(job)), job), worker.id, job.id, w.newId, status, w.at), sent)
  }

  /** #claimAndDispatch: the database afterwards, and whether the action was sent; nothing once the worker stops. */
  ghost function Dispatched(db: Db, worker: Worker, job: Job, w: World, admitted: bool, off: bool): (Db, bool) {
    if off then (db, false)
    else if job.claimed then Keyed(db, worker, job, w, admitted)
    else if CanClaim(db, job.id, worker.id, job.now) then
      Keyed(AfterClaim(db, job.id, worker.id, job.now, job.now + worker.leaseMs), worker, job, w, admitted)
    else (db, false)
  }

  predicate IsReady(db: Db, id: RuleId, t: TriggerType) {
    id in db.rules && id in db.runtimes && db.rules[id].enabled && DeclaredType(db.rules[id].source) == t
  }

  /** #processSchedule */
  ghost function ScheduleStep(db: Db, worker: Worker, id: RuleId, now: Time, w: World, admitted: bool, off: bool): (Db, bool) {
    if !IsReady(db, id, Schedule) || !Debounce.Due(db.runtimes[id], now) then (db, false)
    else
      var (rule, row) := (db.rules[id], db.runtimes[id]);
      if EvaluateTrigger(Input(id, rule.source, rule.condition, rule.cooldownSeconds, row.lastTriggeredAt, None, None, now, None)).Skip?
      then (db, false)
      else Dispatched(db, worker, Job(id, rule, Slot(row.nextRunAt.value), now, true, false), w, admitted, off)
  }

  function WithRow(db: Db, id: RuleId, row: Runtime): Db { db.(runtimes := db.runtimes[id := row]) }

  /** A section under the lease: the row it leaves, then the dispatch it asks for, then the release. */
  ghost function SectionStep(db: Db, worker: Worker, id: RuleId, rule: Rule, now: Time, section: (Runtime, Option<Cause>),
                             w: World, admitted: bool, off: bool): (Db, bool)
  {
    var written := WithRow(db, id, section.0);
    match section.1
    case None => (AfterRelease(written, id, worker.id), false)
    case Some(cause) =>
      var (after, sent) := Dispatched(written, worker, Job(id, rule, cause, now, false, true), w, admitted, off);
      (AfterRelease(after, id, worker.id), sent)
  }

  /** #processStatusDebounce */
  ghost function DebounceStep(db: Db, worker: Worker, id: RuleId, now: Time, w: World, admitted: bool, off: bool): (Db, bool) {
    if !IsReady(db, id, StatusTransition) || !Debounce.Due(db.runtimes[id], now) || !CanClaim(db, id, worker.id, now)
    then (db, false)
    else
      var leased := AfterClaim(db, id, worker.id, now, now + worker.leaseMs);
      var section := Debounce.TimerSection(id, db.rules[id], leased.runtimes[id], db.runtimes[id], now);
      SectionStep(leased, worker, id, db.rules[id], now, section, w, admitted, off)
  }

  /** #processEvent on a status-transition rule and a status event. */
  ghost function StatusStep(db: Db, worker: Worker, id: RuleId, now: Time, e: DomainEvent, w: World, admitted: bool, off: bool): (Db, bool)
    requires e.IntegrationStatusChanged?
  {
    if !IsReady(db, id, StatusTransition) || !CanClaim(db, id, worker.id, now) then (db, false)
    else
      var leased := AfterClaim(db, id, worker.id, now, now + worker.leaseMs);
      var section := Debounce.StatusSection(id, db.rules[id], leased.runtimes[id], db.runtimes[id], now, e);
      SectionStep(leased, worker, id, db.rules[id], now, section, w, admitted, off)
  }

  /** #processEvent on an event rule. */
  ghost function EventStep(db: Db, worker: Worker, id: RuleId, now: Time, e: DomainEvent, w: World, admitted: bool, off: bool): (Db, bool) {
    if !IsReady(db, id, Event) then (db, false)
    else
      var (rule, row) := (db.rules[id], db.runtimes[id]);
      if Debounce.EvaluateRule(id, rule, row.lastTriggeredAt, Debounce.StatusOf(row.observed), now, e).Skip? then (db, false)
      else Dispatched(db, worker, Job(id, rule, Occurrence(e), now, false, false), w, admitted, off)
  }

  // ---------------------------------------------------------------- what a dispatch guarantees

  lemma AdvanceKeepsRuns(db: Db, job: Job)
    ensures Bumped(db, job).runs == db.runs && Bumped(db, job).rules == db.rules
    ensures Bumped(db, job).runtimes.Keys == db.runtimes.Keys
    ensures forall other | other in db.runtimes && other != job.id :: Bumped(db, job).runtimes[other] == db.runtimes[other]
    ensures job.id in db.runtimes ==> Bumped(db, job).runtimes[job.id].leaseOwner == db.runtimes[job.id].leaseOwner
  {
    hide NextScheduleRunAt;
  }

  lemma CompleteMeaning(db: Db, worker: WorkerId, id: RuleId, run: RunId, status: RunStatus, at: Time)
    requires run in db.runs && Open(db.runs[run].status)
    ensures var after := AfterComplete(db, worker, id, run, status, at);
            && after.rules == db.rules && after.runtimes.Keys == db.runtimes.Keys
            && after.runs == db.runs[run := db.runs[run].(status := status, finishedAt := Some(at))]
            && (forall other | other in db.runtimes && other != id :: after.runtimes[other] == db.runtimes[other])
            && (id in db.runtimes ==> after.runtimes[id].leaseOwner != Some(worker) && after.runtimes[id].lastTriggeredAt == Some(at))
  {
  }

  lemma ConflictMeaning(db: Db, worker: Worker, job: Job, found: RunId, at: Time)
    requires found in db.runs
    ensures var after := AfterConflict(db, worker, job, found, at);
            && after.rules == db.rules && after.runtimes.Keys == db.runtimes.Keys && after.runs.Keys == db.runs.Keys
            && (forall i | i in db.runs :: after.runs[i].runKey == db.runs[i].runKey)
            && (forall i | i in db.runs && i != found :: after.runs[i] == db.runs[i])
            && (!Open(db.runs[found].status) ==> after.runs[found] == db.runs[found])
            && (forall other | other in db.runtimes && other != job.id :: after.runtimes[other] == db.runtimes[other])
            && (job.id in db.runtimes ==> after.runtimes[job.id].leaseOwner != Some(worker.id))
  {
    var closed := if Open(db.runs[found].status) then AfterFinish(db, found, Unclear, at) else db;
    AdvanceKeepsRuns(closed, job);
    hide Bumped;
  }

  /**
    An action is sent only when no run had its key before, and then a run has it; nothing but the
    rule's own row changes; the worker that got as far as the run keys no longer holds the lease.
  */
  lemma DispatchGuarantees(db: Db, worker: Worker, job: Job, w: World, admitted: bool, off: bool)
    requires w.newId !in db.runs
    ensures var (after, sent) := Dispatched(db, worker, job, w, admitted, off); var key := RunKey(job.id, job.cause);
            && (sent ==> !HasKey(db.runs, key) && w.newId in after.runs && after.runs[w.newId].runKey == key && HasKey(after.runs, key))
            && (HasKey(db.runs, key) ==> HasKey(after.runs, key))
            && (forall i | i in db.runs && db.runs[i].runKey != key :: i in after.runs && after.runs[i] == db.runs[i])
            && after.rules == db.rules
            && (forall other | other in db.runtimes && other != job.id :: other in after.runtimes && after.runtimes[other] == db.runtimes[other])
            && (!off && (job.claimed || CanClaim(db, job.id, worker.id, job.now)) ==>
                  job.id in db.runtimes ==> job.id in after.runtimes && after.runtimes[job.id].leaseOwner != Some(worker.id))
  {
    hide Bumped, AfterComplete, AfterConflict, RunKey;
    var key := RunKey(job.id, job.cause);
    if !off && (job.claimed || CanClaim(db, job.id, worker.id, job.now)) {
      var leased := if job.claimed then db else AfterClaim(db, job.id, worker.id, job.now, job.now + worker.leaseMs);
      assert leased.runs == db.runs && leased.rules == db.rules && leased.runtimes.Keys == db.runtimes.Keys;
      var found := FindRun(leased, key);
      if found.Some? {
        ConflictMeaning(leased, worker, job, found.value, w.at);
        var after := AfterConflict(leased, worker, job, found.value, w.at);
        assert after.runs[found.value].runKey == key;
      } else {
        var inserted := AfterInsert(leased, w.newId, RunFor(job));
        AdvanceKeepsRuns(inserted, job);
        CompleteMeaning(Bumped(inserted, job), worker.id, job.id, w.newId, Verdict(w, admitted).0, w.at);
        assert !HasKey(db.runs, key);
      }
    }
  }

  /** Whoever runs the same job again, with whatever the world answers, sends nothing. */
  lemma SecondDispatchSendsNothing(db: Db, first: Worker, second: Worker, job: Job, again: Job, w: World, v: World,
                                   admitted: bool, readmitted: bool, off: bool)
    requires w.newId !in db.runs && again.id == job.id && again.cause == job.cause
    requires v.newId !in Dispatched(db, first, job, w, admitted, false).0.runs
    ensures var (after, sent) := Dispatched(db, first, job, w, admitted, false);
            !(sent && Dispatched(after, second, again, v, readmitted, off).1)
  {
    hide Dispatched;
    DispatchGuarantees(db, first, job, w, admitted, false);
    DispatchGuarantees(Dispatched(db, first, job, w, admitted, false).0, second, again, v, readmitted, off);
  }

  // ---------------------------------------------------------------- the worker as an object

  class AutomationScheduler {
    const worker: Worker
    const store: Store
    const window: MinuteWindow
    const maxPerMinute: int
    var stopping: bool
    var inFlight: nat
    /** Runs whose action was sent. */
    ghost var sent: seq<RunId>

    ghost predicate Valid()
      reads this, store, window
    {
      store.Valid() && window.Valid() && window.max == maxPerMinute
    }

    ghost predicate ClockReached(now: Time)
      reads this, window
    {
      window.calls != [] ==> window.calls[|window.calls| - 1] <= now
    }

    constructor (worker: Worker, store: Store, maxPerMinute: int)
      requires store.Valid()
      ensures Valid() && this.worker == worker && this.store == store && this.maxPerMinute == maxPerMinute
      ensures !stopping && inFlight == 0 && sent == [] && fresh(window) && window.calls == []
    {
      this.worker, this.store, this.maxPerMinute := worker, store, maxPerMinute;
      var w := new MinuteWindow(maxPerMinute);
      window := w;
      stopping, inFlight, sent := false, 0, [];
    }

    /** The database and the log of sent actions after a call, as a function of the database before. */
    twostate predicate Did(newId: RunId, outcome: (Db, bool))
      reads this, store
    {
      && store.State() == outcome.0
      && sent == old(sent) + (if outcome.1 then [newId] else [])
      && stopping == old(stopping) && inFlight == old(inFlight)
    }

    method NextRun(config: ScheduleConfig, from: Time) returns (next: Option<Time>)
      ensures next == NextScheduleRunAt(config, from)
    {
      match config
      case Interval(minutes) =>
        next := Some(from + minutes * 60_000);
      case CronSchedule(cron) =>
        next := Cron.NextCronOccurrenceUtc(from, cron);
        Cron.NextOccurrenceIsTheResult(from, cron);
        Cron.SearchIsDeterministic(from, cron, next, Cron.NextOccurrence(from, cron));
    }

    method AdvanceSchedule(id: RuleId, rule: Rule, from: Time)
      modifies store`runtimes
      ensures store.State() == AfterAdvance(old(store.State()), id, rule, from)
    {
      match rule.source
      case Broken(_) =>
        store.UpdateRuntime(id, NO_CHANGE.(nextRunAt := Some(Some(from + 60_000))));
      case Parsed(ScheduleTrigger(config)) =>
        var next := NextRun(config, from);
        store.UpdateRuntime(id, NO_CHANGE.(nextRunAt := Some(next)));
      case _ =>
    }

    method Complete(id: RuleId, run: RunId, status: RunStatus, at: Time)
      requires store.Valid()
      modifies store`runtimes, store`runs
      ensures store.Valid() && store.State() == AfterComplete(old(store.State()), worker.id, id, run, status, at)
    {
      store.FinishRun(run, status, at);
      var failures := 0;
      if status == Failed || status == Unclear {
        failures := (if id in store.runtimes then store.runtimes[id].failureCount else 0) + 1;
      }
      store.UpdateRuntime(id, Patch(None, Some(Some(at)), Some(Some(at)), None, Some(failures)));
      store.ReleaseLease(id, worker.id);
    }

    /** #claimAndDispatch; `admitted` tells what the minute window answered, if it was asked. */
    method ClaimAndDispatch(job: Job, w: World) returns (ghost admitted: bool)
      requires Valid() && ClockReached(job.now) && w.newId !in store.runs
      modifies this, store, window
      ensures Valid() && ClockReached(job.now)
      ensures Did(w.newId, Dispatched(old(store.State()), worker, job, w, admitted, old(stopping)))
      ensures old(stopping) ==> unchanged(window)
      ensures window.calls == old(window.calls) || window.calls == old(window.calls) + [job.now]
    {
      hide Keyed, CanClaim, RunKey;
      admitted := false;
      if stopping { return; }
      inFlight := inFlight + 1;
      var claimed := true;
      if !job.claimed {
        claimed := store.ClaimLease(job.id, worker.id, job.now, job.now + worker.leaseMs);
      }
      if claimed { admitted := RunUnderLease(job, w); }
      inFlight := inFlight - 1;
    }

    method RunUnderLease(job: Job, w: World) returns (ghost admitted: bool)
      requires Valid() && ClockReached(job.now) && w.newId !in store.runs
      modifies this`sent, store`runtimes, store`runs, window
      ensures Valid() && ClockReached(job.now)
      ensures Did(w.newId, Keyed(old(store.State()), worker, job, w, admitted))
      ensures window.calls == old(window.calls) || window.calls == old(window.calls) + [job.now]
    {
      hide AfterConflict, AfterComplete, Verdict, RunKey, AfterAdvance, KeysUnique, HasKey;
      admitted := false;
      ghost var before := store.State();
      var run, created := store.TryInsertRun(w.newId, RunFor(job));
      if !created {
        OneRunPerKey(before, RunKey(job.id, job.cause), run);
        CloseConflict(job, run, w.at);
      } else {
        NoRunForKey(before, RunKey(job.id, job.cause));
        if job.bump { AdvanceSchedule(job.id, job.rule, job.now); }
        admitted := Conclude(job, run, w);
      }
    }

    method CloseConflict(job: Job, found: RunId, at: Time)
      requires store.Valid() && found in store.runs
      modifies store`runtimes, store`runs
      ensures store.Valid() && store.State() == AfterConflict(old(store.State()), worker, job, found, at)
    {
      if Open(store.runs[found].status) {
        store.FinishRun(found, Unclear, at);
      }
      if job.bump { AdvanceSchedule(job.id, job.rule, job.now); }
      store.ReleaseLease(job.id, worker.id);
    }

    /** From the owner check to the finished run. */
    method Conclude(job: Job, run: RunId, w: World) returns (admitted: bool)
      requires Valid() && ClockReached(job.now)
      modifies this`sent, store`runtimes, store`runs, window
      ensures Valid() && ClockReached(job.now)
      ensures store.State() == AfterComplete(old(store.State()), worker.id, job.id, run, Verdict(w, admitted).0, w.at)
      ensures sent == old(sent) + (if Verdict(w, admitted).1 then [run] else [])
      ensures window.calls == old(window.calls) || window.calls == old(window.calls) + [job.now]
    {
      admitted := false;
      if !w.authorized {
        Complete(job.id, run, Denied, w.at);
        return;
      }
      admitted := window.TryConsume(job.now, maxPerMinute);
      if !admitted {
        Complete(job.id, run, Skipped, w.at);
        return;
      }
      if w.stopped {
        Complete(job.id, run, Unclear, w.at);
        return;
      }
      sent := sent + [run];
      Complete(job.id, run, if w.outcome.Some? then w.outcome.value else Unclear, w.at);
    }

    method ProcessSchedule(id: RuleId, now: Time, w: World) returns (ghost admitted: bool)
      requires Valid() && ClockReached(now) && w.newId !in store.runs
      modifies this, store, window
      ensures Valid() && ClockReached(now)
      ensures Did(w.newId, ScheduleStep(old(store.State()), worker, id, now, w, admitted, old(stopping)))
    {
      admitted := false;
      if id !in store.rules || id !in store.runtimes { return; }
      var rule, runtime := store.rules[id], store.runtimes[id];
      if !rule.enabled || DeclaredType(rule.source) != Schedule { return; }
      if runtime.nextRunAt.None? || runtime.nextRunAt.value > now { return; }
      var evaluation := EvaluateTrigger(Input(id, rule.source, rule.condition, rule.cooldownSeconds,
                                              runtime.lastTriggeredAt, None, None, now, None));
      if evaluation.Skip? { return; }
      admitted := ClaimAndDispatch(Job(id, rule, Slot(runtime.nextRunAt.value), now, true, false), w);
    }

    /** A section's row is written and its dispatch carried out, all under the lease taken before. */
    method FinishSection(id: RuleId, rule: Rule, now: Time, cause: Option<Cause>, w: World) returns (ghost admitted: bool)
      requires Valid() && ClockReached(now) && w.newId !in store.runs && id in store.runtimes
      modifies this, store, window
      ensures Valid() && ClockReached(now)
      ensures Did(w.newId, SectionStep(old(store.State()), worker, id, rule, now, (old(store.runtimes[id]), cause), w, admitted, old(stopping)))
    {
      hide Dispatched, KeysUnique;
      admitted := false;
      assert old(store.State()) == WithRow(old(store.State()), id, old(store.runtimes[id]));
      if cause.Some? {
        admitted := ClaimAndDispatch(Job(id, rule, cause.value, now, false, true), w);
      }
      store.ReleaseLease(id, worker.id);
    }

    method WriteObserved(id: RuleId, status: IntegrationStatus, pending: Option<Pending>, next: Option<Option<Time>>)
      requires store.Valid() && id in store.runtimes
      modifies store`runtimes
      ensures store.Valid() && store.rules == old(store.rules) && store.runs == old(store.runs)
      ensures store.runtimes == old(store.runtimes)[id := old(store.runtimes[id]).(observed := Some(Observed(status, pending)),
                nextRunAt := OrElse(next, old(store.runtimes[id].nextRunAt)))]
    {
      store.UpdateRuntime(id, NO_CHANGE.(observed := Some(Some(Observed(status, pending))), nextRunAt := next));
    }

    /** The timer's reading of the row under the lease; `seen` is the row read before. */
    method RunTimerSection(id: RuleId, rule: Rule, seen: Runtime, now: Time) returns (cause: Option<Cause>)
      requires store.Valid() && id in store.runtimes && Debounce.IsStatusRule(rule) && Debounce.Due(seen, now)
      modifies store`runtimes
      ensures store.Valid() && store.rules == old(store.rules) && store.runs == old(store.runs)
      ensures id in store.runtimes && store.runtimes == old(store.runtimes)[id := store.runtimes[id]]
      ensures (store.runtimes[id], cause) == Debounce.TimerSection(id, rule, old(store.runtimes[id]), seen, now)
    {
      hide KeysUnique;
      var fresh' := store.runtimes[id];
      var state := Debounce.Fallback(fresh'.observed, seen.observed);
      var pending := Debounce.ReadPending(state);
      if state.None? || pending.None? || pending.value.to != state.value.status {
        if state.Some? {
          WriteObserved(id, state.value.status, None, Some(None));
        } else {
          store.UpdateRuntime(id, NO_CHANGE.(observed := Some(None), nextRunAt := Some(None)));
        }
        return None;
      }
      var status := state.value.status;
      if rule.source.Broken? {
        WriteObserved(id, status, None, Some(None));
        return None;
      }
      var p := pending.value;
      var seconds := rule.source.trigger.transition.forDurationSeconds;
      if seconds <= 0 || now - p.since < seconds * 1000 {
        assert store.runtimes == old(store.runtimes)[id := fresh'];
        return None;
      }
      var evaluation := Debounce.EvaluateRule(id, rule, Debounce.Fallback(fresh'.lastTriggeredAt, seen.lastTriggeredAt),
                                              Some(p.from), now, Debounce.Replay(p));
      WriteObserved(id, status, None, Some(None));
      return if evaluation.Skip? then None else Some(Arming(p.since, status));
    }

    method ProcessStatusDebounce(id: RuleId, now: Time, w: World) returns (ghost admitted: bool)
      requires Valid() && ClockReached(now) && w.newId !in store.runs
      modifies this, store, window
      ensures Valid() && ClockReached(now)
      ensures Did(w.newId, DebounceStep(old(store.State()), worker, id, now, w, admitted, old(stopping)))
    {
      hide Debounce.TimerSection, SectionStep, KeysUnique;
      admitted := false;
      if id !in store.rules || id !in store.runtimes { return; }
      var rule, runtime := store.rules[id], store.runtimes[id];
      if !rule.enabled || DeclaredType(rule.source) != StatusTransition { return; }
      if !Debounce.Due(runtime, now) { return; }
      var claimed := store.ClaimLease(id, worker.id, now, now + worker.leaseMs);
      if !claimed { return; }
      ghost var leased := store.State();
      var cause := RunTimerSection(id, rule, runtime, now);
      ghost var section := Debounce.TimerSection(id, rule, leased.runtimes[id], runtime, now);
      assert store.State() == WithRow(leased, id, section.0);
      SectionOnWritten(leased, worker, id, rule, now, section, w);
      admitted := FinishSection(id, rule, now, cause, w);
    }

    /** What a status event does to the row under the lease. */
    method RunStatusSection(id: RuleId, rule: Rule, seen: Runtime, now: Time, e: DomainEvent) returns (cause: Option<Cause>)
      requires store.Valid() && id in store.runtimes && Debounce.IsStatusRule(rule) && e.IntegrationStatusChanged?
      modifies store`runtimes
      ensures store.Valid() && store.rules == old(store.rules) && store.runs == old(store.runs)
      ensures id in store.runtimes && store.runtimes == old(store.runtimes)[id := store.runtimes[id]]
      ensures (store.runtimes[id], cause) == Debounce.StatusSection(id, rule, old(store.runtimes[id]), seen, now, e)
    {
      hide KeysUnique, Debounce.EvaluateRule;
      var fresh' := store.runtimes[id];
      var previous := Debounce.Fallback(fresh'.observed, seen.observed);
      if rule.source.Broken? {
        assert store.runtimes == old(store.runtimes)[id := fresh'];
        return None;
      }
      var config := rule.source.trigger.transition;
      if !Debounce.MatchesStatusFilters(config, e.integrationId, e.integrationType) {
        WriteObserved(id, e.status, None, Some(None));
        return None;
      }
      var evaluation := Debounce.EvaluateRule(id, rule, Debounce.Fallback(fresh'.lastTriggeredAt, seen.lastTriggeredAt),
                                              Debounce.StatusOf(previous), now, e);
      if config.forDurationSeconds <= 0 {
        WriteObserved(id, e.status, None, Some(None));
        return if evaluation.Skip? then None else Some(Occurrence(e));
      }
      if evaluation.Match? {
        if previous.None? {
          WriteObserved(id, e.status, None, Some(None));
        } else {
          var pending := Pending(previous.value.status, e.status, now, e.integrationId, e.integrationType);
          WriteObserved(id, e.status, Some(pending), Some(Some(now + config.forDurationSeconds * 1000)));
        }
        return None;
      }
      var pending := Debounce.ReadPending(previous);
      if pending.Some? && pending.value.to == e.status {
        WriteObserved(id, e.status, pending, None);
      } else {
        WriteObserved(id, e.status, None, Some(None));
      }
      return None;
    }

    method ProcessEvent(id: RuleId, now: Time, e: DomainEvent, w: World) returns (ghost admitted: bool)
      requires Valid() && ClockReached(now) && w.newId !in store.runs
      modifies this, store, window
      ensures Valid() && ClockReached(now)
      ensures IsReady(old(store.State()), id, StatusTransition) && e.IntegrationStatusChanged? ==>
                Did(w.newId, StatusStep(old(store.State()), worker, id, now, e, w, admitted, old(stopping)))
      ensures IsReady(old(store.State()), id, StatusTransition) && !e.IntegrationStatusChanged? ==>
                Did(w.newId, (if CanClaim(old(store.State()), id, worker.id, now)
                              then AfterRelease(AfterClaim(old(store.State()), id, worker.id, now, now + worker.leaseMs), id, worker.id)
                              else old(store.State()), false))
      ensures IsReady(old(store.State()), id, Event) ==>
                Did(w.newId, EventStep(old(store.State()), worker, id, now, e, w, admitted, old(stopping)))
      ensures !IsReady(old(store.State()), id, Event) && !IsReady(old(store.State()), id, StatusTransition) ==>
                Did(w.newId, (old(store.State()), false))
    {
      hide Debounce.StatusSection, SectionStep, KeysUnique, Dispatched;
      admitted := false;
      if id !in store.rules || id !in store.runtimes { return; }
      var rule, runtime := store.rules[id], store.runtimes[id];
      if !rule.enabled { return; }
      if DeclaredType(rule.source) == StatusTransition {
        var claimed := store.ClaimLease(id, worker.id, now, now + worker.leaseMs);
        if !claimed { return; }
        if !e.IntegrationStatusChanged? {
          store.ReleaseLease(id, worker.id);
          return;
        }
        ghost var leased := store.State();
        var cause := RunStatusSection(id, rule, runtime, now, e);
        ghost var section := Debounce.StatusSection(id, rule, leased.runtimes[id], runtime, now, e);
        assert store.State() == WithRow(leased, id, section.0);
        SectionOnWritten(leased, worker, id, rule, now, section, w);
        admitted := FinishSection(id, rule, now, cause, w);
      } else if DeclaredType(rule.source) == Event {
        var evaluation := Debounce.EvaluateRule(id, rule, runtime.lastTriggeredAt, Debounce.StatusOf(runtime.observed), now, e);
        if evaluation.Skip? { return; }
        admitted := ClaimAndDispatch(Job(id, rule, Occurrence(e), now, false, false), w);
      }
    }

    /** Schedules without a next run get one, unless the search finds none or the trigger is broken. */
    method SeedUnscheduled(ids: seq<RuleId>, now: Time)
      requires Valid()
      modifies store`runtimes
      ensures Valid() && store.State() == Seeded(old(store.State()), if stopping then [] else ids, now)
    {
      hide KeysUnique, NextScheduleRunAt;
      var i := 0;
      while i < |ids|
        invariant 0 <= i <= |ids| && Valid()
        invariant store.State() == Seeded(old(store.State()), if stopping then [] else ids[..i], now)
      {
        if stopping { return; }
        var id := ids[i];
        assert ids[..i + 1][..i] == ids[..i];
        if id in store.rules && store.rules[id].enabled && store.rules[id].source.Parsed? && store.rules[id].source.trigger.ScheduleTrigger? {
          var next := NextRun(store.rules[id].source.trigger.schedule, now);
          if next.Some? {
            store.UpdateRuntime(id, NO_CHANGE.(nextRunAt := Some(next)));
          }
        }
        i := i + 1;
      }
      assert ids[..|ids|] == ids;
    }
  }

  function SeedOne(db: Db, id: RuleId, now: Time): Db {
    if id in db.rules && db.rules[id].enabled && db.rules[id].source.Parsed? && db.rules[id].source.trigger.ScheduleTrigger? then
      var next := NextScheduleRunAt(db.rules[id].source.trigger.schedule, now);
      if next.Some? then AfterUpdate(db, id, NO_CHANGE.(nextRunAt := Some(next))) else db
    else db
  }

  /** #seedUnscheduled */
  function Seeded(db: Db, ids: seq<RuleId>, now: Time): Db {
    if ids == [] then db else SeedOne(Seeded(db, ids[..|ids| - 1], now), ids[|ids| - 1], now)
  }

  lemma SectionOnWritten(leased: Db, worker: Worker, id: RuleId, rule: Rule, now: Time, section: (Runtime, Option<Cause>), w: World)
    ensures forall admitted, off :: SectionStep(WithRow(leased, id, section.0), worker, id, rule, now, section, w, admitted, off)
                                    == SectionStep(leased, worker, id, rule, now, section, w, admitted, off)
  {
    assert WithRow(WithRow(leased, id, section.0), id, section.0) == WithRow(leased, id, section.0);
  }

  /** The unique index on run keys leaves no choice of the run that holds a key. */
  lemma OneRunPerKey(db: Db, key: string, run: RunId)
    requires KeysUnique(db.runs) && run in db.runs && db.runs[run].runKey == key
    ensures FindRun(db, key) == Some(run)
  {
  }

  lemma NoRunForKey(db: Db, key: string)
    requires !HasKey(db.runs, key)
    ensures FindRun(db, key) == None
  {
  }
}