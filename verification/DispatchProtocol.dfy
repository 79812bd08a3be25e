/**
  Any number of scheduler workers against one store (packages/automations/src/scheduler.ts, the
  method #claimAndDispatch, with the statements of packages/db/src/automation-runtime.ts).

  A task is one call of #claimAndDispatch; its program counter stands between two awaited calls, so
  every statement and every call out is one atomic step and tasks interleave freely.  Tasks start
  from any due list, however stale or duplicated, may share a worker, and may crash anywhere.
*/
module DispatchProtocol {
  import opened Common
  import opened AutomationStore
  import RunKeys

  type TaskId = nat

  const LEASE_MS := 60_000

  datatype Pc =
    | Claiming
    | Inserting
    // the key is taken
    | LookingUp
    | ClosingStale(stale: RunId)
    | AdvancingLate
    | ReleasingLate
    // the run is ours
    | Advancing
    | ReleasingEarly
    | Authorizing
    | Metering
    | CheckingStop
    | Dispatching
    | Finishing(status: RunStatus)
    | Recording(failed: bool)
    | Releasing
    | Done

  /** What a run is for: an occurrence of a rule. */
  datatype Occurrence = Occurrence(rule: RuleId, cause: RunKeys.Cause)

  /** Rule identifiers are UUIDs; slots, armings and events come from valid dates and parsed events. */
  predicate LegalJob(o: Occurrence) { RunKeys.IsRuleId(o.rule) && RunKeys.ValidCause(o.cause) }

  function KeyOf(o: Occurrence): string { RunKeys.RunKey(o.rule, o.cause) }

  datatype Task = Task(worker: WorkerId, job: Occurrence, now: Time, bump: bool, runId: RunId, pc: Pc)

  datatype Dispatch = Dispatch(runId: RunId, job: Occurrence)

  /** `origin` remembers which occurrence each run row was inserted for; the code has no such column. */
  datatype State = State(
    db: Db,
    tasks: map<TaskId, Task>,
    origin: map<RunId, Occurrence>,
    log: seq<Dispatch>)

  datatype Step =
    // one call of #claimAndDispatch
    | Spawn(t: TaskId, task: Task)
    | Claim(t: TaskId)
    | Insert(t: TaskId, newId: RunId)
    | LookUp(t: TaskId, found: RunId)
    | CloseStale(t: TaskId, at: Time)
    | Advance(t: TaskId, ok: bool, next: Option<Time>)
    | Authorize(t: TaskId, ok: bool)
    | Meter(t: TaskId, ok: bool)
    | CheckStop(t: TaskId, stopping: bool)
    | SendAction(t: TaskId, outcome: RunStatus)
    | Finish(t: TaskId, at: Time)
    | Record(t: TaskId, at: Time)
    | Release(t: TaskId)
    | Crash(t: TaskId)
    // the rest of the system
    | ClaimForSection(rule: RuleId, worker: WorkerId, now: Time)
    | ReleaseSection(rule: RuleId, worker: WorkerId)
    | WriteRuntime(rule: RuleId, patch: Patch)
    | SweepStale(now: Time)
    | CreateRule(rule: RuleId, row: Rule)
    | FlipEnabled(rule: RuleId, enabled: bool)
    | ResetState(rule: RuleId, next: Option<Time>)
    | DeleteRule(rule: RuleId)

  const EMPTY_RUNTIME := Runtime(None, None, None, None, 0, None, None)

  function Goto(s: State, t: TaskId, pc: Pc): State
    requires t in s.tasks
  {
    s.(tasks := s.tasks[t := s.tasks[t].(pc := pc)])
  }

  function AfterConflict(task: Task): Pc { if task.bump then AdvancingLate else ReleasingLate }

  /** Deleting a rule cascades to its runtime row and leaves its runs without a rule. */
  function AfterDelete(db: Db, rule: RuleId): Db {
    Db(db.rules - {rule}, db.runtimes - {rule},
       map i | i in db.runs ::
         if db.runs[i].automationId == Some(rule) then db.runs[i].(automationId := None) else db.runs[i])
  }

  function NewRun(task: Task): Run {
    Run(Some(task.job.rule), KeyOf(task.job), Running, task.now, None)
  }

  ghost predicate AtPc(s: State, t: TaskId, pc: Pc) { t in s.tasks && s.tasks[t].pc == pc }

  predicate IsSystemStep(step: Step) {
    step.Spawn? || step.ClaimForSection? || step.ReleaseSection? || step.WriteRuntime? || step.SweepStale?
    || step.CreateRule? || step.FlipEnabled? || step.ResetState? || step.DeleteRule?
  }

  ghost predicate TaskStep(s: State, step: Step, s': State)
    requires !IsSystemStep(step)
  {
    && step.t in s.tasks
    && var t := step.t;
       var task := s.tasks[t];
       match step
       case Claim(_) =>
         && task.pc == Claiming
         && s' == Goto(s.(db := AfterClaim(s.db, task.job.rule, task.worker, task.now, task.now + LEASE_MS)), t,
                       if CanClaim(s.db, task.job.rule, task.worker, task.now) then Inserting else Done)
       case Insert(_, newId) =>
         && task.pc == Inserting && newId !in s.db.runs
         && (if task.job.rule !in s.db.rules then s' == Goto(s, t, Done)
             else if HasKey(s.db.runs, KeyOf(task.job)) then s' == Goto(s, t, LookingUp)
             else s' == State(AfterInsert(s.db, newId, NewRun(task)),
                              s.tasks[t := task.(runId := newId, pc := if task.bump then Advancing else Authorizing)],
                              s.origin[newId := task.job], s.log))
       case LookUp(_, found) =>
         && task.pc == LookingUp && found in s.db.runs && s.db.runs[found].runKey == KeyOf(task.job)
         && s' == Goto(s, t, if Open(s.db.runs[found].status) then ClosingStale(found) else AfterConflict(task))
       case CloseStale(_, at) =>
         && task.pc.ClosingStale?
         && s' == Goto(s.(db := AfterFinish(s.db, task.pc.stale, Unclear, at)), t, AfterConflict(task))
       case Advance(_, ok, next) =>
         && (task.pc == Advancing || task.pc == AdvancingLate)
         && var db := if ok then AfterUpdate(s.db, task.job.rule, NO_CHANGE.(nextRunAt := Some(next))) else s.db;
            s' == Goto(s.(db := db), t,
                       if task.pc == AdvancingLate then ReleasingLate else if ok then Authorizing else ReleasingEarly)
       case Authorize(_, ok) =>
         task.pc == Authorizing && s' == Goto(s, t, if ok then Metering else Finishing(Denied))
       case Meter(_, ok) =>
         task.pc == Metering && s' == Goto(s, t, if ok then CheckingStop else Finishing(Skipped))
       case CheckStop(_, stopping) =>
         task.pc == CheckingStop && s' == Goto(s, t, if stopping then Finishing(Unclear) else Dispatching)
       case SendAction(_, outcome) =>
         && task.pc == Dispatching
         && s' == Goto(s.(log := s.log + [Dispatch(task.runId, task.job)]), t, Finishing(outcome))
       case Finish(_, at) =>
         && task.pc.Finishing?
         && s' == Goto(s.(db := AfterFinish(s.db, task.runId, task.pc.status, at)), t,
                       Recording(task.pc.status == Failed || task.pc.status == Unclear))
       case Record(_, at) =>
         && task.pc.Recording?
         && var failures := if task.job.rule in s.db.runtimes then s.db.runtimes[task.job.rule].failureCount else 0;
            var patch := NO_CHANGE.(lastTriggeredAt := Some(Some(at)), lastCompletedAt := Some(Some(at)),
                                    failureCount := Some(if task.pc.failed then failures + 1 else 0));
            s' == Goto(s.(db := AfterUpdate(s.db, task.job.rule, patch)), t, Releasing)
       case Release(_) =>
         && task.pc in {ReleasingLate, ReleasingEarly, Releasing}
         && s' == Goto(s.(db := AfterRelease(s.db, task.job.rule, task.worker)), t, Done)
       case Crash(_) => s' == s.(tasks := s.tasks - {t})
  }

  ghost predicate SystemStep(s: State, step: Step, s': State)
    requires IsSystemStep(step)
  {
    match step
    case Spawn(t, task) =>
      && t !in s.tasks && task.pc in {Claiming, Inserting} && LegalJob(task.job)
      && s' == s.(tasks := s.tasks[t := task])
    case ClaimForSection(rule, worker, now) =>
      s' == s.(db := AfterClaim(s.db, rule, worker, now, now + LEASE_MS))
    case ReleaseSection(rule, worker) => s' == s.(db := AfterRelease(s.db, rule, worker))
    case WriteRuntime(rule, patch) => s' == s.(db := AfterUpdate(s.db, rule, patch))
    case SweepStale(now) => s' == s.(db := AfterSweep(s.db, now, LEASE_MS))
    case CreateRule(rule, row) =>
      && rule !in s.db.rules && rule !in s.db.runtimes
      && s' == s.(db := s.db.(rules := s.db.rules[rule := row], runtimes := s.db.runtimes[rule := EMPTY_RUNTIME]))
    case FlipEnabled(rule, enabled) => rule in s.db.rules && s' == s.(db := EnableRule(s.db, rule, enabled))
    case ResetState(rule, next) => s' == s.(db := ResetRuntime(s.db, rule, next))
    case DeleteRule(rule) => s' == s.(db := AfterDelete(s.db, rule))
  }

  ghost predicate Next(s: State, step: Step, s': State) {
    if IsSystemStep(step) then SystemStep(s, step, s') else TaskStep(s, step, s')
  }

  const INIT := State(Db(map[], map[], map[]), map[], map[], [])

  ghost predicate Execution(states: seq<State>, steps: seq<Step>) {
    && |states| == |steps| + 1
    && states[0] == INIT
    && forall i | 0 <= i < |steps| :: Next(states[i], steps[i], states[i + 1])
  }

  // ---------------------------------------------------------------- at most once

  /** Between winning the insert and handing the action over. */
  predicate Holding(pc: Pc) {
    pc in {Advancing, Authorizing, Metering, CheckingStop, Dispatching}
  }

  ghost predicate RunsKnown(s: State) {
    && KeysUnique(s.db.runs)
    && s.origin.Keys == s.db.runs.Keys
    && forall i | i in s.db.runs :: s.db.runs[i].runKey == KeyOf(s.origin[i])
  }

  /** Every right to dispatch is one run row, and no row gives two rights. */
  ghost predicate RightsUnique(s: State) {
    && (forall t | t in s.tasks && Holding(s.tasks[t].pc) ::
          s.tasks[t].runId in s.origin && s.origin[s.tasks[t].runId] == s.tasks[t].job)
    && (forall t, u | t in s.tasks && u in s.tasks && t != u && Holding(s.tasks[t].pc) && Holding(s.tasks[u].pc) ::
          s.tasks[t].runId != s.tasks[u].runId)
    && (forall i | 0 <= i < |s.log| :: s.log[i].runId in s.origin && s.origin[s.log[i].runId] == s.log[i].job)
    && (forall i, j | 0 <= i < j < |s.log| :: s.log[i].runId != s.log[j].runId)
    && (forall i, t | 0 <= i < |s.log| && t in s.tasks && Holding(s.tasks[t].pc) :: s.log[i].runId != s.tasks[t].runId)
  }

  ghost predicate Inv(s: State) { RunsKnown(s) && RightsUnique(s) }

  /** Statements other than an insert leave every run's key alone. */
  ghost predicate SameKeys(runs: map<RunId, Run>, runs': map<RunId, Run>) {
    runs.Keys == runs'.Keys && forall i | i in runs :: runs'[i].runKey == runs[i].runKey
  }

  lemma RunStatementsKeepKeys(db: Db, run: RunId, status: RunStatus, at: Time, rule: RuleId)
    ensures SameKeys(db.runs, AfterFinish(db, run, status, at).runs)
    ensures SameKeys(db.runs, AfterSweep(db, at, LEASE_MS).runs)
    ensures SameKeys(db.runs, AfterDelete(db, rule).runs)
    ensures SameKeys(db.runs, db.runs)
  {
  }

  lemma SystemStepsAddNoKeys(s: State, step: Step, s': State)
    requires Next(s, step, s') && IsSystemStep(step)
    ensures SameKeys(s.db.runs, s'.db.runs) && s'.origin == s.origin
  {
    hide KeyOf, CanClaim, HasKey, SameKeys, AfterFinish, AfterSweep, AfterDelete, AfterUpdate, LegalJob, TaskStep;
    RunsKept(s.db);
    match step
    case SweepStale(now) => RunStatementsKeepKeys(s.db, "", Unclear, now, "");
    case DeleteRule(rule) => RunStatementsKeepKeys(s.db, "", Unclear, 0, rule);
    case _ => RunStatementsKeepKeys(s.db, "", Unclear, 0, "");
  }

  lemma TaskStepsAddNoKeys(s: State, step: Step, s': State)
    requires Next(s, step, s') && !IsSystemStep(step) && !step.Insert?
    ensures SameKeys(s.db.runs, s'.db.runs) && s'.origin == s.origin
  {
    hide KeyOf, CanClaim, HasKey, SameKeys, AfterFinish, AfterSweep, AfterDelete, AfterUpdate, LegalJob, SystemStep;
    RunsKept(s.db);
    match step
    case CloseStale(t, at) => RunStatementsKeepKeys(s.db, s.tasks[t].pc.stale, Unclear, at, "");
    case Finish(t, at) => RunStatementsKeepKeys(s.db, s.tasks[t].runId, s.tasks[t].pc.status, at, "");
    case _ => RunStatementsKeepKeys(s.db, "", Unclear, 0, "");
  }

  lemma OnlyInsertsAddKeys(s: State, step: Step, s': State)
    requires Next(s, step, s') && !step.Insert?
    ensures SameKeys(s.db.runs, s'.db.runs) && s'.origin == s.origin
  {
    hide Next, SameKeys;
    if IsSystemStep(step) { SystemStepsAddNoKeys(s, step, s'); } else { TaskStepsAddNoKeys(s, step, s'); }
  }

  lemma SameKeysKeepRunsKnown(s: State, s': State)
    requires RunsKnown(s) && SameKeys(s.db.runs, s'.db.runs) && s'.origin == s.origin
    ensures RunsKnown(s')
  {
    hide KeyOf;
  }

  lemma InsertKeepsRunsKnown(s: State, step: Step, s': State)
    requires Next(s, step, s') && RunsKnown(s) && step.Insert?
    ensures RunsKnown(s')
    ensures forall i | i in s.origin :: i in s'.origin && s'.origin[i] == s.origin[i]
    ensures forall i | i in s.db.runs :: s'.db.runs[i].runKey == s.db.runs[i].runKey
  {
    hide KeyOf, CanClaim, LegalJob, SystemStep, HasKey, KeysUnique;
    var task := s.tasks[step.t];
    if task.job.rule in s.db.rules && !HasKey(s.db.runs, KeyOf(task.job)) {
      InsertIsNew(s, step.newId, task);
      assert s'.db.runs == AfterInsert(s.db, step.newId, NewRun(task)).runs && s'.origin == s.origin[step.newId := task.job];
    } else {
      assert s'.db == s.db && s'.origin == s.origin;
    }
  }

  lemma InsertIsNew(s: State, newId: RunId, task: Task)
    requires RunsKnown(s) && newId !in s.db.runs && !HasKey(s.db.runs, KeyOf(task.job))
    ensures KeysUnique(AfterInsert(s.db, newId, NewRun(task)).runs)
    ensures forall i | i in s.db.runs :: s.db.runs[i].runKey != KeyOf(task.job)
  {
    hide KeyOf;
  }

  lemma StepKeepsRuns(s: State, step: Step, s': State)
    requires Next(s, step, s') && RunsKnown(s)
    ensures RunsKnown(s')
    ensures forall i | i in s.origin :: i in s'.origin && s'.origin[i] == s.origin[i]
    ensures forall i | i in s.db.runs :: s'.db.runs[i].runKey == s.db.runs[i].runKey
  {
    hide KeyOf, Next, KeysUnique;
    if step.Insert? {
      InsertKeepsRunsKnown(s, step, s');
    } else {
      OnlyInsertsAddKeys(s, step, s');
      SameKeysKeepRunsKnown(s, s');
    }
  }

  /** Steps other than an insert and a dispatch give nobody a new right. */
  ghost predicate NoNewRights(s: State, s': State) {
    && s'.log == s.log && s'.origin == s.origin
    && forall t | t in s'.tasks && Holding(s'.tasks[t].pc) ::
         t in s.tasks && Holding(s.tasks[t].pc) && s.tasks[t].runId == s'.tasks[t].runId && s.tasks[t].job == s'.tasks[t].job
  }

  lemma OtherStepsGiveNoRights(s: State, step: Step, s': State)
    requires Next(s, step, s') && !step.Insert? && !step.SendAction?
    ensures NoNewRights(s, s')
  {
    if IsSystemStep(step) {
      SystemStepsGiveNoRights(s, step, s');
    } else {
      TaskStepsGiveNoRights(s, step, s');
    }
    hide Next, NoNewRights;
  }

  lemma SystemStepsGiveNoRights(s: State, step: Step, s': State)
    requires IsSystemStep(step) && SystemStep(s, step, s')
    ensures NoNewRights(s, s')
  {
    hide KeyOf, HasKey, CanClaim, LegalJob, AfterClaim, AfterRelease, AfterUpdate, AfterSweep, AfterDelete;
  }

  lemma TaskStepsGiveNoRights(s: State, step: Step, s': State)
    requires !IsSystemStep(step) && TaskStep(s, step, s') && !step.Insert? && !step.SendAction?
    ensures NoNewRights(s, s')
  {
    hide KeyOf, HasKey, CanClaim, AfterClaim, AfterRelease, AfterUpdate, AfterFinish;
  }

  lemma InsertGivesOneRight(s: State, step: Step, s': State)
    requires Next(s, step, s') && Inv(s) && step.Insert?
    ensures RightsUnique(s')
  {
    hide KeyOf, HasKey, KeysUnique, SystemStep, AfterInsert, NewRun;
  }

  lemma DispatchSpendsTheRight(s: State, step: Step, s': State)
    requires Next(s, step, s') && Inv(s) && step.SendAction?
    ensures RightsUnique(s')
  {
    hide KeyOf, HasKey, KeysUnique, SystemStep, AfterInsert, NewRun;
  }

  lemma StepKeepsRights(s: State, step: Step, s': State)
    requires Next(s, step, s') && Inv(s)
    ensures RightsUnique(s')
  {
    if step.Insert? {
      InsertGivesOneRight(s, step, s');
    } else if step.SendAction? {
      DispatchSpendsTheRight(s, step, s');
    } else {
      OtherStepsGiveNoRights(s, step, s');
      hide Next, KeysUnique, KeyOf;
    }
  }

  lemma {:induction false} InvAlways(states: seq<State>, steps: seq<Step>, i: nat)
    requires Execution(states, steps) && i < |states|
    ensures Inv(states[i])
  {
    hide Next;
    if i > 0 {
      InvAlways(states, steps, i - 1);
      assert Next(states[i - 1], steps[i - 1], states[i]);
      StepKeepsRuns(states[i - 1], steps[i - 1], states[i]);
      StepKeepsRights(states[i - 1], steps[i - 1], states[i]);
    }
  }

  /** No run key is ever dispatched twice, in any interleaving, with any crashes. */
  lemma AtMostOnce(states: seq<State>, steps: seq<Step>, n: nat, i: nat, j: nat)
    requires Execution(states, steps) && n < |states|
    requires i < j < |states[n].log|
    ensures KeyOf(states[n].log[i].job) != KeyOf(states[n].log[j].job)
  {
    InvAlways(states, steps, n);
    var s := states[n];
    var a, b := s.log[i].runId, s.log[j].runId;
    assert s.db.runs[a].runKey == KeyOf(s.log[i].job);
    assert s.db.runs[b].runKey == KeyOf(s.log[j].job);
  }

  /** Hence an occurrence of a rule (a slot, an arming or an event) is acted on at most once. */
  lemma AtMostOncePerOccurrence(states: seq<State>, steps: seq<Step>, n: nat, i: nat, j: nat)
    requires Execution(states, steps) && n < |states|
    requires i < |states[n].log| && j < |states[n].log|
    ensures states[n].log[i].job == states[n].log[j].job ==> i == j
  {
    if i < j { AtMostOnce(states, steps, n, i, j); }
    if j < i { AtMostOnce(states, steps, n, j, i); }
  }

  ghost predicate JobsLegal(s: State) {
    && (forall t | t in s.tasks :: LegalJob(s.tasks[t].job))
    && (forall i | i in s.origin :: LegalJob(s.origin[i]))
  }

  lemma StepKeepsJobsLegal(s: State, step: Step, s': State)
    requires Next(s, step, s') && JobsLegal(s)
    ensures JobsLegal(s')
  {
    hide JobsLegal;
    if IsSystemStep(step) {
      SystemStepKeepsJobsLegal(s, step, s');
    } else {
      TaskStepKeepsJobsLegal(s, step, s');
    }
  }

  lemma SystemStepKeepsJobsLegal(s: State, step: Step, s': State)
    requires IsSystemStep(step) && SystemStep(s, step, s') && JobsLegal(s)
    ensures JobsLegal(s')
  {
    hide LegalJob, AfterClaim, AfterRelease, AfterUpdate, AfterSweep, AfterDelete;
  }

  lemma TaskStepKeepsJobsLegal(s: State, step: Step, s': State)
    requires !IsSystemStep(step) && TaskStep(s, step, s') && JobsLegal(s)
    ensures JobsLegal(s')
  {
    hide LegalJob, KeyOf, HasKey, CanClaim, AfterClaim, AfterRelease, AfterUpdate, AfterFinish, AfterInsert;
  }

  lemma {:induction false} JobsAlwaysLegal(states: seq<State>, steps: seq<Step>, i: nat)
    requires Execution(states, steps) && i < |states|
    ensures JobsLegal(states[i])
  {
    hide Next;
    if i > 0 {
      JobsAlwaysLegal(states, steps, i - 1);
      assert Next(states[i - 1], steps[i - 1], states[i]);
      StepKeepsJobsLegal(states[i - 1], steps[i - 1], states[i]);
    }
  }

  /**
    The other direction: an insert is refused only because the same occurrence of the same rule
    already has a run, so no slot, arming or event is suppressed by a different one.
  */
  lemma OnlyTheSameOccurrenceConflicts(states: seq<State>, steps: seq<Step>, n: nat, t: TaskId, found: RunId)
    requires Execution(states, steps) && n < |steps| && steps[n] == LookUp(t, found)
    ensures t in states[n].tasks && found in states[n].origin
    ensures states[n].origin[found].rule == states[n].tasks[t].job.rule
    ensures RunKeys.SameOccurrence(states[n].origin[found].cause, states[n].tasks[t].job.cause)
  {
    InvAlways(states, steps, n);
    JobsAlwaysLegal(states, steps, n);
    var s := states[n];
    assert Next(s, steps[n], states[n + 1]);
    hide Next;
    var mine, theirs := s.tasks[t].job, s.origin[found];
    RunKeys.RunKeyIdentifiesOccurrence(theirs.rule, theirs.cause, mine.rule, mine.cause);
  }

  /** The lease alone would not do: a worker's own lease never stops its second task. */
  lemma LeaseIsReentrant(db: Db, rule: RuleId, worker: WorkerId, now: Time, later: Time)
    requires CanClaim(db, rule, worker, now)
    ensures CanClaim(AfterClaim(db, rule, worker, now, now + LEASE_MS), rule, worker, later)
  {
  }

  // ---------------------------------------------------------------- leases and statuses over whole runs

  ghost predicate Leased(s: State, rule: RuleId, w: WorkerId, u: Time) {
    && rule in s.db.runtimes
    && s.db.runtimes[rule].leaseOwner == Some(w) && s.db.runtimes[rule].leaseUntil == Some(u)
  }

  /** The worker on whose behalf a step touches leases, if it does. */
  function ActingWorker(s: State, step: Step): Option<WorkerId> {
    match step
    case Claim(t) => if t in s.tasks then Some(s.tasks[t].worker) else None
    case Release(t) => if t in s.tasks then Some(s.tasks[t].worker) else None
    case ClaimForSection(_, w, _) => Some(w)
    case ReleaseSection(_, w) => Some(w)
    case _ => None
  }

  function ClaimTime(s: State, step: Step): Option<Time> {
    match step
    case Claim(t) => if t in s.tasks then Some(s.tasks[t].now) else None
    case ClaimForSection(_, _, now) => Some(now)
    case _ => None
  }

  /**
    A standing lease (w, u) is only ever touched by w itself, by a claim whose clock is past u, or
    by disabling, enabling or deleting the rule.
  */
  lemma LeaseIsRespected(s: State, step: Step, s': State, rule: RuleId, w: WorkerId, u: Time)
    requires Next(s, step, s') && Leased(s, rule, w, u) && !Leased(s', rule, w, u)
    ensures || ActingWorker(s, step) == Some(w)
            || (ClaimTime(s, step).Some? && ClaimTime(s, step).value > u)
            || (step.ResetState? && step.rule == rule)
            || (step.DeleteRule? && step.rule == rule)
  {
    hide KeyOf, HasKey, AfterUpdate, AfterFinish, AfterSweep, LegalJob;
    LeaseColumnsKept(s.db, rule);
    if IsSystemStep(step) {
      hide TaskStep;
    } else {
      hide SystemStep;
      LeaseTouchedByTask(s, step, s', rule, w, u);
      hide TaskStep;
    }
  }

  lemma LeaseTouchedByTask(s: State, step: Step, s': State, rule: RuleId, w: WorkerId, u: Time)
    requires !IsSystemStep(step) && TaskStep(s, step, s') && Leased(s, rule, w, u) && !Leased(s', rule, w, u)
    ensures ActingWorker(s, step) == Some(w) || (ClaimTime(s, step).Some? && ClaimTime(s, step).value > u)
  {
    hide KeyOf, HasKey, AfterUpdate, AfterFinish, LegalJob, SystemStep;
    LeaseColumnsKept(s.db, rule);
  }

  lemma LeaseColumnsKept(db: Db, rule: RuleId)
    requires rule in db.runtimes
    ensures forall id, p :: rule in AfterUpdate(db, id, p).runtimes
              && AfterUpdate(db, id, p).runtimes[rule].leaseOwner == db.runtimes[rule].leaseOwner
              && AfterUpdate(db, id, p).runtimes[rule].leaseUntil == db.runtimes[rule].leaseUntil
    ensures forall id, st, at :: AfterFinish(db, id, st, at).runtimes == db.runtimes
    ensures forall now :: AfterSweep(db, now, LEASE_MS).runtimes == db.runtimes
  {
  }

  /** A run that has reached a final status keeps its status for ever. */
  lemma {:induction false} FinalStatusStays(states: seq<State>, steps: seq<Step>, i: nat, j: nat, run: RunId)
    requires Execution(states, steps) && i <= j < |states|
    requires run in states[i].db.runs && !Open(states[i].db.runs[run].status)
    ensures run in states[j].db.runs
    ensures states[j].db.runs[run].status == states[i].db.runs[run].status
    ensures states[j].db.runs[run].finishedAt == states[i].db.runs[run].finishedAt
    decreases j - i
  {
    hide Next;
    if i < j {
      FinalStatusStays(states, steps, i, j - 1, run);
      assert Next(states[j - 1], steps[j - 1], states[j]);
      StepKeepsFinalRun(states[j - 1], steps[j - 1], states[j], run);
    }
  }

  lemma StepKeepsFinalRun(s: State, step: Step, s': State, run: RunId)
    requires Next(s, step, s') && run in s.db.runs && !Open(s.db.runs[run].status)
    ensures run in s'.db.runs && s'.db.runs[run].status == s.db.runs[run].status
    ensures s'.db.runs[run].finishedAt == s.db.runs[run].finishedAt
  {
    hide KeyOf, HasKey, CanClaim, AfterClaim, AfterRelease, AfterUpdate, LegalJob;
    RunsKept(s.db);
    if IsSystemStep(step) {
      hide TaskStep;
    } else {
      hide SystemStep;
    }
  }

  lemma RunsKept(db: Db)
    ensures forall id, w, n, u :: AfterClaim(db, id, w, n, u).runs == db.runs
    ensures forall id, w :: AfterRelease(db, id, w).runs == db.runs
    ensures forall id, p :: AfterUpdate(db, id, p).runs == db.runs
  {
  }

  /** Run rows survive everything the scheduler does: keys are never forgotten. */
  lemma {:induction false} KeysAreRemembered(states: seq<State>, steps: seq<Step>, i: nat, j: nat, run: RunId)
    requires Execution(states, steps) && i <= j < |states| && run in states[i].db.runs
    ensures run in states[j].db.runs && states[j].db.runs[run].runKey == states[i].db.runs[run].runKey
    decreases j - i
  {
    hide Next;
    if i < j {
      KeysAreRemembered(states, steps, i, j - 1, run);
      InvAlways(states, steps, j - 1);
      assert Next(states[j - 1], steps[j - 1], states[j]);
      StepKeepsRuns(states[j - 1], steps[j - 1], states[j]);
    }
  }
}
