/**
  One call of #claimAndDispatch taken alone (packages/automations/src/scheduler.ts): its single steps
  in DispatchProtocol and its effect as a whole in Scheduler are the same, so what holds of every
  execution of the protocol holds of the calls of the object.
*/
module DispatchRefinement {
  import opened Common
  import opened Evaluate
  import opened AutomationStore
  import RunKeys
  import S = Scheduler
  import P = DispatchProtocol

  /** A call with everything it is told, as the protocol and the object both see it. */
  datatype Call = Call(worker: S.Worker, job: S.Job, w: S.World, admitted: bool)

  /** A schedule is moved on only for rules that declare one, leases last as long as the protocol says, and the rule exists. */
  predicate Fits(c: Call, db: Db) {
    && c.worker.leaseMs == P.LEASE_MS && c.job.id in db.rules && c.w.newId !in db.runs
    && (c.job.bump ==> DeclaredType(c.job.rule.source) == Schedule)
  }

  function TaskOf(c: Call, runId: RunId, pc: P.Pc): P.Task {
    P.Task(c.worker.id, P.Occurrence(c.job.id, c.job.cause), c.job.now, c.job.bump, runId, pc)
  }

  /** The step parameters are what the call is told. */
  predicate Answers(c: Call, step: P.Step) {
    match step
    case Insert(_, newId) => newId == c.w.newId
    case CloseStale(_, at) => at == c.w.at
    case Advance(_, ok, next) => ok && next == NextSlot(c.job)
    case Authorize(_, ok) => ok == c.w.authorized
    case Meter(_, ok) => ok == c.admitted
    case CheckStop(_, stopping) => stopping == c.w.stopped
    case SendAction(_, outcome) => outcome == (if c.w.outcome.Some? then c.w.outcome.value else Unclear)
    case Finish(_, at) => at == c.w.at
    case Record(_, at) => at == c.w.at
    case Claim(_) => true
    case LookUp(_, _) => true
    case Release(_) => true
    case _ => false
  }

  /** What moving the schedule on writes. */
  function NextSlot(job: S.Job): Option<Time> {
    match job.rule.source
    case Parsed(ScheduleTrigger(config)) => S.NextScheduleRunAt(config, job.now)
    case _ => Some(job.now + 60_000)
  }

  // ---------------------------------------------------------------- what remains to be done

  function Conclude(db: Db, c: Call, runId: RunId, status: RunStatus): Db {
    S.AfterComplete(db, c.worker.id, c.job.id, runId, status, c.w.at)
  }

  function Recorded(db: Db, c: Call, failed: bool): Db {
    var failures := if failed then (if c.job.id in db.runtimes then db.runtimes[c.job.id].failureCount else 0) + 1 else 0;
    AfterUpdate(db, c.job.id, Patch(None, Some(Some(c.w.at)), Some(Some(c.w.at)), None, Some(failures)))
  }

  /** The verdict from a stage of the checks on. */
  function VerdictAt(c: Call, pc: P.Pc): (RunStatus, bool) {
    var outcome := if c.w.outcome.Some? then c.w.outcome.value else Unclear;
    if pc == P.Dispatching then (outcome, true)
    else if pc == P.CheckingStop then (if c.w.stopped then (Unclear, false) else (outcome, true))
    else if pc == P.Metering then (if !c.admitted then (Skipped, false) else if c.w.stopped then (Unclear, false) else (outcome, true))
    else S.Verdict(c.w, c.admitted)
  }

  /** The effect of the rest of the call from a program counter on, and whether the rest sends the action. */
  ghost function Rest(db: Db, c: Call, runId: RunId, pc: P.Pc): (Db, bool) {
    match pc
    case Claiming =>
      if CanClaim(db, c.job.id, c.worker.id, c.job.now)
      then S.Keyed(AfterClaim(db, c.job.id, c.worker.id, c.job.now, c.job.now + P.LEASE_MS), c.worker, c.job, c.w, c.admitted)
      else (db, false)
    case Inserting => S.Keyed(db, c.worker, c.job, c.w, c.admitted)
    case LookingUp =>
      (match S.FindRun(db, RunKeys.RunKey(c.job.id, c.job.cause))
       case Some(found) => (S.AfterConflict(db, c.worker, c.job, found, c.w.at), false)
       case None => (db, false))
    case ClosingStale(stale) =>
      (AfterRelease(S.Bumped(AfterFinish(db, stale, Unclear, c.w.at), c.job), c.job.id, c.worker.id), false)
    case AdvancingLate => (AfterRelease(S.Bumped(db, c.job), c.job.id, c.worker.id), false)
    case ReleasingLate => (AfterRelease(db, c.job.id, c.worker.id), false)
    case Advancing => (Conclude(S.Bumped(db, c.job), c, runId, VerdictAt(c, pc).0), VerdictAt(c, pc).1)
    case Authorizing => (Conclude(db, c, runId, VerdictAt(c, pc).0), VerdictAt(c, pc).1)
    case Metering => (Conclude(db, c, runId, VerdictAt(c, pc).0), VerdictAt(c, pc).1)
    case CheckingStop => (Conclude(db, c, runId, VerdictAt(c, pc).0), VerdictAt(c, pc).1)
    case Dispatching => (Conclude(db, c, runId, VerdictAt(c, pc).0), VerdictAt(c, pc).1)
    case Finishing(status) => (Conclude(db, c, runId, status), false)
    case Recording(failed) => (AfterRelease(Recorded(db, c, failed), c.job.id, c.worker.id), false)
    case Releasing => (AfterRelease(db, c.job.id, c.worker.id), false)
    case ReleasingEarly => (AfterRelease(db, c.job.id, c.worker.id), false)
    case Done => (db, false)
  }

  /** The task of the call stands at its program counter, knowing its run once it has one. */
  ghost predicate Stands(s: P.State, t: P.TaskId, c: Call) {
    && t in s.tasks && s.tasks[t] == TaskOf(c, s.tasks[t].runId, s.tasks[t].pc)
    && KeysUnique(s.db.runs) && c.job.id in s.db.rules
    && (c.job.bump ==> DeclaredType(c.job.rule.source) == Schedule)
    && c.worker.leaseMs == P.LEASE_MS
    && match s.tasks[t].pc
       case Claiming => c.w.newId !in s.db.runs
       case Inserting => c.w.newId !in s.db.runs
       case LookingUp => HasKey(s.db.runs, RunKeys.RunKey(c.job.id, c.job.cause))
       case AdvancingLate => c.job.bump
       case Advancing => c.job.bump && s.tasks[t].runId == c.w.newId
       case ClosingStale(stale) => stale in s.db.runs
       case ReleasingEarly => false
       case Authorizing => s.tasks[t].runId == c.w.newId
       case Metering => s.tasks[t].runId == c.w.newId
       case CheckingStop => s.tasks[t].runId == c.w.newId
       case Dispatching => s.tasks[t].runId == c.w.newId
       case Finishing(_) => s.tasks[t].runId == c.w.newId
       case _ => true
  }

  ghost function RestAt(s: P.State, t: P.TaskId, c: Call): (Db, bool)
    requires t in s.tasks
  {
    Rest(s.db, c, s.tasks[t].runId, s.tasks[t].pc)
  }

  /** A step that leaves the effect of the whole as it was. */
  ghost predicate Agrees(s: P.State, t: P.TaskId, c: Call, step: P.Step, s': P.State) {
    && t in s.tasks && Stands(s', t, c)
    && RestAt(s, t, c).0 == RestAt(s', t, c).0 && RestAt(s, t, c).1 == (step.SendAction? || RestAt(s', t, c).1)
    && !(step.SendAction? && RestAt(s', t, c).1)
    && s'.log == s.log + (if step.SendAction? then [P.Dispatch(c.w.newId, P.Occurrence(c.job.id, c.job.cause))] else [])
    && Rank(s'.tasks[t].pc) < Rank(s.tasks[t].pc)
  }

  /** How many steps remain at most. */
  function Rank(pc: P.Pc): nat {
    match pc
    case Claiming => 12 case Inserting => 11 case LookingUp => 10 case ClosingStale(_) => 9 case AdvancingLate => 8
    case ReleasingLate => 1 case Advancing => 8 case Authorizing => 7 case Metering => 6 case CheckingStop => 5
    case Dispatching => 4 case Finishing(_) => 3 case Recording(_) => 2 case Releasing => 1 case ReleasingEarly => 1
    case Done => 0
  }

  /** A step of the call itself, told what the call is told. */
  ghost predicate OwnStep(s: P.State, t: P.TaskId, c: Call, step: P.Step, s': P.State) {
    && !P.IsSystemStep(step) && !step.Crash? && step.t == t && Answers(c, step) && P.TaskStep(s, step, s')
  }

  lemma ClaimAgrees(s: P.State, t: P.TaskId, c: Call, step: P.Step, s': P.State)
    requires Stands(s, t, c) && OwnStep(s, t, c, step, s') && step.Claim?
    ensures Agrees(s, t, c, step, s')
  {
    hide S.Keyed, RunKeys.RunKey, KeysUnique;
  }

  lemma InsertAgrees(s: P.State, t: P.TaskId, c: Call, step: P.Step, s': P.State)
    requires Stands(s, t, c) && OwnStep(s, t, c, step, s') && step.Insert?
    ensures Agrees(s, t, c, step, s')
  {
    hide RunKeys.RunKey, S.AfterComplete, S.AfterAdvance, S.AfterConflict, CanClaim;
  }

  lemma LookUpAgrees(s: P.State, t: P.TaskId, c: Call, step: P.Step, s': P.State)
    requires Stands(s, t, c) && OwnStep(s, t, c, step, s') && step.LookUp?
    ensures Agrees(s, t, c, step, s')
  {
    hide RunKeys.RunKey, S.AfterComplete, S.AfterAdvance, S.FindRun, AfterFinish, AfterRelease, KeysUnique, HasKey, CanClaim,
         S.Verdict, S.Keyed, P.LegalJob, AfterClaim, AfterUpdate;
    S.OneRunPerKey(s.db, RunKeys.RunKey(c.job.id, c.job.cause), step.found);
  }

  lemma AdvanceAgrees(s: P.State, t: P.TaskId, c: Call, step: P.Step, s': P.State)
    requires Stands(s, t, c) && OwnStep(s, t, c, step, s') && (step.Advance? || step.CloseStale?)
    ensures Agrees(s, t, c, step, s')
  {
    hide RunKeys.RunKey, S.AfterComplete, S.NextScheduleRunAt, S.FindRun, S.Verdict;
  }

  lemma CheckAgrees(s: P.State, t: P.TaskId, c: Call, step: P.Step, s': P.State)
    requires Stands(s, t, c) && OwnStep(s, t, c, step, s') && (step.Authorize? || step.Meter?)
    ensures Agrees(s, t, c, step, s')
  {
    hide RunKeys.RunKey, S.AfterComplete, S.AfterAdvance, S.FindRun, KeysUnique, HasKey, CanClaim;
  }

  lemma SendAgrees(s: P.State, t: P.TaskId, c: Call, step: P.Step, s': P.State)
    requires Stands(s, t, c) && OwnStep(s, t, c, step, s') && (step.CheckStop? || step.SendAction?)
    ensures Agrees(s, t, c, step, s')
  {
    hide RunKeys.RunKey, S.AfterComplete, S.AfterAdvance, S.FindRun, KeysUnique, HasKey, CanClaim;
  }

  lemma FinishAgrees(s: P.State, t: P.TaskId, c: Call, step: P.Step, s': P.State)
    requires Stands(s, t, c) && OwnStep(s, t, c, step, s') && step.Finish?
    ensures Agrees(s, t, c, step, s')
  {
    hide RunKeys.RunKey, S.AfterAdvance, S.FindRun, HasKey, CanClaim;
  }

  lemma RecordAgrees(s: P.State, t: P.TaskId, c: Call, step: P.Step, s': P.State)
    requires Stands(s, t, c) && OwnStep(s, t, c, step, s') && (step.Record? || step.Release?)
    ensures Agrees(s, t, c, step, s')
  {
    hide RunKeys.RunKey, S.AfterAdvance, S.AfterComplete, S.FindRun, HasKey, CanClaim, KeysUnique;
  }

  /** Every step of the call leaves its effect as it was. */
  lemma StepAgrees(s: P.State, t: P.TaskId, c: Call, step: P.Step, s': P.State)
    requires Stands(s, t, c) && OwnStep(s, t, c, step, s')
    ensures Agrees(s, t, c, step, s')
  {
    if step.Claim? { ClaimAgrees(s, t, c, step, s'); }
    else if step.Insert? { InsertAgrees(s, t, c, step, s'); }
    else if step.LookUp? { LookUpAgrees(s, t, c, step, s'); }
    else if step.Advance? || step.CloseStale? { AdvanceAgrees(s, t, c, step, s'); }
    else if step.Finish? { FinishAgrees(s, t, c, step, s'); }
    else if step.Record? || step.Release? { RecordAgrees(s, t, c, step, s'); }
    else if step.Authorize? || step.Meter? { CheckAgrees(s, t, c, step, s'); }
    else { SendAgrees(s, t, c, step, s'); }
    hide Agrees, Stands, P.TaskStep;
  }

  // ---------------------------------------------------------------- the call alone

  /** A run of the call's own steps. */
  ghost predicate Alone(t: P.TaskId, c: Call, states: seq<P.State>, steps: seq<P.Step>) {
    |states| == |steps| + 1 && forall i | 0 <= i < |steps| :: OwnStep(states[i], t, c, steps[i], states[i + 1])
  }

  function Sent(c: Call, sends: bool): seq<P.Dispatch> {
    if sends then [P.Dispatch(c.w.newId, P.Occurrence(c.job.id, c.job.cause))] else []
  }

  /** However its steps go, a call that comes to its end has had the effect that was left to it. */
  lemma {:induction false} AloneHasEffect(t: P.TaskId, c: Call, states: seq<P.State>, steps: seq<P.Step>)
    requires Alone(t, c, states, steps) && Stands(states[0], t, c)
    ensures var last := states[|steps|]; t in last.tasks
    ensures var last := states[|steps|];
            last.tasks[t].pc == P.Done ==>
              && last.db == RestAt(states[0], t, c).0
              && last.log == states[0].log + Sent(c, RestAt(states[0], t, c).1)
    decreases |steps|
  {
    hide Stands, Rest, OwnStep;
    if steps == [] {
      assert t in states[0].tasks by { StandsThere(states[0], t, c); }
      if states[0].tasks[t].pc == P.Done {
        NothingRests(states[0].db, c, states[0].tasks[t].runId);
      }
    } else {
      assert OwnStep(states[0], t, c, steps[0], states[1]);
      StepAgrees(states[0], t, c, steps[0], states[1]);
      AloneHasEffect(t, c, states[1..], steps[1..]);
    }
  }

  lemma StandsThere(s: P.State, t: P.TaskId, c: Call)
    requires Stands(s, t, c)
    ensures t in s.tasks
  {
  }

  lemma NothingRests(db: Db, c: Call, runId: RunId)
    ensures Rest(db, c, runId, P.Done) == (db, false)
  {
  }

  predicate IsEarly(pc: P.Pc) { pc.Claiming? || pc.Inserting? || pc.LookingUp? || pc.ClosingStale? }

  predicate IsMiddle(pc: P.Pc) { pc.AdvancingLate? || pc.Advancing? || pc.Authorizing? || pc.Metering? || pc.CheckingStop? }

  lemma NextEarlyStep(s: P.State, t: P.TaskId, c: Call) returns (step: P.Step, s': P.State)
    requires Stands(s, t, c) && IsEarly(s.tasks[t].pc)
    ensures OwnStep(s, t, c, step, s')
  {
    hide RunKeys.RunKey, CanClaim, KeysUnique, AfterFinish, AfterUpdate, AfterClaim, AfterRelease, AfterInsert,
         S.NextScheduleRunAt;
    var task, db := s.tasks[t], s.db;
    match task.pc {
      case Claiming =>
        step := P.Claim(t);
        s' := P.Goto(s.(db := AfterClaim(db, task.job.rule, task.worker, task.now, task.now + P.LEASE_MS)), t,
                     if CanClaim(db, task.job.rule, task.worker, task.now) then P.Inserting else P.Done);
      case Inserting =>
        step := P.Insert(t, c.w.newId);
        s' := if HasKey(db.runs, P.KeyOf(task.job)) then P.Goto(s, t, P.LookingUp)
              else P.State(AfterInsert(db, c.w.newId, P.NewRun(task)),
                           s.tasks[t := task.(runId := c.w.newId, pc := if task.bump then P.Advancing else P.Authorizing)],
                           s.origin[c.w.newId := task.job], s.log);
      case LookingUp =>
        var found :| found in db.runs && db.runs[found].runKey == P.KeyOf(task.job);
        step := P.LookUp(t, found);
        s' := P.Goto(s, t, if Open(db.runs[found].status) then P.ClosingStale(found) else P.AfterConflict(task));
      case ClosingStale(stale) =>
        step := P.CloseStale(t, c.w.at);
        s' := P.Goto(s.(db := AfterFinish(db, stale, Unclear, c.w.at)), t, P.AfterConflict(task));
    }
  }

  lemma NextMiddleStep(s: P.State, t: P.TaskId, c: Call) returns (step: P.Step, s': P.State)
    requires Stands(s, t, c) && IsMiddle(s.tasks[t].pc)
    ensures OwnStep(s, t, c, step, s')
  {
    hide RunKeys.RunKey, CanClaim, KeysUnique, AfterFinish, AfterUpdate, AfterClaim, AfterRelease, AfterInsert,
         S.NextScheduleRunAt;
    var task, db := s.tasks[t], s.db;
    match task.pc {
      case AdvancingLate =>
        step := P.Advance(t, true, NextSlot(c.job));
        s' := P.Goto(s.(db := AfterUpdate(db, task.job.rule, NO_CHANGE.(nextRunAt := Some(NextSlot(c.job))))), t, P.ReleasingLate);
      case Advancing =>
        step := P.Advance(t, true, NextSlot(c.job));
        s' := P.Goto(s.(db := AfterUpdate(db, task.job.rule, NO_CHANGE.(nextRunAt := Some(NextSlot(c.job))))), t, P.Authorizing);
      case Authorizing =>
        step := P.Authorize(t, c.w.authorized);
        s' := P.Goto(s, t, if c.w.authorized then P.Metering else P.Finishing(Denied));
      case Metering =>
        step := P.Meter(t, c.admitted);
        s' := P.Goto(s, t, if c.admitted then P.CheckingStop else P.Finishing(Skipped));
      case CheckingStop =>
        step := P.CheckStop(t, c.w.stopped);
        s' := P.Goto(s, t, if c.w.stopped then P.Finishing(Unclear) else P.Dispatching);
    }
  }

  lemma NextLateStep(s: P.State, t: P.TaskId, c: Call) returns (step: P.Step, s': P.State)
    requires Stands(s, t, c) && !IsEarly(s.tasks[t].pc) && !IsMiddle(s.tasks[t].pc) && s.tasks[t].pc != P.Done
    ensures OwnStep(s, t, c, step, s')
  {
    hide RunKeys.RunKey, CanClaim, KeysUnique, AfterFinish, AfterUpdate, AfterClaim, AfterRelease, AfterInsert,
         S.NextScheduleRunAt;
    var task, db := s.tasks[t], s.db;
    if task.pc.Dispatching? {
      var outcome := if c.w.outcome.Some? then c.w.outcome.value else Unclear;
      step := P.SendAction(t, outcome);
      s' := P.Goto(s.(log := s.log + [P.Dispatch(task.runId, task.job)]), t, P.Finishing(outcome));
    } else if task.pc.Finishing? {
      var status := task.pc.status;
      step := P.Finish(t, c.w.at);
      s' := P.Goto(s.(db := AfterFinish(db, task.runId, status, c.w.at)), t, P.Recording(status == Failed || status == Unclear));
    } else if task.pc.Recording? {
      var failed := task.pc.failed;
      step := P.Record(t, c.w.at);
      var failures := if task.job.rule in db.runtimes then db.runtimes[task.job.rule].failureCount else 0;
      var patch := NO_CHANGE.(lastTriggeredAt := Some(Some(c.w.at)), lastCompletedAt := Some(Some(c.w.at)),
                              failureCount := Some(if failed then failures + 1 else 0));
      s' := P.Goto(s.(db := AfterUpdate(db, task.job.rule, patch)), t, P.Releasing);
    } else {
      step := P.Release(t);
      s' := P.Goto(s.(db := AfterRelease(db, task.job.rule, task.worker)), t, P.Done);
    }
  }

  /** A call that has not come to its end has a next step. */
  lemma NextOwnStep(s: P.State, t: P.TaskId, c: Call) returns (step: P.Step, s': P.State)
    requires Stands(s, t, c) && s.tasks[t].pc != P.Done
    ensures OwnStep(s, t, c, step, s')
  {
    hide Stands, OwnStep;
    assert t in s.tasks by { StandsThere(s, t, c); }
    if IsEarly(s.tasks[t].pc) {
      step, s' := NextEarlyStep(s, t, c);
    } else if IsMiddle(s.tasks[t].pc) {
      step, s' := NextMiddleStep(s, t, c);
    } else {
      step, s' := NextLateStep(s, t, c);
    }
  }

  /** Every call can be taken to its end by its own steps alone. */
  lemma {:induction false} RunsToItsEnd(s: P.State, t: P.TaskId, c: Call) returns (states: seq<P.State>, steps: seq<P.Step>)
    requires Stands(s, t, c)
    ensures Alone(t, c, states, steps) && states[0] == s && t in states[|steps|].tasks && states[|steps|].tasks[t].pc == P.Done
    decreases Rank(s.tasks[t].pc)
  {
    hide OwnStep, Rest, RestAt, Stands;
    assert t in s.tasks by { StandsThere(s, t, c); }
    if s.tasks[t].pc == P.Done {
      states, steps := [s], [];
    } else {
      var step, s' := NextOwnStep(s, t, c);
      StepAgrees(s, t, c, step, s');
      assert t in s'.tasks by { StandsThere(s', t, c); }
      states, steps := RunsToItsEnd(s', t, c);
      states, steps := [s] + states, [step] + steps;
    }
  }

  /** The effect of the object's call is what is left to the task at its start. */
  lemma StartIsDispatched(s: P.State, t: P.TaskId, c: Call)
    requires Stands(s, t, c) && s.tasks[t].pc == (if c.job.claimed then P.Inserting else P.Claiming)
    ensures RestAt(s, t, c) == S.Dispatched(s.db, c.worker, c.job, c.w, c.admitted, false)
  {
    hide S.Keyed, CanClaim;
  }

  /** Taken alone through the protocol, a call has exactly the effect of the object's method, in whichever way it gets to its end. */
  lemma CallIsItsSteps(t: P.TaskId, c: Call, states: seq<P.State>, steps: seq<P.Step>)
    requires Alone(t, c, states, steps) && Stands(states[0], t, c)
    requires states[0].tasks[t].pc == (if c.job.claimed then P.Inserting else P.Claiming)
    requires t in states[|steps|].tasks && states[|steps|].tasks[t].pc == P.Done
    ensures var effect := S.Dispatched(states[0].db, c.worker, c.job, c.w, c.admitted, false);
            && states[|steps|].db == effect.0
            && states[|steps|].log == states[0].log + Sent(c, effect.1)
  {
    hide Stands, S.Dispatched, Rest, OwnStep;
    AloneHasEffect(t, c, states, steps);
    assert t in states[0].tasks by { StandsThere(states[0], t, c); }
    StartIsDispatched(states[0], t, c);
  }

  // ---------------------------------------------------------------- calls of objects as executions

  lemma OwnStepsAreSteps(t: P.TaskId, c: Call, s: P.State, step: P.Step, s': P.State)
    requires OwnStep(s, t, c, step, s')
    ensures P.Next(s, step, s')
  {
  }

  /** After any execution, a call of the object is so many more steps of the protocol. */
  lemma CallExtendsExecution(states: seq<P.State>, steps: seq<P.Step>, t: P.TaskId, c: Call)
    returns (more: seq<P.State>, moreSteps: seq<P.Step>)
    requires P.Execution(states, steps) && Fits(c, states[|steps|].db) && t !in states[|steps|].tasks
    requires P.LegalJob(P.Occurrence(c.job.id, c.job.cause))
    ensures P.Execution(more, moreSteps)
    ensures var effect := S.Dispatched(states[|steps|].db, c.worker, c.job, c.w, c.admitted, false);
            && more[|moreSteps|].db == effect.0
            && more[|moreSteps|].log == states[|steps|].log + Sent(c, effect.1)
  {
    hide P.Next, P.LegalJob, S.Dispatched, OwnStep, RunKeys.RunKey, HasKey, CanClaim, Rest;
    var s := states[|steps|];
    var pc := if c.job.claimed then P.Inserting else P.Claiming;
    var task := TaskOf(c, "", pc);
    var spawned := s.(tasks := s.tasks[t := task]);
    assert P.Next(s, P.Spawn(t, task), spawned) by { SpawnIsAStep(s, t, task); }
    assert KeysUnique(s.db.runs) by { P.InvAlways(states, steps, |steps|); }
    assert Stands(spawned, t, c);
    var own, ownSteps := RunsToItsEnd(spawned, t, c);
    CallIsItsSteps(t, c, own, ownSteps);
    hide Stands, Fits, KeysUnique;
    more, moreSteps := states + own, steps + [P.Spawn(t, task)] + ownSteps;
    forall i | 0 <= i < |moreSteps|
      ensures P.Next(more[i], moreSteps[i], more[i + 1])
    {
      if i > |steps| {
        var k := i - |steps| - 1;
        assert OwnStep(own[k], t, c, ownSteps[k], own[k + 1]);
        OwnStepsAreSteps(t, c, own[k], ownSteps[k], own[k + 1]);
      }
    }
  }

  lemma SpawnIsAStep(s: P.State, t: P.TaskId, task: P.Task)
    requires t !in s.tasks && task.pc in {P.Claiming, P.Inserting} && P.LegalJob(task.job)
    ensures P.Next(s, P.Spawn(t, task), s.(tasks := s.tasks[t := task]))
  {
  }

  /** What happens to the database of objects: a call of a scheduler, or any other statement of the system. */
  datatype Move = Calls(call: Call) | Statement(step: P.Step)

  function Bare(db: Db): P.State { P.State(db, map[], map[], []) }

  ghost predicate Moves(db: Db, move: Move, after: Db, sent: bool) {
    match move
    case Calls(c) =>
      && Fits(c, db) && P.LegalJob(P.Occurrence(c.job.id, c.job.cause))
      && (after, sent) == S.Dispatched(db, c.worker, c.job, c.w, c.admitted, false)
    case Statement(step) => P.IsSystemStep(step) && !step.Spawn? && P.SystemStep(Bare(db), step, Bare(after)) && !sent
  }

  /** Any number of objects on one database, their calls one after another. */
  ghost predicate ObjectRun(dbs: seq<Db>, moves: seq<Move>, sents: seq<bool>) {
    && |dbs| == |moves| + 1 && |sents| == |moves| && dbs[0] == P.INIT.db
    && forall i | 0 <= i < |moves| :: Moves(dbs[i], moves[i], dbs[i + 1], sents[i])
  }

  /** The actions sent by the first `n` moves. */
  function LogOf(moves: seq<Move>, sents: seq<bool>, n: nat): seq<P.Dispatch>
    requires n <= |moves| == |sents|
  {
    if n == 0 then []
    else LogOf(moves, sents, n - 1) + (if moves[n - 1].Calls? then Sent(moves[n - 1].call, sents[n - 1]) else [])
  }

  lemma StatementExtendsExecution(states: seq<P.State>, steps: seq<P.Step>, step: P.Step, after: Db)
    returns (more: seq<P.State>, moreSteps: seq<P.Step>)
    requires P.Execution(states, steps) && P.IsSystemStep(step) && !step.Spawn?
    requires P.SystemStep(Bare(states[|steps|].db), step, Bare(after))
    ensures P.Execution(more, moreSteps)
    ensures more[|moreSteps|].db == after && more[|moreSteps|].log == states[|steps|].log
  {
    hide P.TaskStep, AfterClaim, AfterRelease, AfterUpdate, AfterSweep, P.AfterDelete, EnableRule, ResetRuntime;
    var s := states[|steps|];
    var s' := s.(db := after);
    assert P.SystemStep(s, step, s');
    hide P.SystemStep;
    more, moreSteps := states + [s'], steps + [step];
    assert P.Next(s, step, s');
    forall i | 0 <= i < |moreSteps|
      ensures P.Next(more[i], moreSteps[i], more[i + 1])
    {
      if i < |steps| { assert P.Next(states[i], steps[i], states[i + 1]); }
    }
  }

  /** A task identifier no task has. */
  ghost function FreshTask(tasks: map<P.TaskId, P.Task>): (t: P.TaskId)
    ensures t !in tasks
  {
    Above(tasks.Keys);
    var t: P.TaskId :| t !in tasks;
    t
  }

  lemma Above(ids: set<P.TaskId>)
    ensures exists t: P.TaskId :: t !in ids
  {
    var bound := BoundOf(ids);
    assert bound !in ids;
  }

  lemma {:induction false} BoundOf(ids: set<P.TaskId>) returns (bound: P.TaskId)
    ensures forall t | t in ids :: t < bound
    decreases |ids|
  {
    if ids == {} {
      bound := 0;
    } else {
      var t :| t in ids;
      var rest := BoundOf(ids - {t});
      bound := Max(rest, t + 1);
      assert forall u | u in ids :: u == t || u in ids - {t};
    }
  }

  /** Every run of objects is an execution of the protocol with the same database and the same actions sent. */
  lemma {:induction false} ObjectsFollowTheProtocol(dbs: seq<Db>, moves: seq<Move>, sents: seq<bool>, n: nat)
    returns (states: seq<P.State>, steps: seq<P.Step>)
    requires ObjectRun(dbs, moves, sents) && n <= |moves|
    ensures P.Execution(states, steps)
    ensures states[|steps|].db == dbs[n] && states[|steps|].log == LogOf(moves, sents, n)
  {
    hide P.Next, P.LegalJob, S.Dispatched, P.SystemStep, Fits;
    if n == 0 {
      states, steps := [P.INIT], [];
    } else {
      states, steps := ObjectsFollowTheProtocol(dbs, moves, sents, n - 1);
      assert Moves(dbs[n - 1], moves[n - 1], dbs[n], sents[n - 1]);
      match moves[n - 1] {
        case Calls(c) => states, steps := CallExtendsExecution(states, steps, FreshTask(states[|steps|].tasks), c);
        case Statement(step) => states, steps := StatementExtendsExecution(states, steps, step, dbs[n]);
      }
    }
  }

  lemma {:induction false} LogHolds(moves: seq<Move>, sents: seq<bool>, i: nat, n: nat)
    requires i < n <= |moves| == |sents| && moves[i].Calls? && sents[i]
    ensures LogOf(moves, sents, i) <= LogOf(moves, sents, n) && |LogOf(moves, sents, i)| < |LogOf(moves, sents, n)|
    ensures LogOf(moves, sents, n)[|LogOf(moves, sents, i)|].job == P.Occurrence(moves[i].call.job.id, moves[i].call.job.cause)
  {
    if i < n - 1 { LogHolds(moves, sents, i, n - 1); }
  }

  /** No two calls of any objects send an action for one run key. */
  lemma ObjectsSendAtMostOnce(dbs: seq<Db>, moves: seq<Move>, sents: seq<bool>, i: nat, j: nat)
    requires ObjectRun(dbs, moves, sents) && i < j < |moves| && moves[i].Calls? && moves[j].Calls? && sents[i] && sents[j]
    ensures RunKeys.RunKey(moves[i].call.job.id, moves[i].call.job.cause) != RunKeys.RunKey(moves[j].call.job.id, moves[j].call.job.cause)
  {
    hide P.Execution, ObjectRun, RunKeys.RunKey;
    assert |moves| == |sents| by { RunLengths(dbs, moves, sents); }
    var states, steps := ObjectsFollowTheProtocol(dbs, moves, sents, |moves|);
    LogHolds(moves, sents, i, j);
    LogHolds(moves, sents, i, |moves|);
    LogHolds(moves, sents, j, |moves|);
    assert |states| == |steps| + 1 by { ExecutionLengths(states, steps); }
    P.AtMostOnce(states, steps, |steps|, |LogOf(moves, sents, i)|, |LogOf(moves, sents, j)|);
  }

  lemma RunLengths(dbs: seq<Db>, moves: seq<Move>, sents: seq<bool>)
    requires ObjectRun(dbs, moves, sents)
    ensures |moves| == |sents|
  {
  }

  lemma ExecutionLengths(states: seq<P.State>, steps: seq<P.Step>)
    requires P.Execution(states, steps)
    ensures |states| == |steps| + 1
  {
  }
}
