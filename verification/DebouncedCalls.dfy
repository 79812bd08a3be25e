/**
  Calls of schedulers on one status-transition rule, one after another, give a run of the debounce
  state machine; so what Debounce proves of runs holds of the handlers of
  packages/automations/src/scheduler.ts on the database they leave.
*/
module DebouncedCalls {
  import opened Common
  import opened Evaluate
  import opened AutomationStore
  import opened RunKeys
  import opened Scheduler
  import Calendar
  import D = Debounce

  /** A call with everything it is told; `Elsewhere` is any other work, which may move the rule's lease and next run. */
  datatype Call =
    | Timer(worker: Worker, now: Time, w: World, admitted: bool, off: bool)
    | Status(worker: Worker, now: Time, e: DomainEvent, w: World, admitted: bool, off: bool)
    | Elsewhere

  /** The database after a call, and whether it sent the rule's action. */
  ghost predicate Effect(id: RuleId, rule: Rule, db: Db, call: Call, after: Db, sent: bool) {
    && id in db.rules && db.rules[id] == rule && id in db.runtimes
    && id in after.rules && after.rules[id] == rule && id in after.runtimes
    && match call
       case Timer(worker, now, w, admitted, off) =>
         w.newId !in db.runs && (after, sent) == DebounceStep(db, worker, id, now, w, admitted, off)
       case Status(worker, now, e, w, admitted, off) =>
         && e.IntegrationStatusChanged? && ValidEvent(e) && Calendar.InIsoRange(now) && w.newId !in db.runs
         && (after, sent) == StatusStep(db, worker, id, now, e, w, admitted, off)
       case Elsewhere =>
         && !sent
         && after.runtimes[id] == db.runtimes[id].(nextRunAt := after.runtimes[id].nextRunAt,
                                                   leaseOwner := after.runtimes[id].leaseOwner,
                                                   leaseUntil := after.runtimes[id].leaseUntil)
  }

  /** Whether the call got the lease and ran its section. */
  predicate Runs(id: RuleId, db: Db, call: Call) {
    match call
    case Timer(worker, now, _, _, _) =>
      IsReady(db, id, StatusTransition) && D.Due(db.runtimes[id], now) && CanClaim(db, id, worker.id, now)
    case Status(worker, now, e, _, _, _) => IsReady(db, id, StatusTransition) && CanClaim(db, id, worker.id, now)
    case Elsewhere => false
  }

  ghost predicate Calls(id: RuleId, rule: Rule, dbs: seq<Db>, calls: seq<Call>, sents: seq<bool>) {
    && D.IsStatusRule(rule) && |dbs| == |calls| + 1 && |sents| == |calls|
    && id in dbs[0].runtimes && dbs[0].runtimes[id].observed.None? && dbs[0].runtimes[id].lastTriggeredAt.None?
    && forall i | 0 <= i < |calls| :: Effect(id, rule, dbs[i], calls[i], dbs[i + 1], sents[i])
  }

  // ---------------------------------------------------------------- one call as steps of the machine

  /** The row of the section under the lease, as the handler leaves it to the dispatch. */
  function SectionOf(id: RuleId, rule: Rule, row: Runtime, call: Call): (Runtime, Option<Cause>)
    requires D.IsStatusRule(rule) && (call.Timer? || (call.Status? && call.e.IntegrationStatusChanged?))
  {
    var leased := row.(leaseOwner := Some(call.worker.id), leaseUntil := Some(call.now + call.worker.leaseMs));
    if call.Timer? then D.TimerSection(id, rule, leased, row, call.now)
    else D.StatusSection(id, rule, leased, row, call.now, call.e)
  }

  predicate SameButLease(row: Runtime, after: Runtime) {
    after == row.(leaseOwner := after.leaseOwner, leaseUntil := after.leaseUntil)
  }

  /** The row with a run's completion recorded. */
  predicate Completed(row: Runtime, after: Runtime) {
    && after.lastTriggeredAt.Some?
    && SameButLease(row.(lastTriggeredAt := after.lastTriggeredAt, lastCompletedAt := after.lastTriggeredAt,
                         failureCount := after.failureCount), after)
  }

  /** What a dispatch under the section's lease may do to the rule's row. */
  predicate Concluded(row: Runtime, after: Runtime) { SameButLease(row, after) || Completed(row, after) }

  lemma ConcludesAtOnce(row: Runtime)
    ensures Concluded(row, row)
  {
  }

  lemma KeyedConcludes(db: Db, worker: Worker, job: Job, w: World, admitted: bool)
    requires job.id in db.runtimes && !job.bump
    ensures var after := Keyed(db, worker, job, w, admitted).0;
            job.id in after.runtimes && Concluded(db.runtimes[job.id], after.runtimes[job.id])
  {
    hide RunKey, FindRun, Verdict;
  }

  lemma ReleaseConcludes(row: Runtime, db: Db, id: RuleId, worker: WorkerId)
    requires id in db.runtimes && Concluded(row, db.runtimes[id])
    ensures var after := AfterRelease(db, id, worker); id in after.runtimes && Concluded(row, after.runtimes[id])
  {
  }

  /** A call that runs its section leaves the section's row, concluded; it sends only if the section asks for it. */
  lemma CallMeaning(id: RuleId, rule: Rule, db: Db, call: Call, after: Db, sent: bool)
    requires Effect(id, rule, db, call, after, sent) && D.IsStatusRule(rule) && Runs(id, db, call)
    ensures var section := SectionOf(id, rule, db.runtimes[id], call);
            Concluded(section.0, after.runtimes[id]) && (sent ==> section.1.Some?)
  {
    hide Concluded, Keyed, ValidEvent, D.TimerSection, D.StatusSection;
    var section := SectionOf(id, rule, db.runtimes[id], call);
    var leased := AfterClaim(db, id, call.worker.id, call.now, call.now + call.worker.leaseMs);
    var written := WithRow(leased, id, section.0);
    assert written.runtimes[id] == section.0;
    ConcludesAtOnce(section.0);
    if section.1.Some? {
      var job := Job(id, rule, section.1.value, call.now, false, true);
      if call.off {
        ReleaseConcludes(section.0, written, id, call.worker.id);
      } else {
        KeyedConcludes(written, call.worker, job, call.w, call.admitted);
        ReleaseConcludes(section.0, Keyed(written, call.worker, job, call.w, call.admitted).0, id, call.worker.id);
      }
    } else {
      ReleaseConcludes(section.0, written, id, call.worker.id);
    }
  }

  /** A call that does not run its section leaves the row as it was. */
  lemma IdleCall(id: RuleId, rule: Rule, db: Db, call: Call, after: Db, sent: bool)
    requires Effect(id, rule, db, call, after, sent) && !Runs(id, db, call) && !call.Elsewhere?
    ensures after == db && !sent
  {
    hide SectionStep, ValidEvent, D.TimerSection, D.StatusSection;
  }

  // ---------------------------------------------------------------- the run of the machine

  /** Steps that are no section: they fire nothing and touch neither the observed status nor a pending record. */
  predicate IsUpkeep(s: D.Step) { s.OnLease? || s.OnCompleted? || s.OnReset? }

  /** The steps of one call, from position `p` to `q`. */
  ghost predicate Block(h: D.History, p: nat, q: nat, id: RuleId, db: Db, call: Call, sent: bool)
    requires p <= q <= |h.steps| == |h.fires|
  {
    if Runs(id, db, call) then
      && !call.Elsewhere? && q == p + 4 && h.steps[p].OnLease? && IsUpkeep(h.steps[p + 2]) && IsUpkeep(h.steps[p + 3])
      && h.steps[p + 1] == (if call.Timer? then D.OnTimer(call.now, p) else D.OnStatus(call.now, call.e, p))
      && (sent ==> h.fires[p + 1].Some?)
    else if call.Elsewhere? then q == p + 2 && IsUpkeep(h.steps[p]) && IsUpkeep(h.steps[p + 1]) && !sent
    else q == p && !sent
  }

  /** The history passes through the rule's row of every database, and between two of them takes the call's steps. */
  ghost predicate Traces(h: D.History, at: seq<nat>, id: RuleId, rule: Rule, dbs: seq<Db>, calls: seq<Call>, sents: seq<bool>, n: nat)
    requires Calls(id, rule, dbs, calls, sents) && n <= |calls|
  {
    && D.Run(h) && h.id == id && h.rule == rule && |at| == n + 1 && at[0] == 0 && at[n] == |h.steps|
    && (forall i | 0 <= i <= n :: at[i] <= |h.steps| && id in dbs[i].runtimes && h.rows[at[i]] == dbs[i].runtimes[id])
    && (forall i | 0 <= i < n :: at[i] <= at[i + 1])
    && forall i | 0 <= i < n :: Block(h, at[i], at[i + 1], id, dbs[i], calls[i], sents[i])
  }

  function Extended(h: D.History, step: D.Step, row: Runtime, fire: Option<Cause>): D.History {
    h.(rows := h.rows + [row], steps := h.steps + [step], fires := h.fires + [fire])
  }

  lemma ExtendedRuns(h: D.History, step: D.Step, row: Runtime, fire: Option<Cause>)
    requires D.Run(h) && D.LegalStep(step, |h.steps|)
    requires var now := h.rows[|h.steps|];
             (row, fire) ==
             match step
             case OnStatus(t, e, seen) => D.StatusSection(h.id, h.rule, now, h.rows[seen], t, e)
             case OnTimer(t, seen) => D.TimerSection(h.id, h.rule, now, h.rows[seen], t)
             case OnReset(next) => (now.(nextRunAt := next, leaseOwner := None, leaseUntil := None), None)
             case OnCompleted(at, failures) =>
               (now.(lastTriggeredAt := Some(at), lastCompletedAt := Some(at), failureCount := failures), None)
             case OnLease(owner, until) => (now.(leaseOwner := owner, leaseUntil := until), None)
    ensures D.Run(Extended(h, step, row, fire))
  {
    hide D.StatusSection, D.TimerSection, ValidEvent, Calendar.InIsoRange;
    var g := Extended(h, step, row, fire);
    forall i | 0 <= i < |g.steps|
      ensures D.StepAt(g, i)
    {
      if i < |h.steps| { assert D.StepAt(h, i); }
    }
  }

  /** The steps of a call that runs its section. */
  lemma RunningCall(h: D.History, id: RuleId, rule: Rule, db: Db, call: Call, after: Db, sent: bool) returns (g: D.History)
    requires D.Run(h) && h.id == id && h.rule == rule && Effect(id, rule, db, call, after, sent) && Runs(id, db, call)
    requires h.rows[|h.steps|] == db.runtimes[id]
    ensures D.Run(g) && g.id == id && g.rule == rule && h.steps <= g.steps && h.rows <= g.rows && h.fires <= g.fires
    ensures |g.steps| == |h.steps| + 4 && g.rows[|g.steps|] == after.runtimes[id]
    ensures Block(g, |h.steps|, |g.steps|, id, db, call, sent)
  {
    hide D.Run, Effect, Runs, D.TimerSection, D.StatusSection, ValidEvent, Calendar.InIsoRange, Concluded;
    RunShape(h);
    CallShape(id, rule, db, call, after, sent);
    var p, row := |h.steps|, db.runtimes[id];
    var leased := row.(leaseOwner := Some(call.worker.id), leaseUntil := Some(call.now + call.worker.leaseMs));
    var section := SectionOf(id, rule, row, call);
    CallMeaning(id, rule, db, call, after, sent);
    var a := Extended(h, D.OnLease(leased.leaseOwner, leased.leaseUntil), leased, None);
    ExtendedRuns(h, D.OnLease(leased.leaseOwner, leased.leaseUntil), leased, None);
    var step := if call.Timer? then D.OnTimer(call.now, p) else D.OnStatus(call.now, call.e, p);
    var b := Extended(a, step, section.0, section.1);
    ExtendedRuns(a, step, section.0, section.1);
    g := ConcludedRun(b, section.0, after.runtimes[id]);
  }

  lemma RunShape(h: D.History)
    requires D.Run(h)
    ensures D.IsStatusRule(h.rule) && |h.rows| == |h.steps| + 1 && |h.fires| == |h.steps|
  {
  }

  lemma CallShape(id: RuleId, rule: Rule, db: Db, call: Call, after: Db, sent: bool)
    requires Effect(id, rule, db, call, after, sent) && Runs(id, db, call)
    ensures id in db.runtimes && id in after.runtimes && !call.Elsewhere?
    ensures call.Status? ==> call.e.IntegrationStatusChanged? && ValidEvent(call.e) && Calendar.InIsoRange(call.now)
  {
    hide DebounceStep, StatusStep, ValidEvent, Calendar.InIsoRange;
  }

  /** Two more steps record how a dispatch ended. */
  lemma ConcludedRun(h: D.History, row: Runtime, after: Runtime) returns (g: D.History)
    requires D.Run(h) && h.rows[|h.steps|] == row && Concluded(row, after)
    ensures D.Run(g) && g.id == h.id && g.rule == h.rule && h.steps <= g.steps && h.rows <= g.rows && h.fires <= g.fires
    ensures |g.steps| == |h.steps| + 2 && g.rows[|g.steps|] == after
    ensures IsUpkeep(g.steps[|h.steps|]) && IsUpkeep(g.steps[|h.steps| + 1])
  {
    hide D.Run;
    RunShape(h);
    var step, mid: Runtime;
    if SameButLease(row, after) {
      step, mid := D.OnLease(row.leaseOwner, row.leaseUntil), row;
    } else {
      step := D.OnCompleted(after.lastTriggeredAt.value, after.failureCount);
      mid := row.(lastTriggeredAt := after.lastTriggeredAt, lastCompletedAt := after.lastTriggeredAt, failureCount := after.failureCount);
    }
    ExtendedRuns(h, step, mid, None);
    var a := Extended(h, step, mid, None);
    ExtendedRuns(a, D.OnLease(after.leaseOwner, after.leaseUntil), after, None);
    g := Extended(a, D.OnLease(after.leaseOwner, after.leaseUntil), after, None);
  }

  /** The steps of work elsewhere. */
  lemma ElsewhereCall(h: D.History, id: RuleId, rule: Rule, db: Db, after: Db, sent: bool) returns (g: D.History)
    requires D.Run(h) && h.id == id && h.rule == rule && Effect(id, rule, db, Elsewhere, after, sent)
    requires h.rows[|h.steps|] == db.runtimes[id]
    ensures D.Run(g) && g.id == id && g.rule == rule && h.steps <= g.steps && h.rows <= g.rows && h.fires <= g.fires
    ensures |g.steps| == |h.steps| + 2 && g.rows[|g.steps|] == after.runtimes[id]
    ensures Block(g, |h.steps|, |g.steps|, id, db, Elsewhere, sent)
  {
    hide D.Run;
    RunShape(h);
    var row, end := db.runtimes[id], after.runtimes[id];
    var mid := row.(nextRunAt := end.nextRunAt, leaseOwner := None, leaseUntil := None);
    ExtendedRuns(h, D.OnReset(end.nextRunAt), mid, None);
    var a := Extended(h, D.OnReset(end.nextRunAt), mid, None);
    ExtendedRuns(a, D.OnLease(end.leaseOwner, end.leaseUntil), end, None);
    g := Extended(a, D.OnLease(end.leaseOwner, end.leaseUntil), end, None);
  }

  lemma OneCall(h: D.History, id: RuleId, rule: Rule, db: Db, call: Call, after: Db, sent: bool) returns (g: D.History)
    requires D.Run(h) && h.id == id && h.rule == rule && Effect(id, rule, db, call, after, sent)
    requires h.rows[|h.steps|] == db.runtimes[id]
    ensures D.Run(g) && g.id == id && g.rule == rule && h.steps <= g.steps && h.rows <= g.rows && h.fires <= g.fires
    ensures g.rows[|g.steps|] == after.runtimes[id]
    ensures Block(g, |h.steps|, |g.steps|, id, db, call, sent)
  {
    if Runs(id, db, call) {
      g := RunningCall(h, id, rule, db, call, after, sent);
    } else if call.Elsewhere? {
      g := ElsewhereCall(h, id, rule, db, after, sent);
    } else {
      hide DebounceStep, StatusStep;
      IdleCall(id, rule, db, call, after, sent);
      g := h;
    }
  }

  /** Every sequence of calls on a rule is a run of the debounce machine. */
  lemma {:induction false} CallsAreARun(id: RuleId, rule: Rule, dbs: seq<Db>, calls: seq<Call>, sents: seq<bool>, n: nat)
    returns (h: D.History, at: seq<nat>)
    requires Calls(id, rule, dbs, calls, sents) && n <= |calls|
    ensures Traces(h, at, id, rule, dbs, calls, sents, n)
  {
    hide Effect, Runs;
    if n == 0 {
      h, at := D.History(id, rule, [dbs[0].runtimes[id]], [], []), [0];
    } else {
      h, at := CallsAreARun(id, rule, dbs, calls, sents, n - 1);
      assert Effect(id, rule, dbs[n - 1], calls[n - 1], dbs[n], sents[n - 1]);
      assert id in dbs[n].runtimes by { EffectKeepsRow(id, rule, dbs[n - 1], calls[n - 1], dbs[n], sents[n - 1]); }
      RunShape(h);
      hide D.Run, Block;
      var g := OneCall(h, id, rule, dbs[n - 1], calls[n - 1], dbs[n], sents[n - 1]);
      TraceMore(h, at, g, id, rule, dbs, calls, sents, n);
      h, at := g, at + [|g.steps|];
    }
  }

  lemma TraceMore(h: D.History, at: seq<nat>, g: D.History, id: RuleId, rule: Rule,
                  dbs: seq<Db>, calls: seq<Call>, sents: seq<bool>, n: nat)
    requires Calls(id, rule, dbs, calls, sents) && 0 < n <= |calls| && Traces(h, at, id, rule, dbs, calls, sents, n - 1)
    requires D.Run(g) && g.id == id && g.rule == rule && h.steps <= g.steps && h.rows <= g.rows && h.fires <= g.fires
    requires |g.fires| == |g.steps| && Block(g, |h.steps|, |g.steps|, id, dbs[n - 1], calls[n - 1], sents[n - 1])
    requires id in dbs[n].runtimes && |g.rows| == |g.steps| + 1 && g.rows[|g.steps|] == dbs[n].runtimes[id]
    ensures Traces(g, at + [|g.steps|], id, rule, dbs, calls, sents, n)
  {
    hide D.Run, Effect, Runs, Calls, Block;
    RunShape(h);
    CallsShape(id, rule, dbs, calls, sents);
    var to := at + [|g.steps|];
    forall i | 0 <= i < n
      ensures to[i] <= to[i + 1] && Block(g, to[i], to[i + 1], id, dbs[i], calls[i], sents[i])
    {
      if i < n - 1 {
        assert Block(h, at[i], at[i + 1], id, dbs[i], calls[i], sents[i]);
        BlockStays(h, g, at[i], at[i + 1], id, dbs[i], calls[i], sents[i]);
      }
    }
  }

  lemma CallsShape(id: RuleId, rule: Rule, dbs: seq<Db>, calls: seq<Call>, sents: seq<bool>)
    requires Calls(id, rule, dbs, calls, sents)
    ensures |dbs| == |calls| + 1 && |sents| == |calls|
  {
    hide Effect;
  }

  lemma BlockStays(h: D.History, g: D.History, p: nat, q: nat, id: RuleId, db: Db, call: Call, sent: bool)
    requires p <= q <= |h.steps| == |h.fires| && |g.steps| == |g.fires| && h.steps <= g.steps && h.fires <= g.fires
    requires Block(h, p, q, id, db, call, sent)
    ensures Block(g, p, q, id, db, call, sent)
  {
    hide Runs;
  }

  lemma EffectKeepsRow(id: RuleId, rule: Rule, db: Db, call: Call, after: Db, sent: bool)
    requires Effect(id, rule, db, call, after, sent)
    ensures id in after.runtimes
  {
    hide DebounceStep, StatusStep, ValidEvent, Calendar.InIsoRange;
  }

  // ---------------------------------------------------------------- what a timer that sends has behind it

  /** The call a step of the history belongs to. */
  lemma {:induction false} BlockOf(at: seq<nat>, n: nat, k: nat) returns (j: nat)
    requires |at| == n + 1 && (forall i | 0 <= i < n :: at[i] <= at[i + 1]) && at[0] <= k < at[n]
    ensures j < n && at[j] <= k < at[j + 1]
  {
    if at[n - 1] <= k { j := n - 1; } else { j := BlockOf(at[..n], n - 1, k); }
  }

  lemma {:induction false} BlocksInOrder(at: seq<nat>, i: nat, j: nat)
    requires i <= j < |at| && forall k | 0 <= k < |at| - 1 :: at[k] <= at[k + 1]
    ensures at[i] <= at[j]
  {
    if i < j { BlocksInOrder(at, i, j - 1); }
  }

  /** A status event that the rule took note of: its handler got the lease. */
  predicate Noted(id: RuleId, db: Db, call: Call) { call.Status? && Runs(id, db, call) }

  lemma StatusInBlock(h: D.History, p: nat, q: nat, id: RuleId, db: Db, call: Call, sent: bool, a: nat)
    requires p <= q <= |h.steps| == |h.fires| && Block(h, p, q, id, db, call, sent) && p <= a < q && h.steps[a].OnStatus?
    ensures Noted(id, db, call) && a == p + 1 && h.steps[a] == D.OnStatus(call.now, call.e, p) && h.steps[p].OnLease?
  {
    hide Runs;
  }

  lemma TimerInBlock(h: D.History, p: nat, q: nat, id: RuleId, db: Db, call: Call, sent: bool)
    requires p <= q <= |h.steps| == |h.fires| && Block(h, p, q, id, db, call, sent) && sent && call.Timer?
    ensures q == p + 4 && h.steps[p].OnLease? && h.steps[p + 1] == D.OnTimer(call.now, p) && h.fires[p + 1].Some?
  {
    hide Runs;
  }

  /**
    The call saw the configured transition in the rule's row, from the status observed before to that of
    its event, which passed filters, condition and cooldown, and left it as the pending record of the row.
  */
  ghost predicate ArmedBy(id: RuleId, rule: Rule, db: Db, call: Call, after: Db) {
    && call.Status? && call.e.IntegrationStatusChanged? && id in db.runtimes && id in after.runtimes
    && rule.source.Parsed? && rule.source.trigger.StatusTrigger? && db.runtimes[id].observed.Some?
    && var (config, e, from) := (rule.source.trigger.transition, call.e, db.runtimes[id].observed.value.status);
       && from != e.status && config.from in {None, Some(from)} && config.to in {None, Some(e.status)}
       && D.MatchesStatusFilters(config, e.integrationId, e.integrationType)
       && D.EvaluateRule(id, rule, db.runtimes[id].lastTriggeredAt, Some(from), call.now, e) == Match
       && after.runtimes[id].observed
          == Some(Observed(e.status, Some(Pending(from, e.status, call.now, e.integrationId, e.integrationType))))
  }

  lemma MatchArms(id: RuleId, rule: Rule, db: Db, call: Call, after: Db, sent: bool)
    requires Effect(id, rule, db, call, after, sent) && D.IsStatusRule(rule) && Noted(id, db, call)
    requires call.e.IntegrationStatusChanged? && id in db.runtimes && id in after.runtimes
    requires rule.source.Parsed? && rule.source.trigger.StatusTrigger? && rule.source.trigger.transition.forDurationSeconds > 0
    requires db.runtimes[id].observed.Some?
    requires D.EvaluateRule(id, rule, db.runtimes[id].lastTriggeredAt, Some(db.runtimes[id].observed.value.status),
                            call.now, call.e) == Match
    ensures ArmedBy(id, rule, db, call, after)
  {
    CallMeaning(id, rule, db, call, after, sent);
    hide Effect, Runs, ConditionHolds, ValidEvent, EvaluateTrigger, CausedByItself;
    var row := db.runtimes[id];
    TransitionMatchesExactly(Input(id, rule.source, rule.condition, rule.cooldownSeconds, row.lastTriggeredAt,
                                   Some(row.observed.value.status), None, call.now, Some(call.e)));
  }

  /** What a call between an arming and its firing did, from what the machine says of its steps. */
  lemma CallBetween(h: D.History, a: nat, f: nat, status: IntegrationStatus, p: nat, q: nat, id: RuleId, db: Db, call: Call, sent: bool)
    requires D.Run(h) && f <= |h.steps| && |h.steps| == |h.fires| && D.Undisturbed(h, a, f, status)
    requires p <= q <= |h.steps| && Block(h, p, q, id, db, call, sent) && a < p && q < f
    ensures !sent
    ensures Noted(id, db, call) ==>
              && call.e.IntegrationStatusChanged? && call.e.status == status && h.rule.source.Parsed?
              && D.IsStatusRule(h.rule)
              && D.MatchesStatusFilters(h.rule.source.trigger.transition, call.e.integrationId, call.e.integrationType)
  {
    hide D.Run, Runs, D.MatchesStatusFilters;
    RunShape(h);
  }

  /** Where the arming stands that the firing of call `i` consumes. */
  lemma ArmingCall(h: D.History, at: seq<nat>, id: RuleId, rule: Rule, dbs: seq<Db>, calls: seq<Call>, sents: seq<bool>, i: nat)
    returns (a: nat, j: nat)
    requires Calls(id, rule, dbs, calls, sents) && Traces(h, at, id, rule, dbs, calls, sents, |calls|)
    requires i < |calls| && calls[i].Timer? && sents[i]
    ensures |h.steps| == |h.fires| && at[i] + 1 < |h.steps| && j < i && at[j] <= at[j + 1] <= at[i]
    ensures a == at[j] + 1 < at[j + 1] && Noted(id, dbs[j], calls[j]) && calls[j].e.IntegrationStatusChanged?
    ensures D.Undisturbed(h, a, at[i] + 1, calls[j].e.status)
    ensures ArmedBy(id, rule, dbs[j], calls[j], dbs[j + 1])
    ensures rule.source.Parsed? && rule.source.trigger.StatusTrigger?
    ensures calls[i].now - calls[j].now >= rule.source.trigger.transition.forDurationSeconds * 1000 > 0
    ensures id in dbs[i].runtimes && !InCooldown(dbs[i].runtimes[id].lastTriggeredAt, rule.cooldownSeconds, calls[i].now)
  {
    hide D.Run, Effect, Runs, Block, InCooldown, D.Arms, D.Undisturbed, Noted, ArmedBy, D.EvaluateRule;
    RunShape(h);
    assert Block(h, at[i], at[i + 1], id, dbs[i], calls[i], sents[i]);
    TimerInBlock(h, at[i], at[i + 1], id, dbs[i], calls[i], sents[i]);
    var f := at[i] + 1;
    TimerFiresArming(h, f);
    a := D.FiringIsJustified(h, f);
    ArmingStep(h, a, h.rows[f].observed.value.pending.value);
    LeaseKeepsRow(h, at[i]);
    BlocksInOrder(at, i + 1, |calls|);
    j := BlockOf(at, |calls|, a);
    assert Block(h, at[j], at[j + 1], id, dbs[j], calls[j], sents[j]);
    StatusInBlock(h, at[j], at[j + 1], id, dbs[j], calls[j], sents[j], a);
    if j >= i { BlocksInOrder(at, i, j); }
    BlocksInOrder(at, j + 1, i);
    LeaseKeepsRow(h, at[j]);
    assert Effect(id, rule, dbs[j], calls[j], dbs[j + 1], sents[j]);
    MatchArms(id, rule, dbs[j], calls[j], dbs[j + 1], sents[j]);
  }

  /**
    When a timer sends the action, an earlier status event armed its transition, at least the
    configured time ago; every status event noted since carries the same status and passes the filters,
    nothing was sent since, and the cooldown was over.
  */
  lemma TimerSendIsJustified(id: RuleId, rule: Rule, dbs: seq<Db>, calls: seq<Call>, sents: seq<bool>, i: nat) returns (j: nat)
    requires Calls(id, rule, dbs, calls, sents) && i < |calls| && calls[i].Timer? && sents[i]
    ensures j < i && Noted(id, dbs[j], calls[j]) && ArmedBy(id, rule, dbs[j], calls[j], dbs[j + 1])
    ensures calls[i].now - calls[j].now >= rule.source.trigger.transition.forDurationSeconds * 1000 > 0
    ensures forall k | j < k < i && Noted(id, dbs[k], calls[k]) ::
              && calls[k].e.IntegrationStatusChanged? && calls[k].e.status == calls[j].e.status
              && D.MatchesStatusFilters(rule.source.trigger.transition, calls[k].e.integrationId, calls[k].e.integrationType)
    ensures forall k | j < k < i :: !sents[k]
    ensures id in dbs[i].runtimes && !InCooldown(dbs[i].runtimes[id].lastTriggeredAt, rule.cooldownSeconds, calls[i].now)
  {
    hide D.Run, Effect, Runs, Block, InCooldown, D.Undisturbed, D.MatchesStatusFilters, D.EvaluateRule;
    var h, at := CallsAreARun(id, rule, dbs, calls, sents, |calls|);
    var a: nat;
    a, j := ArmingCall(h, at, id, rule, dbs, calls, sents, i);
    var status := calls[j].e.status;
    forall k | j < k < i
      ensures !sents[k]
      ensures Noted(id, dbs[k], calls[k]) ==>
                && calls[k].e.IntegrationStatusChanged? && calls[k].e.status == status
                && D.MatchesStatusFilters(rule.source.trigger.transition, calls[k].e.integrationId, calls[k].e.integrationType)
    {
      assert Block(h, at[k], at[k + 1], id, dbs[k], calls[k], sents[k]);
      BlocksInOrder(at, j + 1, k);
      BlocksInOrder(at, k + 1, i);
      CallBetween(h, a, at[i] + 1, status, at[k], at[k + 1], id, dbs[k], calls[k], sents[k]);
    }
  }

  /** A timer's section that fires asks for the arming it consumes. */
  lemma TimerFiresArming(h: D.History, f: nat)
    requires D.Run(h) && f < |h.steps| && h.steps[f].OnTimer? && h.fires[f].Some?
    ensures h.fires[f].value.Arming?
  {
    assert D.StepAt(h, f);
    hide D.EvaluateRule;
  }

  lemma ArmingStep(h: D.History, a: nat, p: Pending)
    requires D.Run(h) && a < |h.steps| && D.Arms(h, a, p)
    ensures h.steps[a].OnStatus? && h.steps[a].event.IntegrationStatusChanged? && h.steps[a].event.status == p.to
    ensures h.rows[a].observed.Some?
    ensures D.EvaluateRule(h.id, h.rule, h.rows[a].lastTriggeredAt, Some(h.rows[a].observed.value.status),
                           h.steps[a].now, h.steps[a].event) == Match
  {
    hide D.EvaluateRule;
  }

  lemma LeaseKeepsRow(h: D.History, p: nat)
    requires D.Run(h) && p < |h.steps| && h.steps[p].OnLease?
    ensures h.rows[p + 1].lastTriggeredAt == h.rows[p].lastTriggeredAt && h.rows[p + 1].observed == h.rows[p].observed
  {
    assert D.StepAt(h, p);
  }

  /** Between two times a timer sends the action, a new status event armed the transition that the second is for. */
  lemma OneSendPerArming(id: RuleId, rule: Rule, dbs: seq<Db>, calls: seq<Call>, sents: seq<bool>, i: nat, i': nat) returns (j: nat)
    requires Calls(id, rule, dbs, calls, sents) && i < i' < |calls|
    requires calls[i].Timer? && sents[i] && calls[i'].Timer? && sents[i']
    ensures i < j < i' && Noted(id, dbs[j], calls[j]) && ArmedBy(id, rule, dbs[j], calls[j], dbs[j + 1])
    ensures calls[i'].now - calls[j].now >= rule.source.trigger.transition.forDurationSeconds * 1000
  {
    hide Effect, Runs, D.MatchesStatusFilters, InCooldown, D.EvaluateRule;
    j := TimerSendIsJustified(id, rule, dbs, calls, sents, i');
    assert j >= i;
    assert calls[i].Timer? && calls[j].Status?;
  }
}
