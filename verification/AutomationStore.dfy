/**
  The automation tables (packages/db/src/automation-runtime.ts): rules, one runtime row per rule
  and the run history.  Each statement of the store is given as a function on the whole database,
  which the scheduler protocol uses for its atomic steps, and as a method of a mutable store that
  is proved to have that effect.
*/
module AutomationStore {
  import opened Common
  import opened Evaluate
  import C = Conditions

  type RuleId = string
  type WorkerId = string
  type RunId = string

  datatype RunStatus = Scheduled | Running | Succeeded | Failed | Skipped | Denied | Unclear

  /** Statuses a run can still leave. */
  predicate Open(s: RunStatus) { s == Running || s == Scheduled }

  datatype Pending = Pending(
    from: IntegrationStatus,
    to: IntegrationStatus,
    since: Time,
    integrationId: string,
    integrationType: string)

  /** The `lastObservedState` JSON of a status-transition rule. */
  datatype Observed = Observed(status: IntegrationStatus, pending: Option<Pending>)

  datatype Rule = Rule(
    enabled: bool,
    ownerUserId: Option<string>,
    source: TriggerSource,
    condition: C.Raw,
    cooldownSeconds: int,
    configRevision: nat)

  datatype Runtime = Runtime(
    nextRunAt: Option<Time>,
    lastTriggeredAt: Option<Time>,
    lastCompletedAt: Option<Time>,
    observed: Option<Observed>,
    failureCount: int,
    leaseOwner: Option<WorkerId>,
    leaseUntil: Option<Time>)

  datatype Run = Run(
    automationId: Option<RuleId>,
    runKey: string,
    status: RunStatus,
    startedAt: Time,
    finishedAt: Option<Time>)

  datatype Db = Db(rules: map<RuleId, Rule>, runtimes: map<RuleId, Runtime>, runs: map<RunId, Run>)

  /** The unique index on `run_key`. */
  ghost predicate KeysUnique(runs: map<RunId, Run>) {
    forall i, j | i in runs && j in runs && runs[i].runKey == runs[j].runKey :: i == j
  }

  predicate HasKey(runs: map<RunId, Run>, key: string) {
    exists i | i in runs :: runs[i].runKey == key
  }

  // ---------------------------------------------------------------- statements

  predicate LeaseFree(row: Runtime, worker: WorkerId, now: Time) {
    row.leaseUntil.None? || row.leaseUntil.value < now || row.leaseOwner == Some(worker)
  }

  predicate CanClaim(db: Db, id: RuleId, worker: WorkerId, now: Time) {
    id in db.runtimes && id in db.rules && db.rules[id].enabled && LeaseFree(db.runtimes[id], worker, now)
  }

  function SetLease(db: Db, id: RuleId, owner: Option<WorkerId>, until: Option<Time>): Db
    requires id in db.runtimes
  {
    db.(runtimes := db.runtimes[id := db.runtimes[id].(leaseOwner := owner, leaseUntil := until)])
  }

  function AfterClaim(db: Db, id: RuleId, worker: WorkerId, now: Time, until: Time): Db {
    if CanClaim(db, id, worker, now) then SetLease(db, id, Some(worker), Some(until)) else db
  }

  function AfterRelease(db: Db, id: RuleId, worker: WorkerId): Db {
    if id in db.runtimes && db.runtimes[id].leaseOwner == Some(worker) then SetLease(db, id, None, None) else db
  }

  function AfterInsert(db: Db, id: RunId, run: Run): Db {
    db.(runs := db.runs[id := run])
  }

  function Finished(run: Run, status: RunStatus, at: Time): Run {
    if Open(run.status) then run.(status := status, finishedAt := Some(at)) else run
  }

  function AfterFinish(db: Db, id: RunId, status: RunStatus, at: Time): Db {
    if id in db.runs then db.(runs := db.runs[id := Finished(db.runs[id], status, at)]) else db
  }

  predicate Stale(run: Run, now: Time, olderThanMs: int) {
    Open(run.status) && run.startedAt <= now - olderThanMs
  }

  function AfterSweep(db: Db, now: Time, olderThanMs: int): Db {
    db.(runs := map i | i in db.runs ::
          if Stale(db.runs[i], now, olderThanMs) then Finished(db.runs[i], Unclear, now) else db.runs[i])
  }

  /** In a patch, None means "leave the column alone". */
  datatype Patch = Patch(
    nextRunAt: Option<Option<Time>>,
    lastTriggeredAt: Option<Option<Time>>,
    lastCompletedAt: Option<Option<Time>>,
    observed: Option<Option<Observed>>,
    failureCount: Option<int>)

  const NO_CHANGE := Patch(None, None, None, None, None)

  function OrElse<T>(o: Option<T>, default: T): T {
    match o
    case Some(v) => v
    case None => default
  }

  function Patched(row: Runtime, p: Patch): Runtime {
    row.(nextRunAt := OrElse(p.nextRunAt, row.nextRunAt),
         lastTriggeredAt := OrElse(p.lastTriggeredAt, row.lastTriggeredAt),
         lastCompletedAt := OrElse(p.lastCompletedAt, row.lastCompletedAt),
         observed := OrElse(p.observed, row.observed),
         failureCount := OrElse(p.failureCount, row.failureCount))
  }

  function AfterUpdate(db: Db, id: RuleId, p: Patch): Db {
    if id in db.runtimes then db.(runtimes := db.runtimes[id := Patched(db.runtimes[id], p)]) else db
  }

  datatype StoreError = Conflict | NotFound

  /** First statement of `setEnabled`: flip the flag under the revision check. */
  function EnableRule(db: Db, id: RuleId, enabled: bool): Db
    requires id in db.rules
  {
    var rule := db.rules[id];
    db.(rules := db.rules[id := rule.(enabled := enabled, configRevision := rule.configRevision + 1)])
  }

  /** Second statement of `setEnabled`: reset the schedule and drop the lease. */
  function ResetRuntime(db: Db, id: RuleId, next: Option<Time>): Db {
    if id in db.runtimes then
      db.(runtimes := db.runtimes[id := db.runtimes[id].(nextRunAt := next, leaseOwner := None, leaseUntil := None)])
    else db
  }

  // ---------------------------------------------------------------- facts about statements

  /** While a lease (w, u) stands, nobody else can claim the rule at any time up to u. */
  lemma LeaseExcludes(db: Db, id: RuleId, other: WorkerId, now: Time, until: Time)
    requires id in db.runtimes && db.runtimes[id].leaseUntil.Some? && db.runtimes[id].leaseOwner.Some?
    requires other != db.runtimes[id].leaseOwner.value && now <= db.runtimes[id].leaseUntil.value
    ensures AfterClaim(db, id, other, now, until) == db && !CanClaim(db, id, other, now)
  {
  }

  /** After a sweep no unfinished run is older than the bound, and only unfinished old runs changed. */
  lemma SweepLeavesNoneStale(db: Db, now: Time, olderThanMs: int)
    ensures var swept := AfterSweep(db, now, olderThanMs);
            && swept.runs.Keys == db.runs.Keys
            && (forall i | i in swept.runs && Open(swept.runs[i].status) ::
                  now - swept.runs[i].startedAt < olderThanMs)
            && (forall i | i in db.runs && swept.runs[i] != db.runs[i] ::
                  Open(db.runs[i].status) && swept.runs[i].status == Unclear && now - db.runs[i].startedAt >= olderThanMs)
            && (KeysUnique(db.runs) ==> KeysUnique(swept.runs))
  {
  }

  // ---------------------------------------------------------------- due lists

  /** Enabled, due, and not under a lease that still stands. */
  predicate IsDue(db: Db, id: RuleId, t: TriggerType, now: Time) {
    && id in db.rules && id in db.runtimes && db.rules[id].enabled && DeclaredType(db.rules[id].source) == t
    && db.runtimes[id].nextRunAt.Some? && db.runtimes[id].nextRunAt.value <= now
    && (db.runtimes[id].leaseUntil.None? || db.runtimes[id].leaseUntil.value < now)
  }

  predicate NotLater(db: Db, a: RuleId, b: RuleId) {
    && a in db.runtimes && b in db.runtimes && db.runtimes[a].nextRunAt.Some? && db.runtimes[b].nextRunAt.Some?
    && db.runtimes[a].nextRunAt.value <= db.runtimes[b].nextRunAt.value
  }

  function ScanLimit(limit: int): nat { if limit < 1 then 1 else if limit > 100 then 100 else limit }

  /** Distinct due rules, earliest first; a rule is left out only when the list is full of earlier ones. */
  ghost predicate IsDueList(db: Db, t: TriggerType, now: Time, limit: int, ids: seq<RuleId>) {
    && |ids| <= ScanLimit(limit)
    && (forall i | 0 <= i < |ids| :: IsDue(db, ids[i], t, now))
    && (forall i, j | 0 <= i < j < |ids| :: ids[i] != ids[j] && NotLater(db, ids[i], ids[j]))
    && forall id | IsDue(db, id, t, now) && id !in ids ::
         |ids| == ScanLimit(limit) && forall i | 0 <= i < |ids| :: NotLater(db, ids[i], id)
  }

  /** While nothing changes, any worker can claim a listed rule. */
  lemma DueRulesAreClaimable(db: Db, id: RuleId, t: TriggerType, now: Time, worker: WorkerId)
    requires IsDue(db, id, t, now)
    ensures CanClaim(db, id, worker, now)
  {
  }

  // ---------------------------------------------------------------- the store as an object

  class Store {
    var rules: map<RuleId, Rule>
    var runtimes: map<RuleId, Runtime>
    var runs: map<RunId, Run>

    ghost function State(): Db
      reads this
    {
      Db(rules, runtimes, runs)
    }

    ghost predicate Valid()
      reads this
    {
      KeysUnique(runs)
    }

    method ClaimLease(id: RuleId, worker: WorkerId, now: Time, leaseUntil: Time) returns (claimed: bool)
      modifies this`runtimes
      ensures claimed == CanClaim(old(State()), id, worker, now)
      ensures State() == AfterClaim(old(State()), id, worker, now, leaseUntil)
      ensures claimed ==> id in runtimes && runtimes[id].leaseOwner == Some(worker) && runtimes[id].leaseUntil == Some(leaseUntil)
    {
      if id !in runtimes || id !in rules || !rules[id].enabled { return false; }
      var row := runtimes[id];
      if row.leaseUntil.Some? && !(row.leaseUntil.value < now) && row.leaseOwner != Some(worker) { return false; }
      runtimes := runtimes[id := row.(leaseOwner := Some(worker), leaseUntil := Some(leaseUntil))];
      return true;
    }

    method ReleaseLease(id: RuleId, worker: WorkerId)
      modifies this`runtimes
      ensures State() == AfterRelease(old(State()), id, worker)
    {
      if id in runtimes && runtimes[id].leaseOwner == Some(worker) {
        runtimes := runtimes[id := runtimes[id].(leaseOwner := None, leaseUntil := None)];
      }
    }

    method GetRunByKey(key: string) returns (found: Option<RunId>)
      ensures found.Some? ==> found.value in runs && runs[found.value].runKey == key
      ensures found.None? ==> !HasKey(runs, key)
    {
      var left := runs.Keys;
      while left != {}
        invariant left <= runs.Keys
        invariant forall i | i in runs.Keys - left :: runs[i].runKey != key
        decreases left
      {
        var i :| i in left;
        if runs[i].runKey == key { return Some(i); }
        left := left - {i};
      }
      return None;
    }

    /** `newId` stands for the random identifier of the inserted row. */
    method TryInsertRun(newId: RunId, run: Run) returns (id: RunId, created: bool)
      requires Valid() && newId !in runs
      modifies this`runs
      ensures Valid()
      ensures created == !HasKey(old(runs), run.runKey)
      ensures created ==> id == newId && State() == AfterInsert(old(State()), newId, run)
      ensures !created ==> State() == old(State()) && id in runs && runs[id].runKey == run.runKey
    {
      var existing := GetRunByKey(run.runKey);
      match existing
      case Some(found) =>
        return found, false;
      case None =>
        runs := runs[newId := run];
        return newId, true;
    }

    method FinishRun(id: RunId, status: RunStatus, at: Time)
      requires Valid()
      modifies this`runs
      ensures Valid() && State() == AfterFinish(old(State()), id, status, at)
    {
      if id in runs && Open(runs[id].status) {
        runs := runs[id := runs[id].(status := status, finishedAt := Some(at))];
      } else if id in runs {
        assert runs == runs[id := runs[id]];
      }
    }

    method MarkStaleRunsUnknown(now: Time, olderThanMs: int) returns (changes: nat)
      requires Valid()
      modifies this`runs
      ensures Valid() && State() == AfterSweep(old(State()), now, olderThanMs)
      ensures changes == |set i | i in old(runs) && Stale(old(runs)[i], now, olderThanMs)|
    {
      hide KeysUnique;
      var cutoff := now - olderThanMs;
      var hit := set i | i in runs && Open(runs[i].status) && runs[i].startedAt <= cutoff;
      assert hit == set i | i in runs && Stale(runs[i], now, olderThanMs);
      SweepLeavesNoneStale(State(), now, olderThanMs);
      runs := map i | i in runs :: if i in hit then runs[i].(status := Unclear, finishedAt := Some(now)) else runs[i];
      assert runs == AfterSweep(old(State()), now, olderThanMs).runs;
      return |hit|;
    }

    /** The query behind both due lists. */
    method ListDue(t: TriggerType, now: Time, limit: int) returns (ids: seq<RuleId>)
      ensures IsDueList(State(), t, now, limit, ids)
    {
      hide IsDue, NotLater;
      var db := Db(rules, runtimes, runs);
      ids := [];
      var left := set id | id in runtimes && IsDue(db, id, t, now);
      DueIsListed(db, t, now);
      while |ids| < ScanLimit(limit) && left != {}
        invariant |ids| <= ScanLimit(limit)
        invariant forall i | 0 <= i < |ids| :: IsDue(db, ids[i], t, now) && ids[i] !in left
        invariant forall id | id in left :: IsDue(db, id, t, now)
        invariant forall id | IsDue(db, id, t, now) :: id in left || id in ids
        invariant forall i, j | 0 <= i < j < |ids| :: ids[i] != ids[j] && NotLater(db, ids[i], ids[j])
        invariant forall i, id | 0 <= i < |ids| && id in left :: NotLater(db, ids[i], id)
        decreases left
      {
        var id := Earliest(db, left, t, now);
        ids, left := ids + [id], left - {id};
      }
    }

    /** A read of all columns followed by a write of all columns. */
    method UpdateRuntime(id: RuleId, patch: Patch)
      modifies this`runtimes
      ensures State() == AfterUpdate(old(State()), id, patch)
    {
      if id !in runtimes { return; }
      var current := runtimes[id];
      var nextRunAt := if patch.nextRunAt.Some? then patch.nextRunAt.value else current.nextRunAt;
      var lastTriggeredAt := if patch.lastTriggeredAt.Some? then patch.lastTriggeredAt.value else current.lastTriggeredAt;
      var lastCompletedAt := if patch.lastCompletedAt.Some? then patch.lastCompletedAt.value else current.lastCompletedAt;
      var observed := if patch.observed.Some? then patch.observed.value else current.observed;
      var failureCount := if patch.failureCount.Some? then patch.failureCount.value else current.failureCount;
      runtimes := runtimes[id := current.(nextRunAt := nextRunAt, lastTriggeredAt := lastTriggeredAt,
                                          lastCompletedAt := lastCompletedAt, observed := observed,
                                          failureCount := failureCount)];
    }

    /** `next` is the first slot computed for an enabled schedule, absent for other rules. */
    method SetEnabled(id: RuleId, enabled: bool, expectedRevision: nat, next: Option<Time>)
      returns (r: Result<Rule, StoreError>)
      modifies this`rules, this`runtimes
      ensures id !in old(rules) ==> r == Err(NotFound)
      ensures id in old(rules) && old(rules)[id].configRevision != expectedRevision ==> r == Err(Conflict)
      ensures r.Err? ==> State() == old(State())
      ensures r.Ok? ==>
                && id in rules && rules[id] == r.value
                && State() == ResetRuntime(EnableRule(old(State()), id, enabled), id, if enabled then next else None)
    {
      if id !in rules { return Err(NotFound); }
      var existing := rules[id];
      if existing.configRevision != expectedRevision { return Err(Conflict); }
      var updated := existing.(enabled := enabled, configRevision := existing.configRevision + 1);
      rules := rules[id := updated];
      if id in runtimes {
        runtimes := runtimes[id := runtimes[id].(nextRunAt := if enabled then next else None,
                                                 leaseOwner := None, leaseUntil := None)];
      }
      return Ok(updated);
    }
  }

  lemma DueIsListed(db: Db, t: TriggerType, now: Time)
    ensures forall id | IsDue(db, id, t, now) :: id in db.runtimes
  {
  }

  method Earliest(db: Db, ids: set<RuleId>, t: TriggerType, now: Time) returns (first: RuleId)
    requires ids != {} && forall id | id in ids :: IsDue(db, id, t, now)
    ensures first in ids && forall id | id in ids :: NotLater(db, first, id)
  {
    first :| first in ids;
    var left := ids - {first};
    while left != {}
      invariant left <= ids && first in ids
      invariant forall id | id in ids && id !in left :: NotLater(db, first, id)
      decreases left
    {
      var id :| id in left;
      if db.runtimes[id].nextRunAt.value < db.runtimes[first].nextRunAt.value { first := id; }
      left := left - {id};
    }
  }
}
