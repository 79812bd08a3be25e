/**
  How many integrations the refresh protocol can serve: a fence with room for `n` entries
  (packages/custom-api/src/refresh-fence.ts) keeps every answer fresh as long as no more than `n`
  integrations are refreshed, and one more is too many, whatever `n` is.
*/
module RefreshCapacity {
  import opened Common
  import opened RefreshFence
  import opened OverviewCoalescer
  import opened RefreshProtocol
  import opened Numerals

  // ---------------------------------------------------------------- enough room

  function Refreshed(d: Dialect, steps: seq<Step>): set<Id> {
    set i | 0 <= i < |steps| && steps[i].Refresh? :: StoredId(d, steps[i].asked)
  }

  /** Nothing was ever forgotten, and the fence knows refreshed integrations only. */
  ghost predicate Remembered(s: State, ids: set<Id>, n: nat) {
    && s.forgotten == {} && ValidFence(s.fence) && Elements(s.fence.keys) <= ids
    && forall id :: Current(s.fence, id) <= n
  }

  /** While there is room for every integration, advancing evicts none. */
  lemma RoomForAll(f: Fence, ids: set<Id>, id: Id, max: nat)
    requires ValidFence(f) && Elements(f.keys) <= ids && id in ids && |ids| <= max && max >= 1
    ensures Evicted(f, id, max) == {}
    ensures Elements(AfterAdvance(f, id, max).keys) <= ids
  {
    hide Distinct, Without;
    if id in f.generations {
      WithoutElements(f.keys, id);
    } else {
      forall k | k in Elements(f.keys)
        ensures k in ids - {id}
      {
      }
      DistinctFit(f.keys, ids - {id});
      assert f.keys[..0] == [] && f.keys[0..] == f.keys && Elements([]) == {};
    }
  }

  lemma RefreshRemembers(s: State, r: RequestId, asked: Id, ids: set<Id>, n: nat)
    requires s.config.maxEntries >= 1 && |ids| <= s.config.maxEntries && n < MAX_SAFE_INTEGER
    requires Remembered(s, ids, n) && StoredId(s.config.dialect, asked) in ids
    ensures Remembered(AfterRefresh(s, r, asked), ids, n + 1)
  {
    hide ValidFence, Elements, Evicted, AfterAdvance, StoredId;
    var id := StoredId(s.config.dialect, asked);
    RoomForAll(s.fence, ids, id, s.config.maxEntries);
    AdvanceMeaning(s.fence, id, s.config.maxEntries);
    var g := AfterAdvance(s.fence, id, s.config.maxEntries);
    forall other
      ensures Current(g, other) <= n + 1
    {
      assert Current(s.fence, other) <= n;
      if other != id { assert Current(g, other) == Current(s.fence, other); }
    }
  }

  lemma OthersRemember(s: State, step: Step, s': State)
    requires Next(s, step, s') && !step.Refresh?
    ensures s'.fence == s.fence && s'.forgotten == s.forgotten && s'.config == s.config
  {
  }

  lemma {:induction false} RunRemembers(run: seq<State>, steps: seq<Step>, i: nat)
    requires IsRun(run, steps) && i < |run| && |steps| <= MAX_SAFE_INTEGER
    requires |Refreshed(run[0].config.dialect, steps)| <= run[0].config.maxEntries
    ensures Remembered(run[i], Refreshed(run[0].config.dialect, steps), i) && run[i].config == run[0].config
  {
    hide Next, Refreshed, ValidFence;
    if i == 0 {
      assert ValidFence(EMPTY) by { EmptyIsValid(); }
      assert Elements([]) == {};
    } else {
      RunRemembers(run, steps, i - 1);
      var d, s, step, s' := run[0].config.dialect, run[i - 1], steps[i - 1], run[i];
      assert Next(s, step, s');
      if step.Refresh? {
        assert StoredId(d, step.asked) in Refreshed(d, steps) by { IsRefreshed(d, steps, i - 1); }
        assert s' == AfterRefresh(s, step.r, step.asked) && s'.config == s.config by { RefreshStep(s, step, s'); }
        assert s.config.maxEntries >= 1 by { RefreshStep(s, step, s'); }
        hide Remembered, AfterRefresh;
        RefreshRemembers(s, step.r, step.asked, Refreshed(d, steps), i - 1);
      } else {
        OthersRemember(s, step, s');
      }
    }
  }

  lemma EmptyIsValid()
    ensures ValidFence(EMPTY)
  {
    assert Elements([]) == {};
  }

  lemma IsRefreshed(d: Dialect, steps: seq<Step>, i: nat)
    requires i < |steps| && steps[i].Refresh?
    ensures StoredId(d, steps[i].asked) in Refreshed(d, steps)
  {
  }

  lemma RefreshStep(s: State, step: Step, s': State)
    requires Next(s, step, s') && step.Refresh?
    ensures s.config.maxEntries >= 1 && s' == AfterRefresh(s, step.r, step.asked) && s'.config == s.config
  {
  }

  /**
    With room for every integration that is refreshed, and short of 2^53 steps, every request is
    answered by a fetch begun no earlier than the latest refresh of its integration before it.
  */
  lemma FreshWithRoom(run: seq<State>, steps: seq<Step>, i: nat, refresh: RequestId, read: RequestId)
    requires IsRun(run, steps) && i < |run| && |steps| <= MAX_SAFE_INTEGER
    requires |Refreshed(run[0].config.dialect, steps)| <= run[0].config.maxEntries
    requires HasAnswer(run[i], read) && refresh in run[i].requests
    requires var (q, p) := (run[i].requests[refresh], run[i].requests[read]); q.isRefresh && q.id == p.id && q.started <= p.started
    ensures run[i].requests[read].pc.flight in run[i].flights
    ensures run[i].flights[run[i].requests[read].pc.flight].begun >= run[i].requests[refresh].started
  {
    hide IsRun, Refreshed;
    RunRemembers(run, steps, i);
    ReadsSeeEarlierRefreshes(run, steps, i, refresh, read);
  }

  // ---------------------------------------------------------------- one integration too many

  /** The fetch of the first integration, which stays under way. */
  function SlowKey(): Key { Key(Name(0), "v", 1) }

  function Start(config: Config): State { State(config, EMPTY, map[], map[], map[], map[], 1, map[], {}, false) }

  function First(config: Config): State
    requires config.maxEntries >= 1
  {
    AfterRefresh(Start(config), 0, Name(0))
  }

  /** A refresh of the first integration has begun its fetch, and `j` others have been refreshed since. */
  function Crowded(config: Config, j: nat): State
    requires config.maxEntries >= 1
    ensures Crowded(config, j).config == config
  {
    if j == 0 then AfterResolve(First(config), 0, SlowKey(), 0) else AfterRefresh(Crowded(config, j - 1), j, Name(j))
  }

  /** The table and the cache of a crowded service: one fetch for the first integration, nothing else. */
  predicate OneSlowFetch(s: State, now: nat) {
    && s.now == now && s.cache == map[] && s.inFlight == map[SlowKey() := 0]
    && s.flights == map[0 := Flight(SlowKey(), Name(0), 2, None)]
  }

  predicate RequestsBelow(s: State, n: nat) { forall r | r in s.requests :: r < n }

  /** The fence holds the names from `from` to `to`. */
  ghost predicate Holds(f: Fence, from: nat, to: nat)
    requires from <= to
  {
    f.keys == Names(from, to) && f.generations.Keys == Elements(f.keys)
  }

  lemma FenceGrows(f: Fence, j: nat, max: nat)
    requires Holds(f, 0, j) && j < max
    ensures Holds(AfterAdvance(f, Name(j), max), 0, j + 1)
  {
    hide Name;
    NameIn(0, j, j);
    assert f.keys[0..] == f.keys && f.keys[..0] == [] && Elements([]) == {};
    assert Names(0, j) + [Name(j)] == Names(0, j + 1);
    var g := AfterAdvance(f, Name(j), max);
    assert g.keys == Names(0, j) + [Name(j)];
    assert Elements(g.keys) == Elements(f.keys) + {Name(j)};
  }

  lemma FenceOverflows(f: Fence, max: nat)
    requires Holds(f, 0, max) && max >= 1
    ensures Holds(AfterAdvance(f, Name(max), max), 1, max + 1)
  {
    hide Name;
    NameIn(0, max, max);
    assert Excess(f, max) == 1;
    assert f.keys[..1] == [Name(0)] && f.keys[1..] == Names(1, max);
    assert Elements([Name(0)]) == {Name(0)};
    var g := AfterAdvance(f, Name(max), max);
    assert Names(1, max) + [Name(max)] == Names(1, max + 1);
    assert g.keys == Names(1, max) + [Name(max)];
    NameIn(1, max, 0);
    assert f.keys == [Name(0)] + Names(1, max);
    assert Elements(f.keys) == {Name(0)} + Elements(Names(1, max));
    assert Elements(g.keys) == Elements(Names(1, max)) + {Name(max)};
    assert g.generations.Keys == (Elements(f.keys) - {Name(0)}) + {Name(max)};
  }

  lemma FirstFetch(config: Config)
    requires config.maxEntries >= 1 && config.maxInFlight >= 1
    ensures Next(Start(config), Refresh(0, Name(0)), First(config))
    ensures Next(First(config), Resolve(0, "v", 0), Crowded(config, 0))
    ensures OneSlowFetch(Crowded(config, 0), 3) && Holds(Crowded(config, 0).fence, 0, 1)
    ensures Crowded(config, 0).requests.Keys == {0}
  {
    hide Name, AfterAdvance, Evicted, Lower;
    NameIsStored(config.dialect, 0);
    assert Holds(EMPTY, 0, 0) by { assert Names(0, 0) == [] && Elements([]) == {}; }
    FenceGrows(EMPTY, 0, config.maxEntries);
    var s := First(config);
    assert NextGeneration(EMPTY, Name(0)) == 1;
    assert s.requests == map[0 := Request(Name(0), Name(0), 1, 1, true, None, Loading)];
    assert Starts(s, SlowKey());
  }

  lemma CrowdGrows(config: Config, j: nat)
    requires config.maxEntries >= 1 && config.maxInFlight >= 1 && j > 0
    requires OneSlowFetch(Crowded(config, j - 1), j + 2)
    requires RequestsBelow(Crowded(config, j - 1), j)
    ensures Next(Crowded(config, j - 1), Refresh(j, Name(j)), Crowded(config, j))
    ensures OneSlowFetch(Crowded(config, j), j + 3)
    ensures RequestsBelow(Crowded(config, j), j + 1)
  {
    hide Name, AfterAdvance, Evicted, SlowKey, Lower;
  }

  lemma OneRequest(s: State)
    requires s.requests.Keys == {0}
    ensures RequestsBelow(s, 1)
  {
  }

  lemma CrowdedFence(config: Config, j: nat)
    requires config.maxEntries >= 1 && j > 0
    ensures Crowded(config, j).fence == AfterAdvance(Crowded(config, j - 1).fence, Name(j), config.maxEntries)
  {
    hide Name, AfterAdvance, Evicted, Lower;
    NameIsStored(config.dialect, j);
  }

  lemma {:induction false} CrowdIs(config: Config, j: nat)
    requires config.maxEntries >= 1 && config.maxInFlight >= 1 && j <= config.maxEntries
    ensures OneSlowFetch(Crowded(config, j), j + 3)
    ensures RequestsBelow(Crowded(config, j), j + 1)
    ensures if j < config.maxEntries then Holds(Crowded(config, j).fence, 0, j + 1) else Holds(Crowded(config, j).fence, 1, j + 1)
    ensures j > 0 ==> Next(Crowded(config, j - 1), Refresh(j, Name(j)), Crowded(config, j))
  {
    hide Next, OneSlowFetch, Holds, AfterAdvance, Evicted, Name, First, Lower, AfterRefresh, RequestsBelow;
    FirstFetch(config);
    if j == 0 {
      assert RequestsBelow(Crowded(config, 0), 1) by { OneRequest(Crowded(config, 0)); }
    } else {
      CrowdIs(config, j - 1);
      CrowdGrows(config, j);
      var f := Crowded(config, j - 1).fence;
      CrowdedFence(config, j);
      if j < config.maxEntries { FenceGrows(f, j, config.maxEntries); } else { FenceOverflows(f, config.maxEntries); }
    }
  }

  /** The first integration is refreshed again. */
  function Again(config: Config): State
    requires config.maxEntries >= 1
  {
    AfterRefresh(Crowded(config, config.maxEntries), config.maxEntries + 1, Name(0))
  }

  lemma AgainIs(config: Config)
    requires config.maxEntries >= 1 && config.maxInFlight >= 1
    ensures var n, again := config.maxEntries, Again(config);
            && Next(Crowded(config, n), Refresh(n + 1, Name(0)), again)
            && OneSlowFetch(again, n + 4) && n + 1 in again.requests
            && again.requests[n + 1] == Request(Name(0), Name(0), 1, n + 3, true, None, Loading)
            && again.config == config
  {
    hide Name, AfterAdvance, Evicted, Crowded, Names, SlowKey, Lower;
    var n := config.maxEntries;
    NameIsStored(config.dialect, 0);
    CrowdIs(config, n);
    NameIn(1, n + 1, 0);
    var s := Crowded(config, n);
    assert Name(0) !in s.fence.generations && NextGeneration(s.fence, Name(0)) == 1;
  }

  /** Its read finds the old fetch under the same key and joins it. */
  function Joined(config: Config): State
    requires config.maxEntries >= 1
  {
    AfterResolve(Again(config), config.maxEntries + 1, SlowKey(), 1)
  }

  lemma JoinedIs(config: Config)
    requires config.maxEntries >= 1 && config.maxInFlight >= 1
    ensures var n, joined := config.maxEntries, Joined(config);
            && Next(Again(config), Resolve(n + 1, "v", 1), joined)
            && joined.flights == map[0 := Flight(SlowKey(), Name(0), 2, None)] && n + 1 in joined.requests
            && joined.requests[n + 1] == Request(Name(0), Name(0), 1, n + 3, true, Some(SlowKey()), Waiting(0))
            && joined.config == config
  {
    hide Name, Again, Next, AfterResolve, SlowKey;
    AgainIs(config);
    JoinsSlowFetch(Again(config), config.maxEntries + 1);
  }

  lemma JoinsSlowFetch(s: State, r: RequestId)
    requires s.config.maxEntries >= 1 && s.cache == map[] && r in s.requests
    requires s.flights == map[0 := Flight(SlowKey(), Name(0), 2, None)] && s.inFlight == map[SlowKey() := 0]
    requires s.requests[r].pc == Loading && s.requests[r].id == Name(0) && s.requests[r].generation == 1
    ensures var joined := AfterResolve(s, r, SlowKey(), 1);
            && Next(s, Resolve(r, "v", 1), joined) && joined.config == s.config && joined.flights == s.flights
            && joined.requests == s.requests[r := s.requests[r].(key := Some(SlowKey()), pc := Waiting(0))]
  {
    hide Name;
    var key := SlowKey();
    assert key == Key(Name(0), "v", 1) && CacheKey(key, false) !in s.cache && CacheKey(key, true) !in s.cache;
    hide SlowKey;
    assert !Starts(s, key) && Resolved(s, key, 1) == Waiting(0);
  }

  /** A refresh has been answered by a fetch that began before it. */
  ghost predicate AnsweredStale(s: State, r: RequestId) {
    && HasAnswer(s, r) && s.requests[r].isRefresh && s.requests[r].pc.flight in s.flights
    && s.flights[s.requests[r].pc.flight].begun < s.requests[r].started
  }

  /** The fetch returns. */
  function Settled(config: Config): State
    requires config.maxEntries >= 1 && config.maxInFlight >= 1
  {
    JoinedIs(config);
    AfterSettle(Joined(config), 0, Success)
  }

  /** The refresh is answered by it. */
  function Stale(config: Config): State
    requires config.maxEntries >= 1 && config.maxInFlight >= 1
  {
    Delivered(Settled(config), config.maxEntries + 1)
  }

  function Delivered(s: State, r: RequestId): State {
    if r in s.requests then s.(now := s.now + 1, requests := s.requests[r := s.requests[r].(pc := Answered(0))]) else s
  }

  lemma StaleIs(config: Config)
    requires config.maxEntries >= 1 && config.maxInFlight >= 1
    ensures Next(Joined(config), Settle(0, Success), Settled(config))
    ensures Next(Settled(config), Deliver(config.maxEntries + 1), Stale(config))
    ensures AnsweredStale(Stale(config), config.maxEntries + 1)
  {
    hide Name, Joined, Next, SlowKey, AfterSettle, AnsweredStale, Delivered, Again;
    JoinedIs(config);
    assert SlowKey().id == Name(0) by { SlowKeyNames(); }
    SlowFetchAnswers(Joined(config), config.maxEntries + 1, SlowKey());
  }

  lemma SlowKeyNames()
    ensures SlowKey().id == Name(0)
  {
  }

  lemma SlowFetchAnswers(s: State, r: RequestId, key: Key)
    requires s.config.maxEntries >= 1 && s.flights == map[0 := Flight(key, key.id, 2, None)]
    requires r in s.requests && s.requests[r].pc == Waiting(0) && s.requests[r].isRefresh && s.requests[r].started > 2
    ensures var settled := AfterSettle(s, 0, Success);
            && Next(s, Settle(0, Success), settled) && Next(settled, Deliver(r), Delivered(settled, r))
            && AnsweredStale(Delivered(settled, r), r)
  {
    hide Current;
  }

  function CrowdedRun(config: Config): seq<State>
    requires config.maxEntries >= 1 && config.maxInFlight >= 1
  {
    [Start(config), First(config)] + seq(config.maxEntries + 1, j requires 0 <= j => Crowded(config, j))
    + [Again(config), Joined(config), Settled(config), Stale(config)]
  }

  function CrowdedSteps(n: nat): seq<Step> {
    [Refresh(0, Name(0)), Resolve(0, "v", 0)] + seq(n, j requires 0 <= j => Refresh(j + 1, Name(j + 1)))
    + [Refresh(n + 1, Name(0)), Resolve(n + 1, "v", 1), Settle(0, Success), Deliver(n + 1)]
  }

  lemma CrowdedStep(config: Config, i: nat)
    requires config.maxEntries >= 1 && config.maxInFlight >= 1 && i < config.maxEntries + 6
    ensures |CrowdedRun(config)| == config.maxEntries + 7 && |CrowdedSteps(config.maxEntries)| == config.maxEntries + 6
    ensures Next(CrowdedRun(config)[i], CrowdedSteps(config.maxEntries)[i], CrowdedRun(config)[i + 1])
  {
    hide Next, Name, Again, Joined, Settled, Stale, Crowded, First, Start;
    var n, run, steps := config.maxEntries, CrowdedRun(config), CrowdedSteps(config.maxEntries);
    FirstFetch(config);
    AgainIs(config);
    JoinedIs(config);
    StaleIs(config);
    if 2 <= i < n + 2 {
      CrowdIs(config, i - 1);
      assert run[i] == Crowded(config, i - 2) && run[i + 1] == Crowded(config, i - 1);
      assert steps[i] == Refresh(i - 1, Name(i - 1));
    }
  }

  lemma CrowdedStepIsNamed(d: Dialect, n: nat, i: nat)
    requires i < n + 6 && CrowdedSteps(n)[i].Refresh?
    ensures StoredId(d, CrowdedSteps(n)[i].asked) in Names(0, n + 1)
  {
    hide Name, Lower, Names;
    var k := if i < 2 || i >= n + 2 then 0 else i - 1;
    NameIsStored(d, k);
    NameIn(0, n + 1, k);
  }

  lemma NameIsRefreshed(d: Dialect, n: nat, k: nat)
    requires k <= n
    ensures Name(k) in Refreshed(d, CrowdedSteps(n))
  {
    hide Name, Lower, Refreshed;
    NameIsStored(d, k);
    IsRefreshed(d, CrowdedSteps(n), if k == 0 then 0 else k + 1);
  }

  lemma CrowdedIds(d: Dialect, n: nat)
    ensures Refreshed(d, CrowdedSteps(n)) == Elements(Names(0, n + 1))
  {
    hide Name, StoredId;
    var steps := CrowdedSteps(n);
    assert |steps| == n + 6;
    hide CrowdedSteps;
    forall id | id in Elements(Names(0, n + 1))
      ensures id in Refreshed(d, steps)
    {
      var k :| 0 <= k < n + 1 && Names(0, n + 1)[k] == id;
      NameIsRefreshed(d, n, k);
    }
    forall id | id in Refreshed(d, steps)
      ensures id in Elements(Names(0, n + 1))
    {
      var i :| 0 <= i < |steps| && steps[i].Refresh? && StoredId(d, steps[i].asked) == id;
      CrowdedStepIsNamed(d, n, i);
    }
  }

  /**
    Whatever room the fence has, one integration more than it holds is too many: a refresh is then
    answered by a fetch that began before the refresh did.
  */
  lemma OneTooManyIsStale(config: Config)
    requires config.maxEntries >= 1 && config.maxInFlight >= 1
    ensures var (run, steps, r) := (CrowdedRun(config), CrowdedSteps(config.maxEntries), config.maxEntries + 1);
            && IsRun(run, steps) && run[0].config == config && |Refreshed(config.dialect, steps)| == config.maxEntries + 1
            && AnsweredStale(run[|steps|], r)
  {
    hide Next, Name, Again, Joined, Settled, Stale, Crowded, First;
    var run, steps := CrowdedRun(config), CrowdedSteps(config.maxEntries);
    CrowdedStep(config, 0);
    forall i | 0 <= i < |steps|
      ensures Next(run[i], steps[i], run[i + 1])
    {
      CrowdedStep(config, i);
    }
    StaleIs(config);
    CrowdedIds(config.dialect, config.maxEntries);
    CountNames(config.maxEntries + 1);
  }
}
