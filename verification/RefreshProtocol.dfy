/**
  Concurrent reads and refreshes of one integration service (packages/custom-api/src/service.ts:
  getOverview, refreshOverview, getValue, refreshValue; packages/beszel has the same shape).

  A step is what runs between two awaits.  Cached values and running fetches are stood for by the
  number of the fetch that produces them, so that the age of every answer can be told.

  A request for a value names its integration in any spelling; generations, cache and flights go by the
  identifier of the record that is found, but a fetch asks the fence for the spelling it was given.  A
  request for an overview goes on with the record's identifier, as one spelled as stored does.
*/
module RefreshProtocol {
  import opened Common
  import opened RefreshFence
  import opened OverviewCoalescer

  type Time = nat
  type FlightId = nat
  type RequestId = nat

  /** A cache operation; `variant` is what the digests of revision, secrets and endpoint stand for. */
  datatype Key = Key(id: Id, variant: string, generation: nat)

  datatype CacheKey = CacheKey(key: Key, failure: bool)

  /** Errors of an unknown class are rethrown without being cached. */
  datatype Outcome = Success | KnownFailure | UnknownError

  /** `asked` is the spelling in the request whose factory began the fetch. */
  datatype Flight = Flight(key: Key, asked: Id, begun: Time, outcome: Option<Outcome>)

  datatype Pc = Loading | Waiting(flight: FlightId) | Answered(flight: FlightId)

  datatype Request = Request(asked: Id, id: Id, generation: nat, started: Time, isRefresh: bool, key: Option<Key>, pc: Pc)

  /** The database, and the room of the fence and of the flight table. */
  datatype Config = Config(dialect: Dialect, maxEntries: nat, maxInFlight: nat)

  /**
    The last four fields are history: the clock, when each generation was issued, the integrations
    whose counter ever started over, and whether a fetch ever found the flight table full.
  */
  datatype State = State(
    config: Config,
    fence: Fence,
    cache: map<CacheKey, FlightId>,
    flights: map<FlightId, Flight>,
    inFlight: map<Key, FlightId>,
    requests: map<RequestId, Request>,
    now: Time,
    issued: map<Id, seq<Time>>,
    forgotten: set<Id>,
    overflowed: bool)

  datatype Step =
    | Get(r: RequestId, asked: Id)
    | Refresh(r: RequestId, asked: Id)
    | Resolve(r: RequestId, variant: string, created: FlightId)
    | GiveUp(r: RequestId)
    | Settle(f: FlightId, outcome: Outcome)
    | Finally(f: FlightId)
    | Deliver(r: RequestId)
    | Expire(entry: CacheKey)
    | Invalidate(id: Id)

  function Issued(s: State, id: Id): seq<Time> {
    if id in s.issued then s.issued[id] else [0]
  }

  function WithoutIntegration(cache: map<CacheKey, FlightId>, id: Id): map<CacheKey, FlightId> {
    map k | k in cache && k.key.id != id :: cache[k]
  }

  function WrapsAround(f: Fence, id: Id): bool { Current(f, id) + 1 > MAX_SAFE_INTEGER }

  /** The synchronous part of a refresh: a new generation, an empty cache, and the read begins. */
  function AfterRefresh(s: State, r: RequestId, asked: Id): State
    requires s.config.maxEntries >= 1
  {
    var id := StoredId(s.config.dialect, asked);
    s.(now := s.now + 1,
       fence := AfterAdvance(s.fence, id, s.config.maxEntries),
       cache := WithoutIntegration(s.cache, id),
       issued := s.issued[id := Issued(s, id) + [s.now]],
       forgotten := s.forgotten + Evicted(s.fence, id, s.config.maxEntries) + if WrapsAround(s.fence, id) then {id} else {},
       requests := s.requests[r := Request(asked, id, NextGeneration(s.fence, id), s.now, true, None, Loading)])
  }

  predicate Cached(s: State, key: Key) {
    CacheKey(key, false) in s.cache || CacheKey(key, true) in s.cache
  }

  /** Cached value, cached failure, running fetch, new fetch: the first that applies. */
  function Resolved(s: State, key: Key, created: FlightId): Pc {
    if CacheKey(key, false) in s.cache then Answered(s.cache[CacheKey(key, false)])
    else if CacheKey(key, true) in s.cache then Answered(s.cache[CacheKey(key, true)])
    else Waiting(FlightFor(s.inFlight, key, created))
  }

  /** The factory runs, and a fetch begins, when nothing is cached and no fetch for the key is tracked. */
  predicate Starts(s: State, key: Key) { !Cached(s, key) && key !in s.inFlight }

  function AfterResolve(s: State, r: RequestId, key: Key, created: FlightId): State
    requires r in s.requests
  {
    s.(now := s.now + 1,
       requests := s.requests[r := s.requests[r].(key := Some(key), pc := Resolved(s, key, created))],
       flights := if Starts(s, key) then s.flights[created := Flight(key, s.requests[r].asked, s.now, None)] else s.flights,
       inFlight := if Cached(s, key) then s.inFlight else AfterRun(s.inFlight, key, created, s.config.maxInFlight),
       overflowed := s.overflowed || (Starts(s, key) && |s.inFlight| >= s.config.maxInFlight))
  }

  /** A fetch writes the cache only when the fence has its generation for the spelling it asks with. */
  function AfterSettle(s: State, f: FlightId, outcome: Outcome): State
    requires f in s.flights
  {
    var key := s.flights[f].key;
    var current := Current(s.fence, s.flights[f].asked) == key.generation;
    s.(now := s.now + 1,
       flights := s.flights[f := s.flights[f].(outcome := Some(outcome))],
       cache := if current && !outcome.UnknownError? then s.cache[CacheKey(key, outcome.KnownFailure?) := f] else s.cache)
  }

  ghost predicate Next(s: State, step: Step, s': State) {
    s.config.maxEntries >= 1 &&
    match step
    case Get(r, asked) =>
      r !in s.requests
      && var id := StoredId(s.config.dialect, asked);
         s' == s.(now := s.now + 1,
                  requests := s.requests[r := Request(asked, id, Current(s.fence, id), s.now, false, None, Loading)])
    case Refresh(r, asked) => r !in s.requests && s' == AfterRefresh(s, r, asked)
    case Resolve(r, variant, created) =>
      r in s.requests && s.requests[r].pc == Loading && created !in s.flights
      && s' == AfterResolve(s, r, Key(s.requests[r].id, variant, s.requests[r].generation), created)
    case GiveUp(r) => s' == s.(now := s.now + 1, requests := s.requests - {r})
    case Settle(f, outcome) =>
      f in s.flights && s.flights[f].outcome.None? && s' == AfterSettle(s, f, outcome)
    case Finally(f) =>
      f in s.flights && s.flights[f].outcome.Some?
      && s' == s.(now := s.now + 1, inFlight := AfterFinally(s.inFlight, s.flights[f].key, f))
    case Deliver(r) =>
      r in s.requests && s.requests[r].pc.Waiting?
      && var f := s.requests[r].pc.flight;
         f in s.flights && s.flights[f].outcome.Some?
         && s' == s.(now := s.now + 1, requests := s.requests[r := s.requests[r].(pc := Answered(f))])
    case Expire(entry) => s' == s.(now := s.now + 1, cache := s.cache - {entry})
    case Invalidate(id) => s' == s.(now := s.now + 1, cache := WithoutIntegration(s.cache, id))
  }

  ghost predicate Init(s: State) {
    && s.config.maxEntries >= 1
    && s == State(s.config, EMPTY, map[], map[], map[], map[], 1, map[], {}, false)
  }

  ghost predicate IsRun(run: seq<State>, steps: seq<Step>) {
    && |run| == |steps| + 1 && Init(run[0])
    && forall i | 0 <= i < |steps| :: Next(run[i], steps[i], run[i + 1])
  }

  // ---------------------------------------------------------------- the invariant

  ghost predicate Increasing(times: seq<Time>) {
    forall i, j | 0 <= i < j < |times| :: times[i] < times[j]
  }

  /** The counter of an integration never forgotten counts its refreshes. */
  ghost predicate CounterOk(s: State, id: Id) {
    && |Issued(s, id)| == Current(s.fence, id) + 1
    && Increasing(Issued(s, id))
    && forall i | 0 <= i < |Issued(s, id)| :: Issued(s, id)[i] < s.now
  }

  /** A fetch for a generation began after that generation was issued. */
  ghost predicate FlightOk(s: State, f: Flight) {
    && f.key.id == StoredId(s.config.dialect, f.asked)
    && (f.key.id !in s.forgotten ==>
          f.key.generation < |Issued(s, f.key.id)| && Issued(s, f.key.id)[f.key.generation] <= f.begun < s.now)
  }

  ghost predicate Serves(s: State, f: FlightId, key: Key) {
    f in s.flights && s.flights[f].key == key
  }

  /** A request carries the generation that was current when it started. */
  ghost predicate RequestOk(s: State, q: Request) {
    && q.id == StoredId(s.config.dialect, q.asked)
    && (q.pc.Loading? || (q.key.Some? && q.key.value.id == q.id && q.key.value.generation == q.generation
                          && Serves(s, q.pc.flight, q.key.value)))
    && (q.id !in s.forgotten ==>
          var issued := Issued(s, q.id);
          && q.generation < |issued| && issued[q.generation] <= q.started < s.now
          && (q.generation + 1 < |issued| ==> q.started < issued[q.generation + 1])
          && (q.isRefresh ==> q.started == issued[q.generation]))
  }

  ghost predicate EntryOk(s: State, k: CacheKey, f: FlightId) {
    && Serves(s, f, k.key)
    && s.flights[f].outcome == Some(if k.failure then KnownFailure else Success)
    && (k.key.id !in s.forgotten ==>
          k.key.generation == Current(s.fence, k.key.id) || (k.key.generation == 0 && s.flights[f].asked != k.key.id))
  }

  /** Generations are issued to identifiers as stored. */
  ghost predicate FenceIsStored(s: State) {
    forall id | Current(s.fence, id) != 0 :: IsStored(s.config.dialect, id)
  }

  ghost predicate CountersInv(s: State) {
    && s.config.maxEntries >= 1 && ValidFence(s.fence) && FenceIsStored(s)
    && forall id | id !in s.forgotten :: CounterOk(s, id)
  }

  ghost predicate FlightsInv(s: State) { forall f | f in s.flights :: FlightOk(s, s.flights[f]) }

  ghost predicate RequestsInv(s: State) { forall r | r in s.requests :: RequestOk(s, s.requests[r]) }

  ghost predicate CacheInv(s: State) { forall k | k in s.cache :: EntryOk(s, k, s.cache[k]) }

  ghost predicate TableInv(s: State) {
    && (forall k | k in s.inFlight :: Serves(s, s.inFlight[k], k))
    && (!s.overflowed ==>
          forall f | f in s.flights && s.flights[f].outcome.None? ::
            s.flights[f].key in s.inFlight && s.inFlight[s.flights[f].key] == f)
  }

  ghost predicate Inv(s: State) {
    CountersInv(s) && FlightsInv(s) && RequestsInv(s) && CacheInv(s) && TableInv(s)
  }

  // ---------------------------------------------------------------- every step keeps it

  /** What time does to an integration's history: nothing, or one more generation issued now. */
  ghost predicate IssuedLater(s: State, s': State, id: Id) {
    Issued(s', id) == Issued(s, id) || Issued(s', id) == Issued(s, id) + [s.now]
  }

  ghost predicate FlightStays(s: State, s': State, f: FlightId)
    requires f in s.flights
  {
    && f in s'.flights && s'.flights[f].key == s.flights[f].key
    && s'.flights[f].asked == s.flights[f].asked && s'.flights[f].begun == s.flights[f].begun
    && (s.flights[f].outcome.Some? ==> s'.flights[f].outcome == s.flights[f].outcome)
  }

  ghost predicate Later(s: State, s': State) {
    && s'.now == s.now + 1 && s'.config == s.config && s.forgotten <= s'.forgotten
    && (forall id | id !in s'.forgotten :: IssuedLater(s, s', id))
    && (forall f | f in s.flights :: FlightStays(s, s', f))
  }

  lemma LaterFlight(s: State, s': State, f: FlightId)
    requires Later(s, s') && f in s.flights && FlightOk(s, s.flights[f])
    ensures f in s'.flights && FlightOk(s', s'.flights[f])
  {
    hide Issued;
    assert FlightStays(s, s', f);
    var id := s.flights[f].key.id;
    assert id !in s'.forgotten ==> IssuedLater(s, s', id);
  }

  lemma LaterRequest(s: State, s': State, q: Request)
    requires Later(s, s') && RequestOk(s, q)
    ensures RequestOk(s', q)
  {
    hide Issued;
    if !q.pc.Loading? { assert FlightStays(s, s', q.pc.flight); }
    assert q.id !in s'.forgotten ==> IssuedLater(s, s', q.id);
  }

  /** Only a refresh moves a counter, so elsewhere an entry stays current. */
  lemma LaterEntry(s: State, s': State, k: CacheKey, f: FlightId)
    requires Later(s, s') && EntryOk(s, k, f)
    requires k.key.id !in s'.forgotten ==> Current(s'.fence, k.key.id) == Current(s.fence, k.key.id)
    ensures EntryOk(s', k, f)
  {
    hide Issued, Current;
    assert FlightStays(s, s', f);
  }

  lemma LaterTable(s: State, s': State)
    requires Later(s, s') && TableInv(s) && s'.inFlight == s.inFlight && s'.overflowed == s.overflowed
    requires s'.flights.Keys == s.flights.Keys
    ensures TableInv(s')
  {
    hide IssuedLater;
    forall k | k in s'.inFlight
      ensures Serves(s', s'.inFlight[k], k)
    {
      assert Serves(s, s.inFlight[k], k) && FlightStays(s, s', s.inFlight[k]);
    }
    forall f | f in s'.flights && s'.flights[f].outcome.None?
      ensures s.flights[f].outcome.None? && s'.flights[f].key == s.flights[f].key
    {
      assert FlightStays(s, s', f);
    }
  }

  /** Requests and fetches that were there before stay in order. */
  lemma OldOnesStayOk(s: State, s': State)
    requires Later(s, s') && FlightsInv(s) && RequestsInv(s)
    ensures forall f | f in s.flights :: f in s'.flights && FlightOk(s', s'.flights[f])
    ensures forall r | r in s.requests :: RequestOk(s', s.requests[r])
  {
    hide Later, FlightOk, RequestOk;
    forall f | f in s.flights
      ensures f in s'.flights && FlightOk(s', s'.flights[f])
    {
      LaterFlight(s, s', f);
    }
    forall r | r in s.requests
      ensures RequestOk(s', s.requests[r])
    {
      LaterRequest(s, s', s.requests[r]);
    }
  }

  lemma CounterStays(s: State, s': State, id: Id)
    requires CounterOk(s, id) && Current(s'.fence, id) == Current(s.fence, id)
    requires Issued(s', id) == Issued(s, id) && s'.now >= s.now
    ensures CounterOk(s', id)
  {
  }

  lemma CounterGrows(s: State, s': State, id: Id)
    requires CounterOk(s, id) && Current(s'.fence, id) == Current(s.fence, id) + 1
    requires Issued(s', id) == Issued(s, id) + [s.now] && s'.now > s.now
    ensures CounterOk(s', id)
  {
    hide Issued, Current;
  }

  lemma RefreshMoves(s: State, r: RequestId, asked: Id, other: Id)
    requires s.config.maxEntries >= 1 && ValidFence(s.fence) && other !in AfterRefresh(s, r, asked).forgotten
    ensures var s', id := AfterRefresh(s, r, asked), StoredId(s.config.dialect, asked);
            && other !in s.forgotten
            && Current(s'.fence, other) == Current(s.fence, other) + (if other == id then 1 else 0)
            && Issued(s', other) == Issued(s, other) + (if other == id then [s.now] else [])
  {
    AdvanceMeaning(s.fence, StoredId(s.config.dialect, asked), s.config.maxEntries);
    hide ValidFence, AfterAdvance, Evicted, Current, StoredId;
  }

  /** What a refresh does to the counter of an integration that is still remembered. */
  lemma RefreshCounts(s: State, r: RequestId, asked: Id, id: Id, s': State, other: Id)
    requires CountersInv(s) && s' == AfterRefresh(s, r, asked) && id == StoredId(s.config.dialect, asked)
    requires other !in s'.forgotten
    ensures other !in s.forgotten && CounterOk(s', other) && IssuedLater(s, s', other)
    ensures other != id ==> Current(s'.fence, other) == Current(s.fence, other)
    ensures other == id ==> Issued(s', id) == Issued(s, id) + [s.now]
    ensures other == id ==> Current(s'.fence, id) == Current(s.fence, id) + 1 == |Issued(s, id)|
  {
    RefreshMoves(s, r, asked, other);
    assert CounterOk(s, other) && s'.now == s.now + 1;
    hide ValidFence, AfterRefresh, Current, Issued, StoredId, FenceIsStored;
    if other == id {
      CounterGrows(s, s', id);
    } else {
      assert Issued(s', other) == Issued(s, other);
      CounterStays(s, s', other);
    }
  }

  lemma RefreshIsStored(s: State, r: RequestId, asked: Id, s': State)
    requires CountersInv(s) && s' == AfterRefresh(s, r, asked)
    ensures FenceIsStored(s')
  {
    var id := StoredId(s.config.dialect, asked);
    AdvanceMeaning(s.fence, id, s.config.maxEntries);
    StoredIdIsStored(s.config.dialect, asked);
    hide ValidFence, AfterAdvance, Evicted, Current, StoredId, IsStored;
    forall other | Current(s'.fence, other) != 0
      ensures IsStored(s'.config.dialect, other)
    {
      if other != id { assert Current(s.fence, other) != 0; }
    }
  }

  lemma RefreshIsLater(s: State, r: RequestId, asked: Id, s': State)
    requires CountersInv(s) && s' == AfterRefresh(s, r, asked)
    ensures Later(s, s') && CountersInv(s')
  {
    var id := StoredId(s.config.dialect, asked);
    AdvanceMeaning(s.fence, id, s.config.maxEntries);
    RefreshIsStored(s, r, asked, s');
    forall other | other !in s'.forgotten
      ensures CounterOk(s', other) && IssuedLater(s, s', other)
    {
      RefreshCounts(s, r, asked, id, s', other);
    }
    hide ValidFence, AfterAdvance, Evicted, Issued, WithoutIntegration, CounterOk, IssuedLater, NextGeneration,
         StoredId, FenceIsStored;
  }

  lemma RefreshKeepsCache(s: State, r: RequestId, asked: Id, s': State)
    requires CountersInv(s) && CacheInv(s) && Later(s, s') && s' == AfterRefresh(s, r, asked)
    ensures CacheInv(s')
  {
    var id := StoredId(s.config.dialect, asked);
    forall k | k in s'.cache
      ensures EntryOk(s', k, s'.cache[k])
    {
      assert k in s.cache && s'.cache[k] == s.cache[k] && k.key.id != id;
      assert EntryOk(s, k, s.cache[k]);
      if k.key.id !in s'.forgotten { RefreshCounts(s, r, asked, id, s', k.key.id); }
      hide AfterRefresh, EntryOk, Later, Current, Issued, StoredId;
      LaterEntry(s, s', k, s.cache[k]);
    }
  }

  lemma RefresherOk(s: State, r: RequestId, asked: Id, s': State)
    requires CountersInv(s) && s' == AfterRefresh(s, r, asked)
    ensures RequestOk(s', s'.requests[r])
  {
    var id := StoredId(s.config.dialect, asked);
    if id !in s'.forgotten {
      RefreshCounts(s, r, asked, id, s', id);
      assert NextGeneration(s.fence, id) == Current(s.fence, id) + 1;
    }
    hide CountersInv, Current, NextGeneration, Issued, AfterAdvance, StoredId;
  }

  lemma RefreshKeepsInv(s: State, r: RequestId, asked: Id, s': State)
    requires Inv(s) && s' == AfterRefresh(s, r, asked)
    ensures Inv(s')
  {
    RefreshIsLater(s, r, asked, s');
    RefreshKeepsCache(s, r, asked, s');
    RefresherOk(s, r, asked, s');
    hide Later, FlightOk, RequestOk, CountersInv, CacheInv, TableInv, AfterAdvance, Issued, NextGeneration, StoredId;
    OldOnesStayOk(s, s');
    LaterTable(s, s');
  }

  /** A step that leaves counters, history and finished fetches alone. */
  lemma QuietStep(s: State, s': State)
    requires CountersInv(s) && s'.now == s.now + 1 && s'.config == s.config
    requires s'.fence == s.fence && s'.issued == s.issued && s'.forgotten == s.forgotten
    requires forall f | f in s.flights :: FlightStays(s, s', f)
    ensures Later(s, s') && CountersInv(s')
  {
    hide ValidFence, FlightStays, Current, IsStored;
    forall id | id !in s'.forgotten
      ensures CounterOk(s', id)
    {
      assert CounterOk(s, id);
    }
  }

  lemma QuietCache(s: State, s': State)
    requires Later(s, s') && CacheInv(s) && s'.fence == s.fence
    ensures forall k | k in s.cache :: EntryOk(s', k, s.cache[k])
  {
    hide Later, EntryOk;
    forall k | k in s.cache
      ensures EntryOk(s', k, s.cache[k])
    {
      LaterEntry(s, s', k, s.cache[k]);
    }
  }

  lemma ResolveKeepsTable(s: State, r: RequestId, key: Key, created: FlightId, s': State)
    requires TableInv(s) && r in s.requests && created !in s.flights && s' == AfterResolve(s, r, key, created)
    ensures TableInv(s')
  {
    assert s'.flights == if Starts(s, key) then s.flights[created := Flight(key, s.requests[r].asked, s.now, None)] else s.flights;
    assert s'.inFlight == if Cached(s, key) then s.inFlight else AfterRun(s.inFlight, key, created, s.config.maxInFlight);
    assert s'.overflowed == (s.overflowed || (Starts(s, key) && |s.inFlight| >= s.config.maxInFlight));
    hide AfterResolve, Cached;
  }

  lemma ResolvedOk(s: State, key: Key, created: FlightId)
    requires CacheInv(s) && TableInv(s)
    ensures var pc := Resolved(s, key, created);
            !pc.Loading? && (Serves(s, pc.flight, key) || (pc == Waiting(created) && Starts(s, key)))
  {
    if CacheKey(key, false) in s.cache {
      assert EntryOk(s, CacheKey(key, false), s.cache[CacheKey(key, false)]);
    } else if CacheKey(key, true) in s.cache {
      assert EntryOk(s, CacheKey(key, true), s.cache[CacheKey(key, true)]);
    }
  }

  lemma AssignedOk(s: State, q: Request, key: Key, pc: Pc)
    requires RequestOk(s, q) && key.id == q.id && key.generation == q.generation
    requires !pc.Loading? && Serves(s, pc.flight, key)
    ensures RequestOk(s, q.(key := Some(key), pc := pc))
  {
    hide Issued, Serves;
  }

  lemma NewFlightOk(s: State, s': State, q: Request, key: Key)
    requires RequestOk(s, q) && key.id == q.id && key.generation == q.generation
    requires s'.config == s.config && s'.issued == s.issued && s'.forgotten == s.forgotten && s'.now == s.now + 1
    ensures FlightOk(s', Flight(key, q.asked, s.now, None))
  {
  }

  lemma ResolverOk(s: State, r: RequestId, variant: string, created: FlightId, s': State)
    requires Inv(s) && Next(s, Resolve(r, variant, created), s') && Later(s, s')
    ensures RequestOk(s', s'.requests[r])
    ensures created in s'.flights ==> FlightOk(s', s'.flights[created])
  {
    hide FlightOk, RequestOk, EntryOk, Resolved, Cached, CountersInv, FlightsInv;
    var q := s.requests[r];
    var key := Key(q.id, variant, q.generation);
    assert RequestOk(s, q);
    NewFlightOk(s, s', q, key);
    ResolvedOk(s, key, created);
    LaterRequest(s, s', q);
    var pc := Resolved(s, key, created);
    assert pc.flight in s.flights ==> FlightStays(s, s', pc.flight);
    AssignedOk(s', q, key, pc);
  }

  lemma ResolveKeepsInv(s: State, r: RequestId, variant: string, created: FlightId, s': State)
    requires Inv(s) && Next(s, Resolve(r, variant, created), s')
    ensures Inv(s')
  {
    var key := Key(s.requests[r].id, variant, s.requests[r].generation);
    hide Resolved, Starts, Cached, Later, FlightOk, RequestOk, EntryOk, CountersInv, TableInv;
    QuietStep(s, s');
    QuietCache(s, s');
    OldOnesStayOk(s, s');
    ResolveKeepsTable(s, r, key, created, s');
    ResolverOk(s, r, variant, created, s');
  }

  /** A spelling other than the stored one has no generation. */
  lemma OtherSpellingReadsZero(s: State, f: FlightId)
    requires FenceIsStored(s) && f in s.flights && FlightOk(s, s.flights[f]) && s.flights[f].asked != s.flights[f].key.id
    ensures Current(s.fence, s.flights[f].asked) == 0
  {
    hide Current, Issued;
  }

  lemma SettledEntryOk(s: State, f: FlightId, outcome: Outcome, s': State)
    requires CountersInv(s) && FlightsInv(s) && Next(s, Settle(f, outcome), s') && s'.cache != s.cache
    ensures var k := CacheKey(s.flights[f].key, outcome.KnownFailure?);
            s'.cache == s.cache[k := f] && EntryOk(s', k, f)
  {
    hide Current, FlightOk, CounterOk, ValidFence, FenceIsStored;
    assert FlightOk(s, s.flights[f]);
    if s.flights[f].asked != s.flights[f].key.id { OtherSpellingReadsZero(s, f); }
  }

  lemma SettleKeepsInv(s: State, f: FlightId, outcome: Outcome, s': State)
    requires Inv(s) && Next(s, Settle(f, outcome), s')
    ensures Inv(s')
  {
    hide Later, FlightOk, RequestOk, EntryOk, CountersInv, TableInv, Current;
    QuietStep(s, s');
    QuietCache(s, s');
    OldOnesStayOk(s, s');
    LaterTable(s, s');
    if s'.cache != s.cache {
      SettledEntryOk(s, f, outcome, s');
    }
  }

  lemma FinallyKeepsTable(s: State, f: FlightId, s': State)
    requires TableInv(s) && Next(s, Finally(f), s')
    ensures TableInv(s')
  {
    assert forall g | g in s.flights && g != f && s'.inFlight != s.inFlight && s.flights[g].outcome.None? && !s.overflowed ::
      s.flights[g].key != s.flights[f].key;
  }

  lemma GetOk(s: State, r: RequestId, asked: Id, s': State)
    requires CountersInv(s) && Next(s, Get(r, asked), s')
    ensures RequestOk(s', s'.requests[r])
  {
    hide ValidFence, FenceIsStored, StoredId;
    var id := StoredId(s.config.dialect, asked);
    if id !in s.forgotten { assert CounterOk(s, id); }
  }

  lemma DeliveredOk(s: State, r: RequestId, s': State)
    requires r in s.requests && Next(s, Deliver(r), s') && RequestOk(s', s.requests[r])
    ensures RequestOk(s', s'.requests[r])
  {
    hide Issued;
  }

  lemma OtherStepsKeepInv(s: State, step: Step, s': State)
    requires Inv(s) && Next(s, step, s') && !step.Refresh? && !step.Resolve? && !step.Settle?
    ensures Inv(s')
  {
    hide Later, FlightOk, RequestOk, EntryOk, CountersInv, TableInv, Current;
    QuietStep(s, s');
    QuietCache(s, s');
    OldOnesStayOk(s, s');
    if step.Finally? {
      FinallyKeepsTable(s, step.f, s');
    } else {
      LaterTable(s, s');
    }
    if step.Get? {
      GetOk(s, step.r, step.asked, s');
    } else if step.Deliver? {
      DeliveredOk(s, step.r, s');
    }
  }

  lemma StepKeepsInv(s: State, step: Step, s': State)
    requires Inv(s) && Next(s, step, s')
    ensures Inv(s')
  {
    hide Inv, AfterRefresh, AfterResolve;
    if step.Refresh? {
      RefreshKeepsInv(s, step.r, step.asked, s');
    } else if step.Resolve? {
      ResolveKeepsInv(s, step.r, step.variant, step.created, s');
    } else if step.Settle? {
      SettleKeepsInv(s, step.f, step.outcome, s');
    } else {
      OtherStepsKeepInv(s, step, s');
    }
  }

  lemma {:induction false} InvAlways(run: seq<State>, steps: seq<Step>, i: nat)
    requires IsRun(run, steps) && i < |run|
    ensures Inv(run[i])
  {
    if i > 0 {
      InvAlways(run, steps, i - 1);
      hide Next, Inv;
      assert Next(run[i - 1], steps[i - 1], run[i]);
      StepKeepsInv(run[i - 1], steps[i - 1], run[i]);
    }
  }

  // ---------------------------------------------------------------- main results

  ghost predicate HasAnswer(s: State, r: RequestId) {
    r in s.requests && s.requests[r].pc.Answered?
  }

  /**
    Every answer comes from a fetch for the very key the request asked for, begun no earlier than the
    request's generation was issued.
  */
  lemma AnswersAreFresh(run: seq<State>, steps: seq<Step>, i: nat, r: RequestId)
    requires IsRun(run, steps) && i < |run| && HasAnswer(run[i], r)
    ensures var s := run[i]; var q := s.requests[r];
            && q.key.Some? && q.key.value.id == q.id && q.key.value.generation == q.generation
            && Serves(s, q.pc.flight, q.key.value)
            && (q.id !in s.forgotten ==>
                  && q.generation < |Issued(s, q.id)|
                  && Issued(s, q.id)[q.generation] <= s.flights[q.pc.flight].begun)
  {
    InvAlways(run, steps, i);
    var s := run[i];
    hide IsRun, Issued;
    assert RequestOk(s, s.requests[r]);
    assert FlightOk(s, s.flights[s.requests[r].pc.flight]);
  }

  /** Once a refresh has begun, every request that starts later is answered by a fetch begun later. */
  lemma ReadsSeeEarlierRefreshes(run: seq<State>, steps: seq<Step>, i: nat, refresh: RequestId, read: RequestId)
    requires IsRun(run, steps) && i < |run| && HasAnswer(run[i], read) && refresh in run[i].requests
    requires var (q, p) := (run[i].requests[refresh], run[i].requests[read]);
             q.isRefresh && q.id == p.id && q.started <= p.started && p.id !in run[i].forgotten
    ensures run[i].requests[read].pc.flight in run[i].flights
    ensures run[i].flights[run[i].requests[read].pc.flight].begun >= run[i].requests[refresh].started
  {
    AnswersAreFresh(run, steps, i, read);
    InvAlways(run, steps, i);
    var s := run[i];
    hide IsRun, Issued, HasAnswer;
    var q, p := s.requests[refresh], s.requests[read];
    assert RequestOk(s, q) && RequestOk(s, p) && CounterOk(s, p.id);
    var issued := Issued(s, p.id);
    assert forall i, j | 0 <= i <= j < |issued| :: issued[i] <= issued[j];
  }

  /**
    Every cached entry holds what a finished fetch of its key returned.  It belongs to the current
    generation, or else to generation 0 and a fetch asked for in another spelling than the stored one.
  */
  lemma CacheIsCurrent(run: seq<State>, steps: seq<Step>, i: nat, k: CacheKey)
    requires IsRun(run, steps) && i < |run| && k in run[i].cache
    ensures EntryOk(run[i], k, run[i].cache[k])
  {
    InvAlways(run, steps, i);
    hide IsRun, EntryOk;
  }

  /** The cache holds what the fetch returned, under a generation that is not the current one. */
  ghost predicate HoldsOld(s: State, k: CacheKey, f: FlightId) {
    k in s.cache && s.cache[k] == f && k.key.generation != Current(s.fence, k.key.id)
  }

  /**
    A fetch that settles is cached under an old generation if and only if it was asked for in another
    spelling than the stored one, its generation is 0, the current one is not, and its error, if any,
    is of a known class.
  */
  lemma OldIsCachedExactly(run: seq<State>, steps: seq<Step>, i: nat)
    requires IsRun(run, steps) && i < |steps| && steps[i].Settle?
    ensures steps[i].f in run[i].flights
    ensures var (s, f, outcome) := (run[i], steps[i].f, steps[i].outcome);
            var key := s.flights[f].key;
            HoldsOld(run[i + 1], CacheKey(key, outcome.KnownFailure?), f)
            <==> && s.flights[f].asked != key.id && key.generation == 0 && Current(s.fence, key.id) != 0
                 && !outcome.UnknownError?
  {
    InvAlways(run, steps, i);
    var (s, f) := (run[i], steps[i].f);
    assert Next(s, steps[i], run[i + 1]);
    hide IsRun, Current, FlightOk, CounterOk, ValidFence, FenceIsStored, RequestsInv, TableInv;
    assert FlightOk(s, s.flights[f]);
    UnsettledIsNotCached(s, f);
    if s.flights[f].asked != s.flights[f].key.id { OtherSpellingReadsZero(s, f); }
  }

  lemma UnsettledIsNotCached(s: State, f: FlightId)
    requires CacheInv(s) && f in s.flights && s.flights[f].outcome.None?
    ensures forall k | k in s.cache :: s.cache[k] != f
  {
    forall k | k in s.cache
      ensures s.cache[k] != f
    {
      assert EntryOk(s, k, s.cache[k]);
    }
  }

  /** While the flight table never filled up, two fetches never run for one key. */
  lemma SingleFlight(run: seq<State>, steps: seq<Step>, i: nat, f: FlightId, g: FlightId)
    requires IsRun(run, steps) && i < |run| && !run[i].overflowed
    requires f in run[i].flights && g in run[i].flights && run[i].flights[f].key == run[i].flights[g].key
    requires run[i].flights[f].outcome.None? && run[i].flights[g].outcome.None?
    ensures f == g
  {
    InvAlways(run, steps, i);
    hide IsRun, CountersInv, FlightsInv, RequestsInv, CacheInv;
  }

  // ---------------------------------------------------------------- a value asked for in another spelling

  const ROOMY := Config(Postgres, 10, 10)

  function SomeKey(): Key { Key(SampleId('a'), "v", 0) }

  function Begun(): State { State(ROOMY, EMPTY, map[], map[], map[], map[], 1, map[], {}, false) }

  function Asked(): State {
    Begun().(now := 2, requests := map[0 := Request(SampleId('A'), SampleId('a'), 0, 1, false, None, Loading)])
  }

  function Fetching(): State { AfterResolve(Asked(), 0, SomeKey(), 0) }

  function Refreshing(): State { AfterRefresh(Fetching(), 1, SampleId('a')) }

  lemma SpellingsOfTheSample()
    ensures StoredId(Postgres, SampleId('A')) == SampleId('a') && StoredId(Postgres, SampleId('a')) == SampleId('a')
    ensures SampleId('A') != SampleId('a')
  {
    hide Lower, SampleId;
    SampleIds();
    LowerTwice(SampleId('A'));
  }

  lemma FetchingIs()
    ensures Next(Begun(), Get(0, SampleId('A')), Asked()) && Next(Asked(), Resolve(0, "v", 0), Fetching())
    ensures var s := Fetching();
            && s.config == ROOMY && s.fence == EMPTY && s.cache == map[] && s.forgotten == {} && 1 !in s.requests
            && s.flights == map[0 := Flight(SomeKey(), SampleId('A'), 2, None)]
  {
    hide Lower, SampleId;
    SpellingsOfTheSample();
    assert Begun().requests[0 := Request(SampleId('A'), SampleId('a'), 0, 1, false, None, Loading)] == Asked().requests;
    assert Starts(Asked(), SomeKey());
  }

  lemma RefreshingIs()
    ensures Next(Fetching(), Refresh(1, SampleId('a')), Refreshing())
    ensures var s := Refreshing();
            && s.config == ROOMY && s.cache == map[] && s.forgotten == {} && s.flights == Fetching().flights
            && Current(s.fence, SampleId('a')) == 1 && Current(s.fence, SampleId('A')) == 0
  {
    hide Lower, SampleId, Fetching, AfterAdvance, Evicted;
    SpellingsOfTheSample();
    FetchingIs();
    assert Distinct([]) && ValidFence(EMPTY);
    AdvanceMeaning(EMPTY, SampleId('a'), 10);
    NothingToEvict(SampleId('a'));
  }

  lemma NothingToEvict(id: Id)
    ensures ValidFence(EMPTY) && Evicted(EMPTY, id, 10) == {}
  {
    assert Elements([]) == {};
  }

  /** A value is asked for in upper case, the integration is refreshed, and the first fetch returns. */
  function Respelled(): (seq<State>, seq<Step>)
    requires 0 in Refreshing().flights
  {
    ([Begun(), Asked(), Fetching(), Refreshing(), AfterSettle(Refreshing(), 0, Success)],
     [Get(0, SampleId('A')), Resolve(0, "v", 0), Refresh(1, SampleId('a')), Settle(0, Success)])
  }

  /** The fetch is cached under generation 0 while the current generation is 1 and nothing was forgotten. */
  lemma OtherSpellingCachesOld()
    ensures 0 in Refreshing().flights
    ensures var (run, steps) := Respelled();
            && IsRun(run, steps) && run[4].forgotten == {}
            && HoldsOld(run[4], CacheKey(SomeKey(), false), 0) && Current(run[4].fence, SampleId('a')) == 1
  {
    hide Lower, SampleId, Fetching, Refreshing;
    SpellingsOfTheSample();
    FetchingIs();
    RefreshingIs();
    var (run, steps) := Respelled();
    assert Next(Refreshing(), Settle(0, Success), AfterSettle(Refreshing(), 0, Success));
    hide Next;
    forall i | 0 <= i < 4
      ensures Next(run[i], steps[i], run[i + 1])
    {
    }
  }
}
