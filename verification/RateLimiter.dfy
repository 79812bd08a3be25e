/**
  Sliding-window rate limits.  One idea (accept while fewer than `limit` accepted calls lie in the
  last window) appears three times: in the scheduler's per-minute meter, in the plain in-memory
  limiter, and in the refresh limiter that prunes and evicts keys.
*/
module SlidingWindow {
  import opened Common

  /** `stamps.filter((stamp) => stamp > cutoff)` */
  function After(stamps: seq<Time>, cutoff: Time): (r: seq<Time>)
    ensures |r| <= |stamps|
  {
    if stamps == [] then []
    else
      var last := stamps[|stamps| - 1];
      var rest := After(stamps[..|stamps| - 1], cutoff);
      if last > cutoff then rest + [last] else rest
  }

  /** What the window that ends at `now` shows. */
  function Recent(stamps: seq<Time>, now: Time, window: int): seq<Time> { After(stamps, now - window) }

  /** How many stamps lie in [from, from + window). */
  function CountIn(stamps: seq<Time>, from: Time, window: int): (n: nat)
  {
    if stamps == [] then 0
    else
      var last := stamps[|stamps| - 1];
      CountIn(stamps[..|stamps| - 1], from, window) + if from <= last < from + window then 1 else 0
  }

  ghost predicate WindowsBounded(stamps: seq<Time>, window: int, limit: int) {
    forall from :: CountIn(stamps, from, window) <= if limit < 0 then 0 else limit
  }

  /** The accepted calls among `calls`, by the sliding-window rule applied to the whole history. */
  function Accepted(calls: seq<Time>, window: int, limit: int): seq<Time> {
    if calls == [] then []
    else
      var before := Accepted(calls[..|calls| - 1], window, limit);
      var now := calls[|calls| - 1];
      if |Recent(before, now, window)| < limit then before + [now] else before
  }

  ghost predicate Ordered(calls: seq<Time>) {
    forall i, j | 0 <= i < j < |calls| :: calls[i] <= calls[j]
  }

  ghost predicate NotAfter(stamps: seq<Time>, now: Time) {
    forall i | 0 <= i < |stamps| :: stamps[i] <= now
  }

  lemma {:induction false} AcceptedAreCalls(calls: seq<Time>, window: int, limit: int, now: Time)
    requires NotAfter(calls, now)
    ensures NotAfter(Accepted(calls, window, limit), now)
  {
    if calls != [] {
      AcceptedAreCalls(calls[..|calls| - 1], window, limit, now);
    }
  }

  lemma AcceptedStep(calls: seq<Time>, now: Time, window: int, limit: int)
    ensures var before := Accepted(calls, window, limit);
            Accepted(calls + [now], window, limit)
            == before + if |Recent(before, now, window)| < limit then [now] else []
  {
    assert (calls + [now])[..|calls|] == calls;
    var before := Accepted(calls, window, limit);
    assert before + [] == before;
  }

  /** Stamps of a window that contains `now` are all recent at `now`. */
  lemma {:induction false} WindowIsRecent(stamps: seq<Time>, now: Time, window: int, from: Time)
    requires from <= now < from + window
    ensures CountIn(stamps, from, window) <= |Recent(stamps, now, window)|
  {
    if stamps != [] {
      WindowIsRecent(stamps[..|stamps| - 1], now, window, from);
    }
  }

  /** With a clock that does not run backwards, no window ever holds more than `limit` accepted calls. */
  lemma {:induction false} AcceptedStaysBounded(calls: seq<Time>, window: int, limit: int)
    requires Ordered(calls)
    ensures WindowsBounded(Accepted(calls, window, limit), window, limit)
    decreases |calls|
  {
    if calls != [] {
      var n := |calls| - 1;
      var now := calls[n];
      AcceptedStaysBounded(calls[..n], window, limit);
      var before := Accepted(calls[..n], window, limit);
      if |Recent(before, now, window)| < limit {
        assert (before + [now])[..|before|] == before;
        forall from
          ensures CountIn(before + [now], from, window) <= if limit < 0 then 0 else limit
        {
          assert CountIn(before, from, window) <= if limit < 0 then 0 else limit;
          if from <= now < from + window { WindowIsRecent(before, now, window, from); }
        }
      }
    } else {
      assert Accepted(calls, window, limit) == [];
    }
  }

  /** Filtering again at a later time forgets nothing that the later time would keep. */
  lemma {:induction false} RecentAgain(stamps: seq<Time>, earlier: Time, later: Time, window: int)
    requires earlier <= later
    ensures Recent(Recent(stamps, earlier, window), later, window) == Recent(stamps, later, window)
  {
    if stamps != [] {
      var init, last := stamps[..|stamps| - 1], stamps[|stamps| - 1];
      RecentAgain(init, earlier, later, window);
      if last > earlier - window {
        var r := Recent(init, earlier, window);
        assert (r + [last])[..|r|] == r;
      }
    }
  }

  lemma RecentAppend(stamps: seq<Time>, t: Time, now: Time, window: int)
    ensures Recent(stamps + [t], now, window) == Recent(stamps, now, window) + if t > now - window then [t] else []
  {
    assert (stamps + [t])[..|stamps|] == stamps;
  }

  /** A store keeps enough of a history when both look the same through the window. */
  ghost predicate Remembers(kept: seq<Time>, history: seq<Time>, clock: Time, window: int) {
    Recent(kept, clock, window) == Recent(history, clock, window)
  }

  lemma RemembersLater(kept: seq<Time>, history: seq<Time>, clock: Time, now: Time, window: int)
    requires Remembers(kept, history, clock, window) && clock <= now
    ensures Recent(kept, now, window) == Recent(history, now, window)
    ensures Remembers(kept, history, now, window)
    ensures Remembers(Recent(kept, now, window), history, now, window)
    ensures forall t :: Remembers(Recent(kept, now, window) + [t], history + [t], now, window)
  {
    RecentAgain(kept, clock, now, window);
    RecentAgain(history, clock, now, window);
    RecentAgain(kept, now, now, window);
    forall t
      ensures Remembers(Recent(kept, now, window) + [t], history + [t], now, window)
    {
      RecentAppend(Recent(kept, now, window), t, now, window);
      RecentAppend(history, t, now, window);
    }
  }

  /** The filter as the loop JavaScript runs. */
  method Filter(stamps: seq<Time>, cutoff: Time) returns (r: seq<Time>)
    ensures r == After(stamps, cutoff)
  {
    r := [];
    var i := 0;
    while i < |stamps|
      invariant 0 <= i <= |stamps|
      invariant r == After(stamps[..i], cutoff)
    {
      assert stamps[..i + 1][..i] == stamps[..i];
      if stamps[i] > cutoff { r := r + [stamps[i]]; }
      i := i + 1;
    }
    assert stamps[..|stamps|] == stamps;
  }

  const MINUTE_MS := 60_000

  lemma AcceptedOfNothing(max: int)
    ensures Accepted([], MINUTE_MS, max) == []
  {
  }

  lemma RecentIsAfter(stamps: seq<Time>, now: Time, window: int)
    ensures Recent(stamps, now, window) == After(stamps, now - window)
  {
  }

  /** The scheduler's `MinuteWindow`; `calls` is the history it has been asked about. */
  class MinuteWindow {
    var times: seq<Time>
    ghost var calls: seq<Time>
    ghost var max: int

    ghost predicate Valid()
      reads this
    {
      && Ordered(calls)
      && (calls == [] ==> times == [])
      && (calls != [] ==> Remembers(times, Accepted(calls, MINUTE_MS, max), calls[|calls| - 1], MINUTE_MS))
    }

    constructor (ghost max: int)
      ensures Valid() && calls == [] && this.max == max
    {
      times := [];
      calls := [];
      this.max := max;
    }

    method TryConsume(nowMs: Time, max: int) returns (ok: bool)
      requires Valid() && max == this.max && (calls != [] ==> calls[|calls| - 1] <= nowMs)
      modifies this
      ensures Valid() && this.max == old(this.max) && calls == old(calls) + [nowMs]
      ensures ok == (|Recent(Accepted(old(calls), MINUTE_MS, max), nowMs, MINUTE_MS)| < max)
      ensures Accepted(calls, MINUTE_MS, max) == Accepted(old(calls), MINUTE_MS, max) + if ok then [nowMs] else []
    {
      hide Accepted, After, Recent;
      ghost var history := Accepted(calls, MINUTE_MS, max);
      AcceptedStep(calls, nowMs, MINUTE_MS, max);
      if calls != [] {
        RemembersLater(times, history, calls[|calls| - 1], nowMs, MINUTE_MS);
      } else {
        AcceptedOfNothing(max);
        RemembersLater([], [], nowMs, nowMs, MINUTE_MS);
      }
      RecentIsAfter(times, nowMs, MINUTE_MS);
      var cutoff := nowMs - MINUTE_MS;
      times := Filter(times, cutoff);
      calls := calls + [nowMs];
      assert history + [] == history;
      if |times| >= max {
        return false;
      }
      times := times + [nowMs];
      return true;
    }
  }
}

/** packages/auth/src/action-limiter.ts */
module ActionLimiter {
  import opened Common
  import opened SlidingWindow

  type Hits = map<string, seq<Time>>

  datatype Call = Call(key: string, now: Time)

  function StampsOf(hits: Hits, key: string): seq<Time> {
    if key in hits then hits[key] else []
  }

  function Consume(hits: Hits, c: Call, limit: int, window: int): (Hits, bool) {
    var recent := Recent(StampsOf(hits, c.key), c.now, window);
    if |recent| >= limit then (hits[c.key := recent], false)
    else (hits[c.key := recent + [c.now]], true)
  }

  class ActionRateLimiter {
    const limit: int
    const windowMs: int
    var hits: Hits

    constructor (limit: int, windowMs: int)
      ensures hits == map[] && this.limit == limit && this.windowMs == windowMs
    {
      this.limit := limit;
      this.windowMs := windowMs;
      hits := map[];
    }

    method TryConsume(key: string, now: Time) returns (ok: bool)
      modifies this
      ensures (hits, ok) == Consume(old(hits), Call(key, now), limit, windowMs)
    {
      var recent := Filter(StampsOf(hits, key), now - windowMs);
      assert recent == Recent(StampsOf(hits, key), now, windowMs);
      if |recent| >= limit {
        hits := hits[key := recent];
        return false;
      }
      recent := recent + [now];
      hits := hits[key := recent];
      return true;
    }
  }

  /** The instants of the calls for one key. */
  function CallsFor(calls: seq<Call>, key: string): seq<Time> {
    if calls == [] then []
    else
      var last := calls[|calls| - 1];
      CallsFor(calls[..|calls| - 1], key) + if last.key == key then [last.now] else []
  }

  ghost predicate ClockOk(calls: seq<Call>) {
    forall i, j | 0 <= i < j < |calls| :: calls[i].now <= calls[j].now
  }

  ghost predicate Run(limit: int, window: int, calls: seq<Call>, states: seq<Hits>, answers: seq<bool>) {
    && |states| == |calls| + 1 && |answers| == |calls| && states[0] == map[] && ClockOk(calls)
    && forall i | 0 <= i < |calls| :: (states[i + 1], answers[i]) == Consume(states[i], calls[i], limit, window)
  }

  lemma {:induction false} CallsOrdered(calls: seq<Call>, key: string)
    requires ClockOk(calls)
    ensures Ordered(CallsFor(calls, key))
    ensures forall now | (forall i | 0 <= i < |calls| :: calls[i].now <= now) :: NotAfter(CallsFor(calls, key), now)
    decreases |calls|
  {
    if calls != [] {
      var init, last := calls[..|calls| - 1], calls[|calls| - 1];
      CallsOrdered(init, key);
      assert NotAfter(CallsFor(init, key), last.now);
    }
  }

  /** One call keeps the agreement between the stored stamps and the history of a key. */
  lemma ConsumeRemembers(hits: Hits, c: Call, limit: int, window: int, key: string, history: seq<Time>)
    requires Remembers(StampsOf(hits, key), history, c.now, window)
    ensures var (hits', ok) := Consume(hits, c, limit, window);
            && (key == c.key ==> ok == (|Recent(history, c.now, window)| < limit))
            && Remembers(StampsOf(hits', key), history + if key == c.key && ok then [c.now] else [], c.now, window)
  {
    RemembersLater(StampsOf(hits, key), history, c.now, c.now, window);
    assert history + [] == history;
  }

  lemma AcceptedSnoc(calls: seq<Call>, c: Call, window: int, limit: int, key: string)
    ensures var before := Accepted(CallsFor(calls, key), window, limit);
            Accepted(CallsFor(calls + [c], key), window, limit)
            == before + if key == c.key && |Recent(before, c.now, window)| < limit then [c.now] else []
  {
    assert (calls + [c])[..|calls|] == calls;
    var stamps := CallsFor(calls, key);
    assert stamps + [] == stamps;
    AcceptedStep(stamps, c.now, window, limit);
    assert Accepted(stamps, window, limit) + [] == Accepted(stamps, window, limit);
  }

  /** What the limiter keeps for a key is what the whole history of that key shows through the window. */
  lemma {:induction false} KeepsEnough(limit: int, window: int, calls: seq<Call>, states: seq<Hits>, answers: seq<bool>,
                                       n: nat, key: string, now: Time)
    requires Run(limit, window, calls, states, answers) && n <= |calls|
    requires forall i | 0 <= i < n :: calls[i].now <= now
    ensures Remembers(StampsOf(states[n], key), Accepted(CallsFor(calls[..n], key), window, limit), now, window)
    decreases n
  {
    hide Consume, Recent;
    if n > 0 {
      var c := calls[n - 1];
      assert calls[..n] == calls[..n - 1] + [c];
      KeepsEnough(limit, window, calls, states, answers, n - 1, key, c.now);
      var history := Accepted(CallsFor(calls[..n - 1], key), window, limit);
      assert (states[n], answers[n - 1]) == Consume(states[n - 1], c, limit, window);
      ConsumeRemembers(states[n - 1], c, limit, window, key, history);
      AcceptedSnoc(calls[..n - 1], c, window, limit, key);
      RemembersLater(StampsOf(states[n], key), Accepted(CallsFor(calls[..n], key), window, limit), c.now, now, window);
    }
  }

  /** Every answer is the sliding-window rule on the full history of the key. */
  lemma AnswersByTheRule(limit: int, window: int, calls: seq<Call>, states: seq<Hits>, answers: seq<bool>, n: nat)
    requires Run(limit, window, calls, states, answers) && n < |calls|
    ensures answers[n] <==>
            |Recent(Accepted(CallsFor(calls[..n], calls[n].key), window, limit), calls[n].now, window)| < limit
    ensures WindowsBounded(Accepted(CallsFor(calls[..n], calls[n].key), window, limit), window, limit)
  {
    KeepsEnough(limit, window, calls, states, answers, n, calls[n].key, calls[n].now);
    assert (states[n + 1], answers[n]) == Consume(states[n], calls[n], limit, window);
    CallsOrdered(calls[..n], calls[n].key);
    AcceptedStaysBounded(CallsFor(calls[..n], calls[n].key), window, limit);
  }
}

/** packages/custom-api/src/rate-limiter.ts */
module RefreshLimiter {
  import opened Common
  import opened SlidingWindow
  import Plain = ActionLimiter

  /** A JavaScript `Map`: `order` lists the keys in insertion order. */
  datatype Tracked = Tracked(order: seq<string>, hits: map<string, seq<Time>>)

  datatype Config = Config(limit: int, windowMs: int, maxTrackedKeys: nat)

  ghost predicate WellFormed(t: Tracked) {
    && (forall k :: k in t.order <==> k in t.hits)
    && (forall i, j | 0 <= i < j < |t.order| :: t.order[i] != t.order[j])
  }

  predicate Expired(stamps: seq<Time>, current: Time, window: int) {
    forall i | 0 <= i < |stamps| :: stamps[i] <= current - window
  }

  function WithoutKey(order: seq<string>, key: string): seq<string> {
    if order == [] then []
    else if order[0] == key then order[1..]
    else [order[0]] + WithoutKey(order[1..], key)
  }

  function Delete(t: Tracked, key: string): Tracked {
    Tracked(WithoutKey(t.order, key), t.hits - {key})
  }

  function Put(t: Tracked, key: string, stamps: seq<Time>): Tracked {
    Tracked(if key in t.hits then t.order else t.order + [key], t.hits[key := stamps])
  }

  /** Drop the expired ones among the first `n` keys of `keys`. */
  function PruneKeys(t: Tracked, keys: seq<string>, current: Time, window: int): Tracked {
    if keys == [] then t
    else
      var rest := PruneKeys(t, keys[..|keys| - 1], current, window);
      var k := keys[|keys| - 1];
      if k in rest.hits && Expired(rest.hits[k], current, window) then Delete(rest, k) else rest
  }

  function Prune(t: Tracked, current: Time, window: int): Tracked {
    PruneKeys(t, t.order, current, window)
  }

  function EvictOldestWhileFull(t: Tracked, max: nat): Tracked
    decreases |t.order|
  {
    if |t.order| < max || t.order == [] then t
    else EvictOldestWhileFull(Tracked(t.order[1..], t.hits - {t.order[0]}), max)
  }

  function Consume(t: Tracked, c: Plain.Call, cfg: Config): (Tracked, bool) {
    var pruned := Prune(t, c.now, cfg.windowMs);
    var recent := Recent(Plain.StampsOf(pruned.hits, c.key), c.now, cfg.windowMs);
    if |recent| >= cfg.limit then
      (if |recent| > 0 then Put(pruned, c.key, recent) else Delete(pruned, c.key), false)
    else
      var room := if c.key in pruned.hits then pruned else EvictOldestWhileFull(pruned, cfg.maxTrackedKeys);
      (Put(room, c.key, recent + [c.now]), true)
  }

  /** The keys that capacity, not expiry, drops in one call. */
  function Evicted(t: Tracked, c: Plain.Call, cfg: Config): set<string> {
    var pruned := Prune(t, c.now, cfg.windowMs);
    if |Recent(Plain.StampsOf(pruned.hits, c.key), c.now, cfg.windowMs)| >= cfg.limit || c.key in pruned.hits then {}
    else pruned.hits.Keys - EvictOldestWhileFull(pruned, cfg.maxTrackedKeys).hits.Keys
  }

  lemma {:induction false} WithoutKeyOk(order: seq<string>, key: string)
    requires forall i, j | 0 <= i < j < |order| :: order[i] != order[j]
    ensures forall k :: k in WithoutKey(order, key) <==> k in order && k != key
    ensures forall i, j | 0 <= i < j < |WithoutKey(order, key)| :: WithoutKey(order, key)[i] != WithoutKey(order, key)[j]
    ensures |WithoutKey(order, key)| == |order| - if key in order then 1 else 0
  {
    if order != [] && order[0] != key {
      WithoutKeyOk(order[1..], key);
      var rest := WithoutKey(order[1..], key);
      assert forall k :: k in order <==> k == order[0] || k in order[1..];
      assert order[0] !in order[1..];
    } else if order != [] {
      assert forall k :: k in order <==> k == order[0] || k in order[1..];
    }
  }

  lemma {:induction false} PruneOk(t: Tracked, keys: seq<string>, current: Time, window: int)
    requires WellFormed(t)
    ensures var p := PruneKeys(t, keys, current, window);
            && WellFormed(p) && |p.order| <= |t.order|
            && (forall k | k in p.hits :: k in t.hits && p.hits[k] == t.hits[k])
            && (forall k | k in t.hits && k !in p.hits :: Expired(t.hits[k], current, window))
  {
    if keys != [] {
      PruneOk(t, keys[..|keys| - 1], current, window);
      WithoutKeyOk(PruneKeys(t, keys[..|keys| - 1], current, window).order, keys[|keys| - 1]);
    }
  }

  lemma {:induction false} EvictOk(t: Tracked, max: nat)
    requires WellFormed(t) && max >= 1
    ensures var r := EvictOldestWhileFull(t, max);
            && WellFormed(r) && |r.order| < max && |r.order| <= |t.order|
            && (forall k | k in r.hits :: k in t.hits && r.hits[k] == t.hits[k])
    decreases |t.order|
  {
    if |t.order| >= max {
      var next := Tracked(t.order[1..], t.hits - {t.order[0]});
      assert forall k :: k in t.order <==> k == t.order[0] || k in t.order[1..];
      EvictOk(next, max);
    }
  }

  /** However many keys are used, the limiter never tracks more than its capacity. */
  lemma ConsumeKeepsCapacity(t: Tracked, c: Plain.Call, cfg: Config)
    requires WellFormed(t) && |t.order| <= cfg.maxTrackedKeys && cfg.maxTrackedKeys >= 1
    ensures WellFormed(Consume(t, c, cfg).0) && |Consume(t, c, cfg).0.order| <= cfg.maxTrackedKeys
  {
    hide PruneKeys, EvictOldestWhileFull, WithoutKey, After;
    var pruned := Prune(t, c.now, cfg.windowMs);
    PruneOk(t, t.order, c.now, cfg.windowMs);
    WithoutKeyOk(pruned.order, c.key);
    if c.key !in pruned.hits {
      EvictOk(pruned, cfg.maxTrackedKeys);
      RecentOfNothing(c.now, cfg.windowMs);
    }
  }

  lemma RecentOfNothing(now: Time, window: int)
    ensures Recent([], now, window) == []
  {
  }

  class CustomApiRateLimiter {
    const limit: int
    const windowMs: int
    const maxTrackedKeys: nat
    var order: seq<string>
    var hits: map<string, seq<Time>>

    ghost function State(): Tracked
      reads this
    {
      Tracked(order, hits)
    }

    ghost predicate Valid()
      reads this
    {
      WellFormed(State()) && |order| <= maxTrackedKeys && maxTrackedKeys >= 1
    }

    constructor (limit: int, windowMs: int, maxTrackedKeys: int)
      ensures Valid() && State() == Tracked([], map[]) && this.limit == limit && this.windowMs == windowMs
      ensures this.maxTrackedKeys == if maxTrackedKeys < 1 then 1 else maxTrackedKeys
    {
      this.limit := limit;
      this.windowMs := windowMs;
      this.maxTrackedKeys := if maxTrackedKeys < 1 then 1 else maxTrackedKeys;
      order := [];
      hits := map[];
    }

    method TryConsume(key: string, current: Time) returns (ok: bool)
      requires Valid()
      modifies this
      ensures Valid()
      ensures (State(), ok) == Consume(old(State()), Plain.Call(key, current), Config(limit, windowMs, maxTrackedKeys))
    {
      ConsumeKeepsCapacity(State(), Plain.Call(key, current), Config(limit, windowMs, maxTrackedKeys));
      PruneOk(State(), order, current, windowMs);
      PruneExpired(current);
      var recent := Filter(Plain.StampsOf(hits, key), current - windowMs);
      assert recent == Recent(Plain.StampsOf(hits, key), current, windowMs);
      if |recent| >= limit {
        if |recent| > 0 {
          Set(key, recent);
        } else {
          Remove(key);
        }
        return false;
      }
      if key !in hits { EvictWhileFull(); }
      recent := recent + [current];
      Set(key, recent);
      return true;
    }

    method Set(key: string, stamps: seq<Time>)
      modifies this
      ensures State() == Put(old(State()), key, stamps)
    {
      if key !in hits { order := order + [key]; }
      hits := hits[key := stamps];
    }

    method Remove(key: string)
      modifies this
      ensures State() == Delete(old(State()), key)
    {
      order := WithoutKey(order, key);
      hits := hits - {key};
    }

    method PruneExpired(current: Time)
      modifies this
      ensures State() == Prune(old(State()), current, windowMs)
    {
      var keys := order;
      ghost var before := State();
      var i := 0;
      while i < |keys|
        invariant 0 <= i <= |keys|
        invariant State() == PruneKeys(before, keys[..i], current, windowMs)
      {
        assert keys[..i + 1][..i] == keys[..i];
        if keys[i] in hits && Expired(hits[keys[i]], current, windowMs) {
          Remove(keys[i]);
        }
        i := i + 1;
      }
      assert keys[..|keys|] == keys;
    }

    method EvictWhileFull()
      requires WellFormed(State())
      modifies this
      ensures State() == EvictOldestWhileFull(old(State()), maxTrackedKeys)
    {
      ghost var before := State();
      while |order| >= maxTrackedKeys && order != []
        invariant EvictOldestWhileFull(State(), maxTrackedKeys) == EvictOldestWhileFull(before, maxTrackedKeys)
        decreases |order|
      {
        var oldest := order[0];
        order := order[1..];
        hits := hits - {oldest};
      }
    }
  }

  // ---------------------------------------------------------------- agreement with the plain limiter

  ghost predicate Run(cfg: Config, calls: seq<Plain.Call>, states: seq<Tracked>, answers: seq<bool>) {
    && cfg.maxTrackedKeys >= 1 && cfg.windowMs >= 0
    && |states| == |calls| + 1 && |answers| == |calls| && states[0] == Tracked([], map[]) && Plain.ClockOk(calls)
    && forall i | 0 <= i < |calls| :: (states[i + 1], answers[i]) == Consume(states[i], calls[i], cfg)
  }

  ghost predicate NeverEvicted(cfg: Config, calls: seq<Plain.Call>, states: seq<Tracked>, n: nat, key: string)
    requires n <= |calls| < |states|
  {
    forall i | 0 <= i < n :: key !in Evicted(states[i], calls[i], cfg)
  }

  lemma {:induction false} ExpiredShowsNothing(stamps: seq<Time>, current: Time, window: int)
    requires Expired(stamps, current, window)
    ensures Recent(stamps, current, window) == []
  {
    if stamps != [] {
      ExpiredShowsNothing(stamps[..|stamps| - 1], current, window);
    }
  }

  /** One call leaves what every other kept key shows through the window as it was. */
  lemma OtherKeysKept(t: Tracked, c: Plain.Call, cfg: Config, key: string)
    requires WellFormed(t) && cfg.maxTrackedKeys >= 1 && key != c.key && key !in Evicted(t, c, cfg)
    ensures Recent(Plain.StampsOf(Consume(t, c, cfg).0.hits, key), c.now, cfg.windowMs)
         == Recent(Plain.StampsOf(t.hits, key), c.now, cfg.windowMs)
  {
    var pruned := Prune(t, c.now, cfg.windowMs);
    PruneOk(t, t.order, c.now, cfg.windowMs);
    EvictOk(pruned, cfg.maxTrackedKeys);
    if key in t.hits && key !in pruned.hits {
      ExpiredShowsNothing(t.hits[key], c.now, cfg.windowMs);
    }
    RecentOfNothing(c.now, cfg.windowMs);
  }

  /** Pruning a key first does not change what is read for it. */
  lemma PruningInvisible(t: Tracked, now: Time, window: int, key: string)
    requires WellFormed(t)
    ensures Recent(Plain.StampsOf(Prune(t, now, window).hits, key), now, window) == Recent(Plain.StampsOf(t.hits, key), now, window)
  {
    PruneOk(t, t.order, now, window);
    if key in t.hits && key !in Prune(t, now, window).hits {
      ExpiredShowsNothing(t.hits[key], now, window);
    }
    RecentOfNothing(now, window);
  }

  lemma OwnKeyKept(t: Tracked, c: Plain.Call, cfg: Config)
    requires WellFormed(t) && cfg.windowMs >= 0
    ensures var recent := Recent(Plain.StampsOf(t.hits, c.key), c.now, cfg.windowMs);
            var (r, ok) := Consume(t, c, cfg);
            && ok == (|recent| < cfg.limit)
            && Plain.StampsOf(r.hits, c.key) == recent + if ok then [c.now] else []
  {
    PruningInvisible(t, c.now, cfg.windowMs, c.key);
    RecentOfNothing(c.now, cfg.windowMs);
  }

  lemma ConsumeRemembers(t: Tracked, c: Plain.Call, cfg: Config, key: string, history: seq<Time>)
    requires WellFormed(t) && cfg.maxTrackedKeys >= 1 && cfg.windowMs >= 0
    requires key !in Evicted(t, c, cfg)
    requires Remembers(Plain.StampsOf(t.hits, key), history, c.now, cfg.windowMs)
    ensures var (t', ok) := Consume(t, c, cfg);
            Remembers(Plain.StampsOf(t'.hits, key),
                      history + if key == c.key && |Recent(history, c.now, cfg.windowMs)| < cfg.limit then [c.now] else [],
                      c.now, cfg.windowMs)
  {
    hide Consume, Evicted;
    RemembersLater(Plain.StampsOf(t.hits, key), history, c.now, c.now, cfg.windowMs);
    assert history + [] == history;
    if key == c.key {
      OwnKeyKept(t, c, cfg);
      var recent := Recent(Plain.StampsOf(t.hits, key), c.now, cfg.windowMs);
      assert recent + [] == recent;
    } else {
      OtherKeysKept(t, c, cfg, key);
    }
  }

  lemma {:induction false} StatesWellFormed(cfg: Config, calls: seq<Plain.Call>, states: seq<Tracked>, answers: seq<bool>, n: nat)
    requires Run(cfg, calls, states, answers) && n <= |calls|
    ensures WellFormed(states[n]) && |states[n].order| <= cfg.maxTrackedKeys
  {
    hide Consume;
    if n > 0 {
      StatesWellFormed(cfg, calls, states, answers, n - 1);
      ConsumeKeepsCapacity(states[n - 1], calls[n - 1], cfg);
      assert (states[n], answers[n - 1]) == Consume(states[n - 1], calls[n - 1], cfg);
    }
  }

  lemma {:induction false} KeepsEnough(cfg: Config, calls: seq<Plain.Call>, states: seq<Tracked>, answers: seq<bool>,
                                       n: nat, key: string, now: Time)
    requires Run(cfg, calls, states, answers) && n <= |calls|
    requires NeverEvicted(cfg, calls, states, n, key)
    requires forall i | 0 <= i < n :: calls[i].now <= now
    ensures Remembers(Plain.StampsOf(states[n].hits, key),
                      Accepted(Plain.CallsFor(calls[..n], key), cfg.windowMs, cfg.limit), now, cfg.windowMs)
    decreases n
  {
    hide Consume, Evicted, Recent;
    var window, limit := cfg.windowMs, cfg.limit;
    if n > 0 {
      var c := calls[n - 1];
      assert calls[..n] == calls[..n - 1] + [c];
      StatesWellFormed(cfg, calls, states, answers, n - 1);
      assert (states[n], answers[n - 1]) == Consume(states[n - 1], c, cfg);
      KeepsEnough(cfg, calls, states, answers, n - 1, key, c.now);
      var history := Accepted(Plain.CallsFor(calls[..n - 1], key), window, limit);
      ConsumeRemembers(states[n - 1], c, cfg, key, history);
      Plain.AcceptedSnoc(calls[..n - 1], c, window, limit, key);
      RemembersLater(Plain.StampsOf(states[n].hits, key), Accepted(Plain.CallsFor(calls[..n], key), window, limit), c.now, now, window);
    }
  }

  /**
    On a key that capacity never evicted the evicting limiter gives the answer of the plain limiter
    at every call, so its windows are bounded in the same way.
  */
  lemma AgreesWithPlain(cfg: Config, calls: seq<Plain.Call>, states: seq<Tracked>, answers: seq<bool>,
                        plainStates: seq<Plain.Hits>, plainAnswers: seq<bool>, n: nat)
    requires Run(cfg, calls, states, answers) && Plain.Run(cfg.limit, cfg.windowMs, calls, plainStates, plainAnswers)
    requires n < |calls| && NeverEvicted(cfg, calls, states, n, calls[n].key)
    ensures answers[n] == plainAnswers[n]
  {
    hide Consume, Evicted;
    KeepsEnough(cfg, calls, states, answers, n, calls[n].key, calls[n].now);
    StatesWellFormed(cfg, calls, states, answers, n);
    OwnKeyKept(states[n], calls[n], cfg);
    assert (states[n + 1], answers[n]) == Consume(states[n], calls[n], cfg);
    Plain.AnswersByTheRule(cfg.limit, cfg.windowMs, calls, plainStates, plainAnswers, n);
  }
}
