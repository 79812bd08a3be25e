/**
  How many keys the refresh limiter can serve (packages/custom-api/src/rate-limiter.ts): with a
  capacity of `n` it answers as the plain limiter does as long as no more than `n` keys are used, and
  one more key is too many, whatever `n` is.
*/
module LimiterCapacity {
  import opened Common
  import opened SlidingWindow
  import opened RefreshLimiter
  import Plain = ActionLimiter
  import opened Numerals

  // ---------------------------------------------------------------- enough room

  function KeysUsed(calls: seq<Plain.Call>): set<string> { set i | 0 <= i < |calls| :: calls[i].key }

  /** A call brings in no key but its own, and evicts none while there is room for all. */
  lemma RoomForAll(t: Tracked, c: Plain.Call, cfg: Config, keys: set<string>)
    requires WellFormed(t) && cfg.maxTrackedKeys >= 1 && |keys| <= cfg.maxTrackedKeys && c.key in keys
    requires forall k | k in t.hits :: k in keys
    ensures Evicted(t, c, cfg) == {}
    ensures forall k | k in Consume(t, c, cfg).0.hits :: k in keys
  {
    hide PruneKeys, Recent, WithoutKey;
    var pruned := Prune(t, c.now, cfg.windowMs);
    PruneOk(t, t.order, c.now, cfg.windowMs);
    if c.key !in pruned.hits {
      forall k | k in pruned.order
        ensures k in keys - {c.key}
      {
      }
      DistinctFit(pruned.order, keys - {c.key});
      assert EvictOldestWhileFull(pruned, cfg.maxTrackedKeys) == pruned;
    }
  }

  lemma {:induction false} KeysStayUsed(cfg: Config, calls: seq<Plain.Call>, states: seq<Tracked>, answers: seq<bool>, n: nat)
    requires Run(cfg, calls, states, answers) && n <= |calls| && |KeysUsed(calls)| <= cfg.maxTrackedKeys
    ensures forall k | k in states[n].hits :: k in KeysUsed(calls)
    ensures forall i | 0 <= i < n :: Evicted(states[i], calls[i], cfg) == {}
  {
    hide Consume, Evicted;
    if n > 0 {
      KeysStayUsed(cfg, calls, states, answers, n - 1);
      StatesWellFormed(cfg, calls, states, answers, n - 1);
      assert calls[n - 1].key in KeysUsed(calls);
      RoomForAll(states[n - 1], calls[n - 1], cfg, KeysUsed(calls));
      assert (states[n], answers[n - 1]) == Consume(states[n - 1], calls[n - 1], cfg);
    }
  }

  /** With room for every key in use the evicting limiter gives the plain limiter's answer to every call. */
  lemma AgreesWithRoom(cfg: Config, calls: seq<Plain.Call>, states: seq<Tracked>, answers: seq<bool>,
                       plainStates: seq<Plain.Hits>, plainAnswers: seq<bool>)
    requires Run(cfg, calls, states, answers) && Plain.Run(cfg.limit, cfg.windowMs, calls, plainStates, plainAnswers)
    requires |KeysUsed(calls)| <= cfg.maxTrackedKeys
    ensures answers == plainAnswers
  {
    hide Consume, Evicted, KeysUsed, Plain.Consume;
    KeysStayUsed(cfg, calls, states, answers, |calls|);
    forall n | 0 <= n < |calls|
      ensures answers[n] == plainAnswers[n]
    {
      AgreesWithPlain(cfg, calls, states, answers, plainStates, plainAnswers, n);
    }
  }

  // ---------------------------------------------------------------- one key too many

  function Zeros(n: nat): seq<Time> { seq(n, _ => 0) }

  /** The first key uses up its limit, then come as many other keys as fit, then the first again: all in one instant. */
  function Crowd(limit: nat, n: nat): seq<Plain.Call> {
    seq(limit, _ => Plain.Call(Name(0), 0)) + seq(n, i requires 0 <= i => Plain.Call(Name(i + 1), 0)) + [Plain.Call(Name(0), 0)]
  }

  function StateAfter(cfg: Config, calls: seq<Plain.Call>, m: nat): Tracked
    requires m <= |calls|
  {
    if m == 0 then Tracked([], map[]) else Consume(StateAfter(cfg, calls, m - 1), calls[m - 1], cfg).0
  }

  function States(cfg: Config, calls: seq<Plain.Call>): seq<Tracked> {
    seq(|calls| + 1, m requires 0 <= m <= |calls| => StateAfter(cfg, calls, m))
  }

  function Answers(cfg: Config, calls: seq<Plain.Call>): seq<bool> {
    seq(|calls|, m requires 0 <= m < |calls| => Consume(StateAfter(cfg, calls, m), calls[m], cfg).1)
  }

  lemma PlayIsRun(cfg: Config, calls: seq<Plain.Call>)
    requires cfg.maxTrackedKeys >= 1 && cfg.windowMs >= 0 && Plain.ClockOk(calls)
    ensures Run(cfg, calls, States(cfg, calls), Answers(cfg, calls))
  {
    hide Consume;
  }

  /** Only stamps of this instant, at least one for every key. */
  ghost predicate AllFresh(t: Tracked) {
    forall k | k in t.hits :: |t.hits[k]| > 0 && forall i | 0 <= i < |t.hits[k]| :: t.hits[k][i] == 0
  }

  lemma {:induction false} NothingExpires(t: Tracked, keys: seq<string>, window: int)
    requires AllFresh(t) && window >= 1
    ensures PruneKeys(t, keys, 0, window) == t
  {
    if keys != [] {
      NothingExpires(t, keys[..|keys| - 1], window);
      var k := keys[|keys| - 1];
      if k in t.hits { assert t.hits[k][0] > 0 - window; }
    }
  }

  lemma {:induction false} FreshIsRecent(stamps: seq<Time>, window: int)
    requires window >= 1 && forall i | 0 <= i < |stamps| :: stamps[i] == 0
    ensures Recent(stamps, 0, window) == stamps
  {
    if stamps != [] { FreshIsRecent(stamps[..|stamps| - 1], window); }
  }

  /** While a key is below its limit and is tracked, or there is room for it, it gets one more stamp. */
  lemma TakesStamp(t: Tracked, key: string, cfg: Config)
    requires AllFresh(t) && cfg.windowMs >= 1 && |Plain.StampsOf(t.hits, key)| < cfg.limit
    ensures var room := if key in t.hits then t else EvictOldestWhileFull(t, cfg.maxTrackedKeys);
            Consume(t, Plain.Call(key, 0), cfg) == (Put(room, key, Plain.StampsOf(t.hits, key) + [0]), true)
  {
    hide EvictOldestWhileFull, PruneKeys, Recent;
    NothingExpires(t, t.order, cfg.windowMs);
    FreshIsRecent(Plain.StampsOf(t.hits, key), cfg.windowMs);
  }

  /** The first key, called `m` times. */
  lemma {:induction false} FirstKey(cfg: Config, n: nat, m: nat)
    requires cfg.limit >= 1 && cfg.windowMs >= 1 && cfg.maxTrackedKeys >= 1 && 1 <= m <= cfg.limit
    ensures |Crowd(cfg.limit, n)| == cfg.limit + n + 1
    ensures StateAfter(cfg, Crowd(cfg.limit, n), m) == Tracked([Name(0)], map[Name(0) := Zeros(m)])
    ensures Consume(StateAfter(cfg, Crowd(cfg.limit, n), m - 1), Crowd(cfg.limit, n)[m - 1], cfg).1
  {
    hide Consume, Name;
    var calls := Crowd(cfg.limit, n);
    assert calls[m - 1] == Plain.Call(Name(0), 0);
    var before := StateAfter(cfg, calls, m - 1);
    if m > 1 {
      FirstKey(cfg, n, m - 1);
      assert Zeros(m - 1) + [0] == Zeros(m);
    } else {
      assert before == Tracked([], map[]) && [] + [Name(0)] == [Name(0)] && [] + [0] == Zeros(1);
      assert EvictOldestWhileFull(before, cfg.maxTrackedKeys) == before;
    }
    TakesStamp(before, Name(0), cfg);
  }

  /** A limiter that holds fresh stamps for the names from `from` to `to`, in this order. */
  ghost predicate HoldsNames(t: Tracked, from: nat, to: nat)
    requires from <= to
  {
    AllFresh(t) && t.order == Names(from, to) && forall k :: k in t.order <==> k in t.hits
  }

  lemma NextKeyArrives(t: Tracked, j: nat, cfg: Config)
    requires cfg.limit >= 1 && cfg.windowMs >= 1 && 1 <= j <= cfg.maxTrackedKeys && HoldsNames(t, 0, j)
    ensures HoldsNames(Consume(t, Plain.Call(Name(j), 0), cfg).0, if j < cfg.maxTrackedKeys then 0 else 1, j + 1)
  {
    hide Consume, Name, Names, AllFresh, Put, EvictOldestWhileFull;
    NameIn(0, j, j);
    NamesDistinct(0, j);
    NamesExtend(j);
    assert Plain.StampsOf(t.hits, Name(j)) == [];
    TakesStamp(t, Name(j), cfg);
    MakesRoom(t, Name(j), cfg.maxTrackedKeys);
  }

  lemma NamesExtend(j: nat)
    requires j >= 1
    ensures |Names(0, j)| == j && Names(0, j) + [Name(j)] == Names(0, j + 1) && Names(0, j)[1..] + [Name(j)] == Names(1, j + 1)
  {
    hide Name;
  }

  /** Then `j` other keys: the first is evicted when the capacity is reached. */
  lemma {:induction false} OtherKeys(cfg: Config, j: nat)
    requires cfg.limit >= 1 && cfg.windowMs >= 1 && cfg.maxTrackedKeys >= 1 && j <= cfg.maxTrackedKeys
    ensures |Crowd(cfg.limit, cfg.maxTrackedKeys)| == cfg.limit + cfg.maxTrackedKeys + 1
    ensures HoldsNames(StateAfter(cfg, Crowd(cfg.limit, cfg.maxTrackedKeys), cfg.limit + j),
                       if j < cfg.maxTrackedKeys then 0 else 1, j + 1)
  {
    hide Consume, Name, HoldsNames;
    var n := cfg.maxTrackedKeys;
    var calls := Crowd(cfg.limit, n);
    if j == 0 {
      FirstKey(cfg, n, cfg.limit);
      ZerosAreHeld(cfg.limit);
    } else {
      OtherKeys(cfg, j - 1);
      assert calls[cfg.limit + j - 1] == Plain.Call(Name(j), 0);
      NextKeyArrives(StateAfter(cfg, calls, cfg.limit + j - 1), j, cfg);
    }
  }

  lemma ZerosAreHeld(n: nat)
    requires n >= 1
    ensures HoldsNames(Tracked([Name(0)], map[Name(0) := Zeros(n)]), 0, 1)
  {
    hide Name;
    assert Names(0, 1) == [Name(0)];
  }

  /** A new key enters at the end, and when the limiter is full the oldest one leaves. */
  lemma MakesRoom(t: Tracked, key: string, max: nat)
    requires AllFresh(t) && (forall k :: k in t.order <==> k in t.hits) && key !in t.hits && max >= 1 && |t.order| <= max
    requires forall i, j | 0 <= i < j < |t.order| :: t.order[i] != t.order[j]
    ensures var after := Put(EvictOldestWhileFull(t, max), key, [] + [0]);
            && AllFresh(after) && (forall k :: k in after.order <==> k in after.hits)
            && after.order == (if |t.order| < max then t.order else t.order[1..]) + [key]
  {
    if |t.order| == max {
      assert t.order == [t.order[0]] + t.order[1..];
      assert t.order[0] !in t.order[1..];
      assert EvictOldestWhileFull(t, max) == Tracked(t.order[1..], t.hits - {t.order[0]});
    }
  }

  /** The last call finds its key forgotten and is let through. */
  lemma LastCall(cfg: Config)
    requires cfg.limit >= 1 && cfg.windowMs >= 1 && cfg.maxTrackedKeys >= 1
    ensures var calls := Crowd(cfg.limit, cfg.maxTrackedKeys); var last := cfg.limit + cfg.maxTrackedKeys;
            |calls| == last + 1 && Consume(StateAfter(cfg, calls, last), calls[last], cfg).1
  {
    hide Consume, Name, AllFresh;
    var n := cfg.maxTrackedKeys;
    var t := StateAfter(cfg, Crowd(cfg.limit, n), cfg.limit + n);
    OtherKeys(cfg, n);
    NameIn(1, n + 1, 0);
    TakesStamp(t, Name(0), cfg);
  }

  lemma {:induction false} FirstKeyCalls(limit: nat, n: nat, m: nat)
    requires limit <= m <= limit + n
    ensures |Crowd(limit, n)| == limit + n + 1
    ensures Plain.CallsFor(Crowd(limit, n)[..m], Name(0)) == Zeros(limit)
    decreases m
  {
    hide Name;
    var calls := Crowd(limit, n);
    if m == limit {
      assert calls[..m] == seq(limit, _ => Plain.Call(Name(0), 0));
      SameCalls(limit);
    } else {
      FirstKeyCalls(limit, n, m - 1);
      assert calls[..m][..m - 1] == calls[..m - 1] && calls[m - 1] == Plain.Call(Name(m - limit), 0);
      OtherName(m - limit);
    }
  }

  lemma OtherName(i: nat)
    requires i > 0
    ensures Name(i) != Name(0)
  {
    if Name(i) == Name(0) { DecimalInjective(i, 0); }
  }

  lemma {:induction false} SameCalls(limit: nat)
    ensures Plain.CallsFor(seq(limit, _ => Plain.Call(Name(0), 0)), Name(0)) == Zeros(limit)
  {
    hide Name;
    var calls := seq(limit, _ => Plain.Call(Name(0), 0));
    if limit > 0 {
      SameCalls(limit - 1);
      assert calls[..limit - 1] == seq(limit - 1, _ => Plain.Call(Name(0), 0));
      assert Zeros(limit - 1) + [0] == Zeros(limit);
    }
  }

  lemma {:induction false} ZerosAccepted(m: nat, limit: nat, window: int)
    requires window >= 1 && m <= limit
    ensures Accepted(Zeros(m), window, limit) == Zeros(m) && Recent(Zeros(m), 0, window) == Zeros(m)
  {
    FreshIsRecent(Zeros(m), window);
    if m > 0 {
      ZerosAccepted(m - 1, limit, window);
      assert Zeros(m)[..m - 1] == Zeros(m - 1) && Zeros(m - 1) + [0] == Zeros(m);
    }
  }

  lemma CrowdKeys(limit: nat, n: nat)
    requires limit >= 1
    ensures |KeysUsed(Crowd(limit, n))| == n + 1
  {
    hide Name;
    var calls := Crowd(limit, n);
    var names := Elements(Names(0, n + 1));
    forall k | k in names
      ensures k in KeysUsed(calls)
    {
      var i :| 0 <= i < n + 1 && Names(0, n + 1)[i] == k;
      if i == 0 { assert calls[0].key == k; } else { assert calls[limit + i - 1].key == k; }
    }
    forall k | k in KeysUsed(calls)
      ensures k in names
    {
      var i :| 0 <= i < |calls| && calls[i].key == k;
      NameIn(0, n + 1, if i < limit || i == limit + n then 0 else i - limit + 1);
    }
    assert KeysUsed(calls) == names;
    CountNames(n + 1);
  }

  /**
    Whatever the capacity, one key more than it is too many: calls of a single instant, `limit` of them for
    one key let through, then that key once more let through, which the plain limiter refuses.
  */
  lemma OneKeyTooMany(cfg: Config, plainStates: seq<Plain.Hits>, plainAnswers: seq<bool>)
    requires cfg.limit >= 1 && cfg.windowMs >= 1 && cfg.maxTrackedKeys >= 1
    requires Plain.Run(cfg.limit, cfg.windowMs, Crowd(cfg.limit, cfg.maxTrackedKeys), plainStates, plainAnswers)
    ensures var calls := Crowd(cfg.limit, cfg.maxTrackedKeys); var last := cfg.limit + cfg.maxTrackedKeys;
            var answers := Answers(cfg, calls);
            && Run(cfg, calls, States(cfg, calls), answers) && |KeysUsed(calls)| == cfg.maxTrackedKeys + 1
            && |calls| == last + 1 == |answers|
            && (forall i | 0 <= i < cfg.limit || i == last :: calls[i] == Plain.Call(Name(0), 0) && answers[i])
            && !plainAnswers[last]
  {
    hide Consume, Name, Plain.Consume, StateAfter, KeysUsed, Accepted, Recent;
    var n := cfg.maxTrackedKeys;
    var calls := Crowd(cfg.limit, n);
    assert Plain.ClockOk(calls);
    PlayIsRun(cfg, calls);
    LastCall(cfg);
    CrowdKeys(cfg.limit, n);
    forall i | 0 <= i < cfg.limit
      ensures Answers(cfg, calls)[i]
    {
      FirstKey(cfg, n, i + 1);
    }
    FirstKeyCalls(cfg.limit, n, cfg.limit + n);
    ZerosAccepted(cfg.limit, cfg.limit, cfg.windowMs);
    Plain.AnswersByTheRule(cfg.limit, cfg.windowMs, calls, plainStates, plainAnswers, cfg.limit + n);
  }
}
