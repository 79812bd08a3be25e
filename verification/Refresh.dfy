/**
  The generation counter of each integration (packages/custom-api/src/refresh-fence.ts; the one of
  packages/beszel is the same).  A JavaScript Map keeps insertion order, so the object holds the keys
  in that order beside the values.
*/
module RefreshFence {
  import opened Common

  type Id = string

  const MAX_SAFE_INTEGER := 9_007_199_254_740_991

  datatype Fence = Fence(keys: seq<Id>, generations: map<Id, nat>)

  const EMPTY := Fence([], map[])

  predicate ValidFence(f: Fence) {
    Distinct(f.keys) && f.generations.Keys == Elements(f.keys)
  }

  function Current(f: Fence, id: Id): nat {
    if id in f.generations then f.generations[id] else 0
  }

  /** A counter that leaves the safe integers starts over at one. */
  function NextGeneration(f: Fence, id: Id): nat {
    var next := Current(f, id) + 1;
    if next <= MAX_SAFE_INTEGER then next else 1
  }

  function Without(keys: seq<Id>, id: Id): seq<Id> {
    if keys == [] then []
    else
      var init, last := keys[..|keys| - 1], keys[|keys| - 1];
      if last == id then Without(init, id) else Without(init, id) + [last]
  }

  /** How many of the oldest entries make room for a new one. */
  function Excess(f: Fence, max: nat): (n: nat)
    requires max >= 1
    ensures n <= |f.keys|
  {
    if |f.keys| < max then 0 else |f.keys| - max + 1
  }

  function DropOldest(f: Fence, n: nat): Fence
    requires n <= |f.keys|
  {
    Fence(f.keys[n..], f.generations - Elements(f.keys[..n]))
  }

  function Remove(f: Fence, id: Id): Fence {
    Fence(Without(f.keys, id), f.generations - {id})
  }

  function Put(f: Fence, id: Id, generation: nat): Fence {
    Fence(f.keys + [id], f.generations[id := generation])
  }

  function Evicted(f: Fence, id: Id, max: nat): set<Id>
    requires max >= 1
  {
    if id in f.generations then {} else Elements(f.keys[..Excess(f, max)])
  }

  function AfterAdvance(f: Fence, id: Id, max: nat): Fence
    requires max >= 1
  {
    var room := if id in f.generations then Remove(f, id) else DropOldest(f, Excess(f, max));
    Put(room, id, NextGeneration(f, id))
  }

  // ---------------------------------------------------------------- what advancing does

  lemma {:induction false} WithoutElements(keys: seq<Id>, id: Id)
    ensures forall k :: k in Without(keys, id) <==> k in keys && k != id
  {
    if keys != [] {
      var init, last := keys[..|keys| - 1], keys[|keys| - 1];
      WithoutElements(init, id);
      assert keys == init + [last];
      assert forall k :: k in keys <==> k in init || k == last;
    }
  }

  lemma {:induction false} WithoutMeaning(keys: seq<Id>, id: Id)
    requires Distinct(keys)
    ensures Distinct(Without(keys, id))
    ensures forall k :: k in Without(keys, id) <==> k in keys && k != id
    ensures |Without(keys, id)| == if id in keys then |keys| - 1 else |keys|
    ensures id !in keys ==> Without(keys, id) == keys
  {
    WithoutElements(keys, id);
    if keys != [] {
      var init, last := keys[..|keys| - 1], keys[|keys| - 1];
      WithoutMeaning(init, id);
      assert keys == init + [last];
      assert last !in init;
      assert id in keys <==> id in init || last == id;
      hide Without;
      assert Without(keys, id) == Without(init, id) + if last == id then [] else [last];
    }
  }

  lemma DropOldestMeaning(f: Fence, n: nat)
    requires ValidFence(f) && n <= |f.keys|
    ensures ValidFence(DropOldest(f, n))
    ensures forall k :: k in f.keys <==> k in f.keys[..n] || k in f.keys[n..]
    ensures forall k :: !(k in f.keys[..n] && k in f.keys[n..])
  {
    assert f.keys == f.keys[..n] + f.keys[n..];
    forall k
      ensures !(k in f.keys[..n] && k in f.keys[n..])
    {
      if k in f.keys[..n] {
        var i :| 0 <= i < n && f.keys[i] == k;
      }
    }
  }

  lemma PutMeaning(f: Fence, id: Id, generation: nat)
    requires ValidFence(f) && id !in f.keys
    ensures ValidFence(Put(f, id, generation))
  {
    assert Elements(f.keys + [id]) == Elements(f.keys) + {id};
  }

  lemma RemoveMeaning(f: Fence, id: Id)
    requires ValidFence(f)
    ensures ValidFence(Remove(f, id)) && id !in Remove(f, id).keys
  {
    WithoutMeaning(f.keys, id);
    assert Elements(Without(f.keys, id)) == Elements(f.keys) - {id};
  }

  /** Advancing touches one generation; every other stays or, when evicted, is forgotten. */
  lemma AdvanceMeaning(f: Fence, id: Id, max: nat)
    requires ValidFence(f) && max >= 1
    ensures var g := AfterAdvance(f, id, max);
            && ValidFence(g)
            && (|f.keys| <= max ==> |g.keys| <= max)
            && Current(g, id) == NextGeneration(f, id)
            && (forall other | other != id ::
                  Current(g, other) == if other in Evicted(f, id, max) then 0 else Current(f, other))
  {
    hide Without, Distinct;
    var next := NextGeneration(f, id);
    if id in f.generations {
      RemoveMeaning(f, id);
      WithoutMeaning(f.keys, id);
      PutMeaning(Remove(f, id), id, next);
    } else {
      DropOldestMeaning(f, Excess(f, max));
      PutMeaning(DropOldest(f, Excess(f, max)), id, next);
    }
  }

  // ---------------------------------------------------------------- who is forgotten

  /** The integrations of a history of advances, each once, ordered by its last advance. */
  function Recent(history: seq<Id>): seq<Id> {
    if history == [] then []
    else
      var last := history[|history| - 1];
      Without(Recent(history[..|history| - 1]), last) + [last]
  }

  function FenceAfter(history: seq<Id>, max: nat): Fence
    requires max >= 1
  {
    if history == [] then EMPTY
    else AfterAdvance(FenceAfter(history[..|history| - 1], max), history[|history| - 1], max)
  }

  function Last(keys: seq<Id>, n: nat): seq<Id> {
    if |keys| <= n then keys else keys[|keys| - n..]
  }

  lemma {:induction false} WithoutConcat(a: seq<Id>, b: seq<Id>, id: Id)
    ensures Without(a + b, id) == Without(a, id) + Without(b, id)
  {
    if b == [] {
      assert a + b == a;
    } else {
      var init, last := b[..|b| - 1], b[|b| - 1];
      assert (a + b)[..|a + b| - 1] == a + init;
      WithoutConcat(a, init, id);
    }
  }

  lemma {:induction false} RecentMeaning(history: seq<Id>)
    ensures Distinct(Recent(history))
    ensures forall id :: id in Recent(history) <==> id in history
  {
    if history != [] {
      var init, last := history[..|history| - 1], history[|history| - 1];
      RecentMeaning(init);
      WithoutMeaning(Recent(init), last);
      assert history == init + [last];
    }
  }

  lemma LastOfConcat(a: seq<Id>, b: seq<Id>, n: nat)
    requires |b| <= n && (|b| == n || a == [])
    ensures Last(a + b, n) == b
  {
  }

  lemma DistinctConcat(a: seq<Id>, b: seq<Id>)
    requires Distinct(a + b)
    ensures Distinct(b) && forall i, j | 0 <= i < |a| && 0 <= j < |b| :: a[i] != b[j]
  {
    var both := a + b;
    forall i, j | 0 <= i < |a| && 0 <= j < |b|
      ensures a[i] != b[j]
    {
      assert both[i] == a[i] && both[|a| + j] == b[j];
    }
    forall i, j | 0 <= i < j < |b|
      ensures b[i] != b[j]
    {
      assert both[|a| + i] == b[i] && both[|a| + j] == b[j];
    }
  }

  lemma StillRecent(dropped: seq<Id>, keys: seq<Id>, id: Id, max: nat)
    requires max >= 1 && Distinct(dropped + keys) && id in keys
    requires |keys| <= max && (|keys| == max || dropped == [])
    ensures Without(keys, id) + [id] == Last(Without(dropped + keys, id) + [id], max)
  {
    DistinctConcat(dropped, keys);
    WithoutMeaning(keys, id);
    WithoutConcat(dropped, keys, id);
    WithoutAbsent(dropped, id);
    hide Without, Distinct, Last;
    assert dropped + Without(keys, id) + [id] == dropped + (Without(keys, id) + [id]);
    LastOfConcat(dropped, Without(keys, id) + [id], max);
  }

  lemma NewlyRecent(dropped: seq<Id>, keys: seq<Id>, id: Id, max: nat)
    requires max >= 1 && id !in keys
    requires |keys| <= max && (|keys| == max || dropped == [])
    ensures keys[if |keys| < max then 0 else 1..] + [id] == Last(Without(dropped + keys, id) + [id], max)
  {
    WithoutConcat(dropped, keys, id);
    WithoutAbsent(keys, id);
    var others := Without(dropped, id);
    assert dropped == [] ==> others == [];
    hide Without, Last;
    if |keys| < max {
      assert others + keys + [id] == [] + (keys + [id]);
      LastOfConcat([], keys + [id], max);
    } else {
      assert others + keys + [id] == (others + keys[..1]) + (keys[1..] + [id]);
      LastOfConcat(others + keys[..1], keys[1..] + [id], max);
    }
  }

  lemma {:induction false} WithoutAbsent(keys: seq<Id>, id: Id)
    requires id !in keys
    ensures Without(keys, id) == keys
  {
    if keys != [] {
      WithoutAbsent(keys[..|keys| - 1], id);
    }
  }

  lemma AdvanceIsRecent(f: Fence, recent: seq<Id>, id: Id, max: nat)
    requires max >= 1 && ValidFence(f) && Distinct(recent) && f.keys == Last(recent, max)
    ensures AfterAdvance(f, id, max).keys == Last(Without(recent, id) + [id], max)
  {
    var dropped := recent[..|recent| - |f.keys|];
    assert recent == dropped + f.keys;
    assert id in f.generations <==> id in f.keys;
    hide Without, Distinct, Last, ValidFence;
    if id in f.keys {
      StillRecent(dropped, f.keys, id, max);
    } else {
      NewlyRecent(dropped, f.keys, id, max);
    }
  }

  /** The fence always remembers exactly the most recently refreshed integrations. */
  lemma {:induction false} KeepsTheMostRecent(history: seq<Id>, max: nat)
    requires max >= 1
    ensures ValidFence(FenceAfter(history, max))
    ensures FenceAfter(history, max).keys == Last(Recent(history), max)
  {
    if history != [] {
      var init, id := history[..|history| - 1], history[|history| - 1];
      KeepsTheMostRecent(init, max);
      RecentMeaning(init);
      hide Without, Distinct, Last, ValidFence, AfterAdvance;
      AdvanceMeaning(FenceAfter(init, max), id, max);
      AdvanceIsRecent(FenceAfter(init, max), Recent(init), id, max);
    }
  }

  // ---------------------------------------------------------------- the object

  class MemoryRefreshFence {
    var keys: seq<Id>
    var generations: map<Id, nat>
    const maxEntries: nat

    ghost predicate Valid()
      reads this
    {
      maxEntries >= 1 && |keys| <= maxEntries && ValidFence(State())
    }

    ghost function State(): Fence
      reads this
    {
      Fence(keys, generations)
    }

    constructor (max: int)
      ensures Valid() && State() == EMPTY && maxEntries == if max < 1 then 1 else max
    {
      keys, generations := [], map[];
      maxEntries := if max < 1 then 1 else max;
    }

    method CurrentGeneration(id: Id) returns (generation: nat)
      ensures generation == Current(State(), id)
    {
      return if id in generations then generations[id] else 0;
    }

    method Advance(id: Id) returns (generation: nat)
      requires Valid()
      modifies this
      ensures Valid() && State() == AfterAdvance(old(State()), id, maxEntries)
      ensures generation == NextGeneration(old(State()), id) == Current(State(), id)
    {
      AdvanceMeaning(State(), id, maxEntries);
      hide ValidFence, Without;
      var current := CurrentGeneration(id);
      generation := if current + 1 <= MAX_SAFE_INTEGER then current + 1 else 1;
      if id in generations {
        keys, generations := Without(keys, id), generations - {id};
      } else {
        EvictOldestWhileFull();
      }
      keys, generations := keys + [id], generations[id := generation];
    }

    method EvictOldestWhileFull()
      requires Valid()
      modifies this
      ensures State() == DropOldest(old(State()), Excess(old(State()), maxEntries))
    {
      hide ValidFence;
      ghost var before, n := State(), 0;
      assert State() == DropOldest(before, 0);
      while |keys| >= maxEntries
        invariant 0 <= n <= Excess(before, maxEntries)
        invariant State() == DropOldest(before, n)
        decreases |keys|
      {
        var oldest := keys[0];
        assert before.keys[..n + 1] == before.keys[..n] + [oldest];
        assert Elements(before.keys[..n + 1]) == Elements(before.keys[..n]) + {oldest};
        keys, generations := keys[1..], generations - {oldest};
        n := n + 1;
      }
    }
  }
}

/** Single flight per key, up to a bound (packages/custom-api/src/overview-coalescer.ts). */
module OverviewCoalescer {
  import opened Common

  type Flights<K, F> = map<K, F>

  /** The flight a caller waits on: the running one, or `created`, tracked only while there is room. */
  function FlightFor<K, F>(flights: Flights<K, F>, key: K, created: F): F {
    if key in flights then flights[key] else created
  }

  function AfterRun<K, F>(flights: Flights<K, F>, key: K, created: F, max: nat): Flights<K, F> {
    if key in flights || |flights| >= max then flights else flights[key := created]
  }

  function AfterFinally<K, F(==)>(flights: Flights<K, F>, key: K, flight: F): Flights<K, F> {
    if key in flights && flights[key] == flight then flights - {key} else flights
  }

  /** The bound is never exceeded, whoever runs and settles. */
  lemma StaysBounded<K, F>(flights: Flights<K, F>, key: K, flight: F, max: nat)
    requires |flights| <= max
    ensures |AfterRun(flights, key, flight, max)| <= max && |AfterFinally(flights, key, flight)| <= max
  {
    assert (flights - {key}).Keys == flights.Keys - {key};
    assert |flights.Keys - {key}| <= |flights.Keys|;
  }

  /** A promise is identified by the number of the factory call that made it. */
  class MemoryOverviewCoalescer {
    var inFlight: map<string, nat>
    const maxInFlight: nat

    ghost predicate Valid()
      reads this
    {
      |inFlight| <= maxInFlight
    }

    constructor (max: int)
      ensures Valid() && inFlight == map[] && maxInFlight == if max < 1 then 1 else max
    {
      inFlight := map[];
      maxInFlight := if max < 1 then 1 else max;
    }

    /** `created` is the promise the factory returns, called only when no flight is running. */
    method Run(key: string, created: nat) returns (flight: nat, called: bool)
      requires Valid()
      modifies this
      ensures Valid() && called == (key !in old(inFlight))
      ensures flight == FlightFor(old(inFlight), key, created)
      ensures inFlight == AfterRun(old(inFlight), key, created, maxInFlight)
    {
      StaysBounded(inFlight, key, created, maxInFlight);
      if key in inFlight { return inFlight[key], false; }
      if |inFlight| >= maxInFlight { return created, true; }
      inFlight := inFlight[key := created];
      return created, true;
    }

    method Finally(key: string, flight: nat)
      requires Valid()
      modifies this
      ensures Valid() && inFlight == AfterFinally(old(inFlight), key, flight)
    {
      StaysBounded(inFlight, key, flight, maxInFlight);
      if key in inFlight && inFlight[key] == flight {
        inFlight := inFlight - {key};
      }
    }
  }
}
