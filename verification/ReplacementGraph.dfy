/**
  The replacement graph of the app library (packages/app-library/src/lifecycle.ts), checked when the
  registry is frozen, and the order in which it lists them.  Definitions are keyed by their id.
*/
module ReplacementGraph {
  import opened Common

  type Id = string

  datatype Status = Active | Legacy | Retired

  datatype Lifecycle = Lifecycle(status: Status, replacedBy: Option<Id>)

  datatype Definition = Definition(lifecycle: Option<Lifecycle>)

  type Graph = map<Id, Definition>

  datatype Error =
    | ReplacesItself(start: Id)
    | Cycle(start: Id, at: Id)
    | Missing(start: Id, target: Id)
    | InactiveTarget(start: Id, target: Id)

  function StatusOf(d: Definition): Status {
    if d.lifecycle.Some? then d.lifecycle.value.status else Active
  }

  /** An empty id counts as none. */
  function Next(g: Graph, id: Id): Option<Id>
    requires id in g
  {
    if g[id].lifecycle.Some? && g[id].lifecycle.value.replacedBy != Some("") then g[id].lifecycle.value.replacedBy else None
  }

  // ---------------------------------------------------------------- chains

  /** The `n`th definition along the replacements from `id`, if the chain gets that far. */
  function Hop(g: Graph, id: Id, n: nat): Option<Id> {
    if n == 0 then Some(id)
    else
      match Hop(g, id, n - 1)
      case None => None
      case Some(x) => if x in g then Next(g, x) else None
  }

  ghost predicate ReachesMissing(g: Graph, id: Id) {
    exists n :: Hop(g, id, n).Some? && Hop(g, id, n).value !in g
  }

  ghost predicate ReachesCycle(g: Graph, id: Id) {
    exists m, n :: m < n && Hop(g, id, m).Some? && Hop(g, id, m) == Hop(g, id, n)
  }

  ghost predicate GoodStart(g: Graph, id: Id)
    requires id in g
  {
    Next(g, id).Some? ==>
      && !ReachesMissing(g, id) && !ReachesCycle(g, id)
      && Next(g, id).value in g && StatusOf(g[Next(g, id).value]) == Active
  }

  lemma {:induction false} StaysOver(g: Graph, id: Id, m: nat, n: nat)
    requires m <= n && Hop(g, id, m).None?
    ensures Hop(g, id, n).None?
  {
    if m < n { StaysOver(g, id, m, n - 1); }
  }

  /** A chain that ended after distinct existing definitions has neither fault. */
  lemma EndedChain(g: Graph, id: Id, k: nat)
    requires Hop(g, id, k).None?
    requires forall j | 0 <= j < k :: Hop(g, id, j).Some? && Hop(g, id, j).value in g
    requires forall i, j | 0 <= i < j < k :: Hop(g, id, i) != Hop(g, id, j)
    ensures !ReachesMissing(g, id) && !ReachesCycle(g, id)
  {
    forall n: nat | n >= k
      ensures Hop(g, id, n).None?
    {
      StaysOver(g, id, k, n);
    }
    hide Hop;
  }

  // ---------------------------------------------------------------- the walk

  ghost predicate Visited(g: Graph, start: Id, k: nat, x: Id) {
    exists j :: 0 <= j < k && Hop(g, start, j) == Some(x)
  }

  /** The walk from one definition; it stops because every round sees a definition not seen before. */
  method CheckStart(g: Graph, start: Id) returns (r: Option<Error>)
    requires start in g
    ensures r.None? <==> GoodStart(g, start)
    ensures r.Some? ==> r.value.start == start
    ensures r.Some? && (r.value.Cycle? || r.value.ReplacesItself?) ==> ReachesCycle(g, start)
    ensures r.Some? && r.value.Missing? ==> ReachesMissing(g, start) && r.value.target !in g
    ensures r.Some? && r.value.InactiveTarget? ==>
              Next(g, start) == Some(r.value.target) && r.value.target in g && StatusOf(g[r.value.target]) != Active
  {
    var replacedBy := Next(g, start);
    if replacedBy.None? { return None; }
    assert Hop(g, start, 0) == Some(start) && Hop(g, start, 1) == replacedBy;
    if replacedBy.value == start { return Some(ReplacesItself(start)); }
    var seen := {start};
    var current := replacedBy;
    ghost var k := 1;
    assert Visited(g, start, 1, start);
    while current.Some?
      invariant k >= 1 && current == Hop(g, start, k) && (k == 1 ==> current == replacedBy)
      invariant seen <= g.Keys
      invariant forall j | 0 <= j < k :: Hop(g, start, j).Some? && Hop(g, start, j).value in g && Hop(g, start, j).value in seen
      invariant forall x | x in seen :: Visited(g, start, k, x)
      invariant forall i, j | 0 <= i < j < k :: Hop(g, start, i) != Hop(g, start, j)
      invariant k > 1 ==> replacedBy.value in g
      decreases g.Keys - seen
    {
      if current.value in seen {
        assert Visited(g, start, k, current.value);
        return Some(Cycle(start, current.value));
      }
      if current.value !in g { return Some(Missing(start, current.value)); }
      assert Hop(g, start, k) == current;
      seen := seen + {current.value};
      assert Visited(g, start, k + 1, current.value);
      assert forall x | Visited(g, start, k, x) :: Visited(g, start, k + 1, x);
      current := Next(g, current.value);
      k := k + 1;
    }
    EndedChain(g, start, k);
    if StatusOf(g[replacedBy.value]) != Active { return Some(InactiveTarget(start, replacedBy.value)); }
    return None;
  }

  /** Definitions are checked in registration order; the first fault is thrown. */
  method ValidateReplacementGraph(g: Graph, order: seq<Id>) returns (r: Option<Error>)
    requires forall id :: id in order <==> id in g
    ensures r.None? <==> forall id | id in g :: GoodStart(g, id)
    ensures r.Some? ==> r.value.start in g && !GoodStart(g, r.value.start)
  {
    hide GoodStart;
    var i := 0;
    while i < |order|
      invariant 0 <= i <= |order|
      invariant forall j | 0 <= j < i :: GoodStart(g, order[j])
    {
      assert order[i] in order;
      var fault := CheckStart(g, order[i]);
      if fault.Some? { return fault; }
      i := i + 1;
    }
    return None;
  }

  // ---------------------------------------------------------------- what freezing guarantees

  /** The schema's rule: an active definition names no replacement. */
  predicate ActiveIsFinal(g: Graph) {
    forall id | id in g && StatusOf(g[id]) == Active :: Next(g, id).None?
  }

  /** Every replacement is another, existing, active definition. */
  predicate ReplacedByActive(g: Graph) {
    forall id | id in g && Next(g, id).Some? ::
      var target := Next(g, id).value;
      target != id && target in g && StatusOf(g[target]) == Active
  }

  lemma OneHop(g: Graph, id: Id)
    requires ActiveIsFinal(g) && id in g && Next(g, id).Some?
    requires Next(g, id).value in g && StatusOf(g[Next(g, id).value]) == Active
    ensures Next(g, id).value != id ==> !ReachesMissing(g, id) && !ReachesCycle(g, id)
  {
    var target := Next(g, id).value;
    assert Hop(g, id, 0) == Some(id) && Hop(g, id, 1) == Some(target) && Hop(g, id, 2).None?;
    if target != id {
      assert forall j | 0 <= j < 2 :: Hop(g, id, j).Some? && Hop(g, id, j).value in g;
      EndedChain(g, id, 2);
    }
  }

  /** Among schema-valid definitions, the walk accepts exactly the graphs that are one hop deep. */
  lemma AcceptedExactly(g: Graph)
    requires ActiveIsFinal(g)
    ensures (forall id | id in g :: GoodStart(g, id)) <==> ReplacedByActive(g)
  {
    hide Hop;
    forall id | id in g && Next(g, id).Some?
      ensures GoodStart(g, id) <==> (Next(g, id).value != id && Next(g, id).value in g && StatusOf(g[Next(g, id).value]) == Active)
    {
      var target := Next(g, id).value;
      if target in g && StatusOf(g[target]) == Active {
        OneHop(g, id);
        if target == id { SelfIsCycle(g, id); }
      }
    }
    hide ReachesMissing, ReachesCycle;
  }

  lemma SelfIsCycle(g: Graph, id: Id)
    requires id in g && Next(g, id) == Some(id)
    ensures ReachesCycle(g, id)
  {
    assert Hop(g, id, 0) == Hop(g, id, 1);
  }

  // ---------------------------------------------------------------- the order of the library

  /** What the comparator reads of a definition. */
  datatype Entry = Entry(status: Status, category: string, name: string, id: Id)

  /** `localeCompare` of some locale: a sign for every two texts. */
  type Collation = (string, string) -> int

  function Rank(s: Status): int {
    match s
    case Active => 0
    case Legacy => 1
    case Retired => 2
  }

  function CompareAppDefinitions(collate: Collation, a: Entry, b: Entry): int {
    if Rank(a.status) != Rank(b.status) then Rank(a.status) - Rank(b.status)
    else if collate(a.category, b.category) != 0 then collate(a.category, b.category)
    else if collate(a.name, b.name) != 0 then collate(a.name, b.name)
    else collate(a.id, b.id)
  }

  /** A collation orders texts, some of which it may hold equal. */
  ghost predicate Orders(collate: Collation) {
    && (forall s, t :: collate(s, t) < 0 <==> collate(t, s) > 0)
    && (forall s, t, u :: collate(s, t) <= 0 && collate(t, u) <= 0 ==> collate(s, u) <= 0)
  }

  lemma OrdersStrictly(collate: Collation, s: string, t: string, u: string)
    requires Orders(collate)
    ensures collate(s, t) == 0 <==> collate(t, s) == 0
    ensures collate(s, t) == 0 && collate(t, u) == 0 ==> collate(s, u) == 0
    ensures collate(s, t) <= 0 && collate(t, u) <= 0 && (collate(s, t) < 0 || collate(t, u) < 0) ==> collate(s, u) < 0
  {
    assert collate(s, t) < 0 <==> collate(t, s) > 0;
    assert collate(t, s) < 0 <==> collate(s, t) > 0;
    assert collate(t, u) < 0 <==> collate(u, t) > 0;
    assert collate(u, t) < 0 <==> collate(t, u) > 0;
    assert collate(s, u) < 0 <==> collate(u, s) > 0;
    assert collate(u, s) < 0 <==> collate(s, u) > 0;
  }

  /** Sorting by the comparator is well defined: it orders definitions, with active ones before all others. */
  lemma ComparatorOrders(collate: Collation, a: Entry, b: Entry, c: Entry)
    requires Orders(collate)
    ensures CompareAppDefinitions(collate, a, b) < 0 <==> CompareAppDefinitions(collate, b, a) > 0
    ensures CompareAppDefinitions(collate, a, b) <= 0 && CompareAppDefinitions(collate, b, c) <= 0
            ==> CompareAppDefinitions(collate, a, c) <= 0
    ensures a.status == Active && b.status != Active ==> CompareAppDefinitions(collate, a, b) < 0
    ensures CompareAppDefinitions(collate, a, b) == 0 ==> a.status == b.status && collate(a.id, b.id) == 0
  {
    OrdersStrictly(collate, a.category, b.category, c.category);
    OrdersStrictly(collate, a.name, b.name, c.name);
    OrdersStrictly(collate, a.id, b.id, c.id);
    OrdersStrictly(collate, b.category, a.category, c.category);
    OrdersStrictly(collate, b.name, a.name, c.name);
    OrdersStrictly(collate, b.id, a.id, c.id);
  }
}
