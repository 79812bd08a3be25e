/**
  `runLimited` (packages/automations/src/scheduler.ts): some workers share one queue, and each takes
  items from its front until it finds none or its handler throws.  A step is what runs between two
  awaits, so the steps of the workers interleave in any order.  Items are named by their position in
  the list, and `throws` says of each whether its handler throws.
*/
module RunLimited {
  import opened Common

  datatype Phase = Idle | Busy(at: nat) | Ended | Thrown

  /** `handled` and `lost` are histories, of handlers that returned and that threw; the code keeps neither. */
  datatype State = State(taken: nat, workers: seq<Phase>, handled: set<nat>, lost: set<nat>)

  datatype Step = Take(w: nat) | Settle(w: nat)

  function WorkerCount(items: nat, limit: int): nat { if items == 0 then 0 else Max(0, Min(limit, items)) }

  function Init(throws: seq<bool>, limit: int): State {
    State(0, seq(WorkerCount(|throws|, limit), _ => Idle), {}, {})
  }

  ghost predicate Next(throws: seq<bool>, s: State, step: Step, s': State) {
    && step.w < |s.workers|
    && var w, phase := step.w, s.workers[step.w];
       match step
       case Take(_) =>
         && phase.Idle?
         && s' == (if s.taken >= |throws| then s.(workers := s.workers[w := Ended])
                   else s.(taken := s.taken + 1, workers := s.workers[w := Busy(s.taken)]))
       case Settle(_) =>
         && phase.Busy? && phase.at < |throws|
         && s' == (if throws[phase.at] then s.(workers := s.workers[w := Thrown], lost := s.lost + {phase.at})
                   else s.(workers := s.workers[w := Idle], handled := s.handled + {phase.at}))
  }

  ghost predicate Execution(throws: seq<bool>, limit: int, states: seq<State>, steps: seq<Step>) {
    && |states| == |steps| + 1 && states[0] == Init(throws, limit)
    && forall i | 0 <= i < |steps| :: Next(throws, states[i], steps[i], states[i + 1])
  }

  // ---------------------------------------------------------------- sums over workers

  function Sum(f: Phase -> nat, workers: seq<Phase>): nat {
    if workers == [] then 0 else Sum(f, workers[..|workers| - 1]) + f(workers[|workers| - 1])
  }

  lemma {:induction false} SumAfter(f: Phase -> nat, workers: seq<Phase>, w: nat, p: Phase)
    requires w < |workers|
    ensures Sum(f, workers[w := p]) + f(workers[w]) == Sum(f, workers) + f(p)
  {
    var n := |workers| - 1;
    if w < n {
      SumAfter(f, workers[..n], w, p);
      assert workers[w := p][..n] == workers[..n][w := p];
    } else {
      assert workers[w := p][..n] == workers[..n];
    }
  }

  lemma {:induction false} SumConstant(f: Phase -> nat, workers: seq<Phase>, k: nat)
    requires forall w | 0 <= w < |workers| :: f(workers[w]) == k
    ensures Sum(f, workers) == k * |workers|
  {
    if workers != [] { SumConstant(f, workers[..|workers| - 1], k); }
  }

  /** A sum of zeros and ones stays below the number of workers when one worker adds nothing. */
  lemma {:induction false} SumBelow(f: Phase -> nat, workers: seq<Phase>, w: nat)
    requires w < |workers| && f(workers[w]) == 0 && forall v | 0 <= v < |workers| :: f(workers[v]) <= 1
    ensures Sum(f, workers) < |workers|
  {
    var n := |workers| - 1;
    if w < n { SumBelow(f, workers[..n], w); } else { SumAtMost(f, workers[..n]); }
  }

  lemma {:induction false} SumAtMost(f: Phase -> nat, workers: seq<Phase>)
    requires forall v | 0 <= v < |workers| :: f(workers[v]) <= 1
    ensures Sum(f, workers) <= |workers|
  {
    if workers != [] { SumAtMost(f, workers[..|workers| - 1]); }
  }

  // ---------------------------------------------------------------- what every state keeps

  /** How many of the first `n` handlers throw. */
  function Throwers(throws: seq<bool>, n: nat): nat
    requires n <= |throws|
  {
    if n == 0 then 0 else Throwers(throws, n - 1) + (if throws[n - 1] then 1 else 0)
  }

  /** A worker that has stopped for a thrower, or is about to. */
  function Doomed(throws: seq<bool>): Phase -> nat {
    (p: Phase) => match p
                  case Thrown => 1
                  case Busy(i) => if i < |throws| && throws[i] then 1 else 0
                  case _ => 0
  }

  predicate IsBusyWith(p: Phase, i: nat) { p.Busy? && p.at == i }

  ghost predicate InHand(workers: seq<Phase>, i: nat) { exists w :: 0 <= w < |workers| && IsBusyWith(workers[w], i) }

  /** Every position taken is in one worker's hands, handled or lost, and in no two of these. */
  ghost predicate Accounted(throws: seq<bool>, s: State)
    requires s.taken <= |throws|
  {
    && (forall i | i in s.handled :: i < s.taken && !throws[i])
    && (forall i | i in s.lost :: i < s.taken && throws[i])
    && (forall i | 0 <= i < s.taken :: i in s.handled || i in s.lost || InHand(s.workers, i))
    && (forall w | 0 <= w < |s.workers| && s.workers[w].Busy? ::
          s.workers[w].at < s.taken && s.workers[w].at !in s.handled && s.workers[w].at !in s.lost)
    && (forall v, w | 0 <= v < w < |s.workers| && s.workers[v].Busy? && s.workers[w].Busy? ::
          s.workers[v].at != s.workers[w].at)
  }

  /** A position is taken only while the throwers before it leave a worker over. */
  ghost predicate Counted(throws: seq<bool>, s: State)
    requires s.taken <= |throws|
  {
    && Sum(Doomed(throws), s.workers) == Throwers(throws, s.taken)
    && (s.taken > 0 ==> Throwers(throws, s.taken - 1) < |s.workers|)
  }

  ghost predicate Inv(throws: seq<bool>, limit: int, s: State) {
    && s.taken <= |throws| && |s.workers| == WorkerCount(|throws|, limit)
    && (forall w | 0 <= w < |s.workers| && s.workers[w].Ended? :: s.taken == |throws|)
    && Accounted(throws, s) && Counted(throws, s)
  }

  lemma InvAtFirst(throws: seq<bool>, limit: int)
    ensures Inv(throws, limit, Init(throws, limit))
  {
    var s := Init(throws, limit);
    SumConstant(Doomed(throws), s.workers, 0);
  }

  lemma StepKeepsAccount(throws: seq<bool>, s: State, step: Step, s': State)
    requires s.taken <= |throws| && Accounted(throws, s) && Next(throws, s, step, s')
    ensures s'.taken <= |throws| && Accounted(throws, s')
  {
    forall i | 0 <= i < s'.taken
      ensures i in s'.handled || i in s'.lost || InHand(s'.workers, i)
    {
      if i == s.taken {
        assert IsBusyWith(s'.workers[step.w], i);
      } else if InHand(s.workers, i) {
        var v :| 0 <= v < |s.workers| && IsBusyWith(s.workers[v], i);
        if v != step.w { assert IsBusyWith(s'.workers[v], i); }
      }
    }
  }

  lemma StepKeepsCount(throws: seq<bool>, s: State, step: Step, s': State)
    requires s.taken <= |throws| && Counted(throws, s) && Next(throws, s, step, s')
    ensures s'.taken <= |throws| && Counted(throws, s')
  {
    var f, w := Doomed(throws), step.w;
    SumAfter(f, s.workers, w, s'.workers[w]);
    if s'.taken > s.taken { SumBelow(f, s.workers, w); }
  }

  lemma {:induction false} InvHolds(throws: seq<bool>, limit: int, states: seq<State>, steps: seq<Step>, i: nat)
    requires Execution(throws, limit, states, steps) && i < |states|
    ensures Inv(throws, limit, states[i])
  {
    if i == 0 {
      InvAtFirst(throws, limit);
    } else {
      InvHolds(throws, limit, states, steps, i - 1);
      assert Next(throws, states[i - 1], steps[i - 1], states[i]);
      StepKeepsAccount(throws, states[i - 1], steps[i - 1], states[i]);
      StepKeepsCount(throws, states[i - 1], steps[i - 1], states[i]);
      hide Accounted, Counted;
    }
  }

  // ---------------------------------------------------------------- what is served

  function BusyCount(): Phase -> nat { (p: Phase) => if p.Busy? then 1 else 0 }

  /** At every moment no more handlers run than the limit allows, each on a position of its own below `taken`. */
  lemma WithinLimit(throws: seq<bool>, limit: int, states: seq<State>, steps: seq<Step>, i: nat)
    requires Execution(throws, limit, states, steps) && i < |states|
    ensures Sum(BusyCount(), states[i].workers) <= Max(0, limit)
    ensures forall v, w | 0 <= v < w < |states[i].workers| && states[i].workers[v].Busy? && states[i].workers[w].Busy? ::
              states[i].workers[v].at != states[i].workers[w].at
  {
    InvHolds(throws, limit, states, steps, i);
    SumAtMost(BusyCount(), states[i].workers);
  }

  ghost predicate Settled(s: State) { forall w | 0 <= w < |s.workers| :: s.workers[w].Ended? || s.workers[w].Thrown? }

  /** Until every worker has stopped, each that has not can take its next step. */
  lemma UnsettledGoesOn(throws: seq<bool>, limit: int, states: seq<State>, steps: seq<Step>, i: nat)
    requires Execution(throws, limit, states, steps) && i < |states| && !Settled(states[i])
    ensures exists step, s' :: Next(throws, states[i], step, s')
  {
    var s := states[i];
    InvHolds(throws, limit, states, steps, i);
    var w :| 0 <= w < |s.workers| && !s.workers[w].Ended? && !s.workers[w].Thrown?;
    if s.workers[w].Idle? {
      var s' := if s.taken >= |throws| then s.(workers := s.workers[w := Ended])
                else s.(taken := s.taken + 1, workers := s.workers[w := Busy(s.taken)]);
      assert Next(throws, s, Take(w), s');
    } else {
      var at := s.workers[w].at;
      var s' := if throws[at] then s.(workers := s.workers[w := Thrown], lost := s.lost + {at})
                else s.(workers := s.workers[w := Idle], handled := s.handled + {at});
      assert Next(throws, s, Settle(w), s');
    }
  }

  /** The length of the list up to and with the `m`-th thrower, or the whole list when there are fewer. */
  function Begun(throws: seq<bool>, m: nat): (n: nat)
    ensures n <= |throws|
  {
    if m == 0 then 0 else BegunWithin(throws, m, |throws|)
  }

  function BegunWithin(throws: seq<bool>, m: nat, n: nat): (k: nat)
    requires n <= |throws| && m > 0
    ensures k <= n
    ensures Throwers(throws, k) <= m && (k > 0 ==> Throwers(throws, k - 1) < m) && (k < n ==> Throwers(throws, k) == m)
  {
    if n == 0 || Throwers(throws, n - 1) < m then n else BegunWithin(throws, m, n - 1)
  }

  lemma {:induction false} ThrowersGrow(throws: seq<bool>, a: nat, b: nat)
    requires a <= b <= |throws|
    ensures Throwers(throws, a) <= Throwers(throws, b)
  {
    if a < b { ThrowersGrow(throws, a, b - 1); }
  }

  /**
    Whatever the interleaving, a run that has settled began exactly the positions up to the thrower
    that stopped the last worker, and all of them when there are fewer throwers than workers; of those
    it began, the ones that throw are lost and all others handled.
  */
  lemma SettledExactly(throws: seq<bool>, limit: int, states: seq<State>, steps: seq<Step>, i: nat)
    requires Execution(throws, limit, states, steps) && i < |states| && Settled(states[i])
    ensures var s := states[i];
            && s.taken == Begun(throws, WorkerCount(|throws|, limit))
            && (forall k: nat :: k in s.handled <==> k < s.taken && !throws[k])
            && (forall k: nat :: k in s.lost <==> k < s.taken && throws[k])
  {
    var s, m := states[i], WorkerCount(|throws|, limit);
    InvHolds(throws, limit, states, steps, i);
    assert forall k: nat :: !InHand(s.workers, k);
    if w :| 0 <= w < m && s.workers[w].Ended? {
      SumBelow(Doomed(throws), s.workers, w);
      assert Throwers(throws, |throws|) < m;
      AllBegun(throws, m);
    } else {
      SumConstant(Doomed(throws), s.workers, 1);
      assert Throwers(throws, s.taken) == m;
      if m > 0 { PrefixBegun(throws, m, s.taken); } else { assert s.workers == []; NoneBegun(throws, limit, states, steps, i); }
    }
  }

  lemma AllBegun(throws: seq<bool>, m: nat)
    requires Throwers(throws, |throws|) < m
    ensures Begun(throws, m) == |throws|
  {
    if |throws| > 0 { ThrowersGrow(throws, |throws| - 1, |throws|); }
  }

  lemma PrefixBegun(throws: seq<bool>, m: nat, k: nat)
    requires k <= |throws| && m > 0 && Throwers(throws, k) == m && (k > 0 ==> Throwers(throws, k - 1) < m)
    ensures Begun(throws, m) == k
  {
    var b := Begun(throws, m);
    if b < k { ThrowersGrow(throws, b, k - 1); }
    if k < b { ThrowersGrow(throws, k, b - 1); }
  }

  lemma NoneBegun(throws: seq<bool>, limit: int, states: seq<State>, steps: seq<Step>, i: nat)
    requires Execution(throws, limit, states, steps) && i < |states| && WorkerCount(|throws|, limit) == 0
    ensures states[i].taken == 0
  {
    InvHolds(throws, limit, states, steps, i);
  }

  /** All items of a nonempty list are begun if and only if fewer of those before the last throw than there are workers. */
  lemma AllBegunExactly(throws: seq<bool>, limit: int, states: seq<State>, steps: seq<Step>, i: nat)
    requires Execution(throws, limit, states, steps) && i < |states| && Settled(states[i]) && throws != []
    ensures states[i].taken == |throws| <==> Throwers(throws, |throws| - 1) < Max(0, Min(limit, |throws|))
  {
    SettledExactly(throws, limit, states, steps, i);
  }

  // ---------------------------------------------------------------- a run ends

  function Weight(): Phase -> nat { (p: Phase) => match p case Idle => 1 case Busy(_) => 2 case _ => 0 }

  /** No execution has more than two steps an item and one a worker: the workers always come to an end. */
  lemma {:induction false} ExecutionsEnd(throws: seq<bool>, limit: int, states: seq<State>, steps: seq<Step>, i: nat)
    requires Execution(throws, limit, states, steps) && i < |states|
    ensures states[i].taken <= |throws|
    ensures i + 2 * (|throws| - states[i].taken) + Sum(Weight(), states[i].workers) <= 2 * |throws| + WorkerCount(|throws|, limit)
  {
    if i == 0 {
      SumConstant(Weight(), states[0].workers, 1);
    } else {
      ExecutionsEnd(throws, limit, states, steps, i - 1);
      assert Next(throws, states[i - 1], steps[i - 1], states[i]);
      SumAfter(Weight(), states[i - 1].workers, steps[i - 1].w, states[i].workers[steps[i - 1].w]);
    }
  }
}
