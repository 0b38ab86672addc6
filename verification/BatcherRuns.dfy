/** Whole runs of the dynamic batcher: safety in every reachable state, and `drain` returning. */
module BatcherRuns {
  import opened Numbers
  import opened Batcher

  /** States of a run: each follows from the one before by some enabled action. */
  ghost predicate Runs(states: seq<State>, actions: seq<Action>) {
    && |states| == |actions| + 1
    && forall i | 0 <= i < |actions| :: Follows(states, actions, i)
  }

  predicate Follows(states: seq<State>, actions: seq<Action>, i: nat)
    requires |states| == |actions| + 1 && i < |actions|
  {
    Enabled(states[i], actions[i]) && states[i + 1] == Apply(states[i], actions[i])
  }

  // ---------------------------------------------------------------- what every run guarantees

  lemma {:induction false} RunInv(states: seq<State>, actions: seq<Action>, i: nat)
    requires Runs(states, actions) && i < |states| && Inv(states[0])
    ensures Inv(states[i])
    decreases i
  {
    hide Inv, Apply, Enabled;
    if i > 0 {
      RunInv(states, actions, i - 1);
      assert Follows(states, actions, i - 1);
      InvKept(states[i - 1], actions[i - 1]);
    }
  }

  /** Items of a log of good batches. */
  lemma {:induction false} SizeBound(s: State, log: seq<Fired>)
    requires forall i | 0 <= i < |log| :: GoodBatch(s, log[i])
    ensures |log| <= |Flat(log)| <= |log| * s.maxBatch
  {
    if log != [] {
      var n := |log| - 1;
      SizeBound(s, log[..n]);
      assert (n + 1) * s.maxBatch == n * s.maxBatch + s.maxBatch;
    }
  }

  lemma ItemsBounded(s: State)
    requires Inv(s)
    ensures s.items <= s.batches * s.maxBatch && s.items <= |Flat(s.log)|
  {
    hide ControlOk, Conserved, Flat;
    var u := if s.worker.AddBatch? || s.worker.AddItems? then 1 else 0;
    SizeBound(s, Before(s.log, u));
    SizeBound(s, s.log);
    MulLe(|Before(s.log, u)|, s.batches, s.maxBatch);
    FlatPrefix(s.log, u);
  }

  lemma FlatPrefix(log: seq<Fired>, n: nat)
    requires n <= 1
    ensures |Flat(Before(log, n))| <= |Flat(log)|
  {
    assert log[..|log|] == log;
  }

  /** Safety in every reachable state: what was accepted is, in order, what handlers got, what one handler has now,
      and what still waits; every batch holds 1 to `maxBatch` items and was handed over by the worker; the item
      counter never exceeds the batch counter times the limit. */
  lemma Safety(maxBatch: int, states: seq<State>, actions: seq<Action>, i: nat)
    requires Runs(states, actions) && states[0] == Initial(maxBatch) && i < |states|
    ensures var s := states[i];
            && s.accepted == Flat(s.log) + InFlight(s) + s.pending
            && (forall k | 0 <= k < |s.log| :: 1 <= |s.log[k].batch| <= s.maxBatch && s.log[k].byWorker)
            && s.items <= s.batches * s.maxBatch
  {
    hide Runs, Flat, CountersOk, Counting, Initial;
    InitialInv(maxBatch);
    RunInv(states, actions, i);
    var s := states[i];
    ItemsBounded(s);
    assert Flat(s.log) + InFlight(s) + s.pending + [] == Flat(s.log) + InFlight(s) + s.pending;
    forall k | 0 <= k < |s.log|
      ensures 1 <= |s.log[k].batch| <= s.maxBatch && s.log[k].byWorker
    {
      assert GoodBatch(s, s.log[k]);
    }
  }

  /** When `drain` returns, everything accepted was handled exactly once and in order, nothing waits, and the
      counters are exact. */
  lemma DrainComplete(maxBatch: int, states: seq<State>, actions: seq<Action>, i: nat)
    requires Runs(states, actions) && states[0] == Initial(maxBatch) && i < |states|
    requires states[i].drainer == Returned
    ensures var s := states[i];
            && Flat(s.log) == s.accepted && s.pending == [] && s.worker == Exited
            && s.items == |s.accepted| && s.batches == |s.log| && s.largest == LargestOf(s.log)
            && s.items <= s.batches * s.maxBatch
  {
    hide Runs, Flat, LogOk, Initial, LargestOf;
    InitialInv(maxBatch);
    RunInv(states, actions, i);
    var s := states[i];
    ItemsBounded(s);
    assert Before(s.log, 0) == s.log;
    assert Flat(s.log) + [] + [] + [] == Flat(s.log);
  }

  // ---------------------------------------------------------------- drain returns

  /** Steps the worker still owes for the batch it holds. */
  function WorkerRank(w: Worker): nat {
    match w
    case InHandler(_) => 6
    case AddBatch(_) => 5
    case AddItems(_) => 4
    case LoadLargest(_) => 3
    case Swapping(_, _) => 2
    case Waiting => 1
    case Exited => 0
  }

  function DrainerRank(d: Drainer): nat {
    match d case NotCalled => 4 case Joining => 3 case Joined => 2 case Flushing(_) => 1 case Returned => 0
  }

  function Measure(s: State): nat {
    6 * |s.pending| + WorkerRank(s.worker) + DrainerRank(s.drainer)
  }

  /** A refused submission and a spuriously failed exchange leave the state as it was. */
  predicate Idle(s: State, a: Action) {
    a.Submit? || (a == TrySwap(true) && s.worker.Swapping? && s.worker.take > s.worker.prev)
  }

  /** Once `drain` was called every step that is not idle brings its return closer, and an idle one changes
      nothing. */
  lemma DrainProgress(s: State, a: Action)
    requires Inv(s) && s.stopping && Enabled(s, a)
    ensures Apply(s, a).stopping
    ensures if Idle(s, a) then Apply(s, a) == s else Measure(Apply(s, a)) < Measure(s)
  {
    hide Conserved, LogOk, Counting;
    if a == FlushBatch { NoFlush(s); }
  }

  /** And until it has returned there is always such a step to take. */
  lemma DrainNotStuck(s: State)
    requires Inv(s) && s.stopping && s.drainer != Returned
    ensures exists a :: Enabled(s, a) && !Idle(s, a)
  {
    hide Conserved, LogOk, Counting, CountersOk;
    var a :=
      match s.worker
      case Waiting => Wake
      case InHandler(_) => EndHandler
      case AddBatch(_) => CountBatch
      case AddItems(_) => CountItems
      case LoadLargest(_) => ReadLargest
      case Swapping(_, _) => TrySwap(false)
      case Exited =>
        match s.drainer case Joining => Join case Joined => TakeRest case _ => FinishDrain;
    assert Enabled(s, a) && !Idle(s, a);
  }

  function Busy(states: seq<State>, actions: seq<Action>, n: nat): nat
    requires |states| == |actions| + 1 && n <= |actions|
  {
    if n == 0 then 0 else Busy(states, actions, n - 1) + (if Idle(states[n - 1], actions[n - 1]) then 0 else 1)
  }

  /** A draining run has at most `Measure` effective steps, whatever the interleaving. */
  lemma {:induction false} DrainBounded(states: seq<State>, actions: seq<Action>, n: nat)
    requires Runs(states, actions) && Inv(states[0]) && states[0].stopping && n <= |actions|
    ensures states[n].stopping && Busy(states, actions, n) + Measure(states[n]) <= Measure(states[0])
    decreases n
  {
    hide Inv, Apply, Enabled, Idle, Measure;
    if n > 0 {
      DrainBounded(states, actions, n - 1);
      RunInv(states, actions, n - 1);
      assert Follows(states, actions, n - 1);
      DrainProgress(states[n - 1], actions[n - 1]);
    }
  }
}
