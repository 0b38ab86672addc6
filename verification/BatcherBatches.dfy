/** How the dynamic batcher groups what it accepts: which requests a run accepts, and into which batches they go. */
module BatcherBatches {
  import opened Numbers
  import opened Batcher
  import opened BatcherRuns

  // ---------------------------------------------------------------- what is accepted

  /** The requests submitted before the first call of `drain`, in order. */
  function Submitted(actions: seq<Action>): seq<int> {
    if actions == [] || actions[0] == CallDrain then []
    else (if actions[0].Submit? then [actions[0].id] else []) + Submitted(actions[1..])
  }

  lemma {:induction false} SubmittedSnoc(actions: seq<Action>, a: Action)
    ensures Submitted(actions + [a]) ==
            Submitted(actions) + if a.Submit? && CallDrain !in actions then [a.id] else []
  {
    if actions != [] {
      assert (actions + [a])[1..] == actions[1..] + [a];
      assert CallDrain in actions <==> actions[0] == CallDrain || CallDrain in actions[1..];
      SubmittedSnoc(actions[1..], a);
    }
  }

  /** One step accepts what it submits unless `drain` was called, and only a call of `drain` stops the batcher. */
  lemma StepAccepts(s: State, a: Action)
    requires Enabled(s, a)
    ensures Apply(s, a).accepted == s.accepted + if a.Submit? && !s.stopping then [a.id] else []
    ensures Apply(s, a).stopping <==> s.stopping || a == CallDrain
    ensures Apply(s, a).maxBatch == s.maxBatch
  {
  }

  /** In every run exactly the requests submitted before the first call of `drain` are accepted, in that order. */
  lemma {:induction false} AcceptedIsSubmitted(maxBatch: int, states: seq<State>, actions: seq<Action>, n: nat)
    requires Runs(states, actions) && states[0] == Initial(maxBatch) && n <= |actions|
    ensures states[n].accepted == Submitted(actions[..n])
    ensures states[n].stopping <==> CallDrain in actions[..n]
    ensures states[n].maxBatch == if maxBatch < 1 then 1 else maxBatch
    decreases n
  {
    hide Apply, Enabled, Submitted;
    NothingSubmitted();
    if n > 0 {
      AcceptedIsSubmitted(maxBatch, states, actions, n - 1);
      assert Follows(states, actions, n - 1);
      StepAccepts(states[n - 1], actions[n - 1]);
      SubmittedSnoc(actions[..n - 1], actions[n - 1]);
      assert actions[..n] == actions[..n - 1] + [actions[n - 1]];
    }
  }

  lemma NothingSubmitted()
    ensures Submitted([]) == []
  {
  }

  // ---------------------------------------------------------------- full batches

  /** A woken worker that finds something takes the front of the queue: a full batch, or everything there is. */
  lemma FullOrEverything(states: seq<State>, actions: seq<Action>, i: nat)
    requires Runs(states, actions) && i < |actions| && actions[i] == Wake && states[i].pending != []
    ensures var s, t := states[i], states[i + 1];
            && t.worker.InHandler? && s.pending == t.worker.batch + t.pending
            && |t.worker.batch| <= s.maxBatch
            && (|t.worker.batch| == s.maxBatch || t.pending == [])
  {
    assert Follows(states, actions, i);
    var s := states[i];
    var take := Min(|s.pending|, s.maxBatch);
    assert s.pending == s.pending[..take] + s.pending[take..];
  }

  /** A queue cut into batches of `size`, the last one holding what is left. */
  function Chunks(queue: seq<int>, size: nat): (calls: seq<Fired>)
    requires size > 0
    ensures queue == [] <==> calls == []
    ensures forall k | 0 <= k < |calls| - 1 :: |calls[k].batch| == size
    ensures forall k | 0 <= k < |calls| :: 1 <= |calls[k].batch| <= size && calls[k].byWorker
    ensures |calls| == (|queue| + size - 1) / size
  {
    if queue == [] then
      Ceiling(0, size);
      []
    else if |queue| <= size then
      Ceiling(|queue|, size);
      [Fired(queue, true)]
    else
      Ceiling(|queue|, size);
      [Fired(queue[..size], true)] + Chunks(queue[size..], size)
  }

  /** Batches a queue of `n` needs: none, one, or one more than without its first batch. */
  lemma Ceiling(n: nat, size: nat)
    requires size > 0
    ensures n == 0 ==> (n + size - 1) / size == 0
    ensures 0 < n <= size ==> (n + size - 1) / size == 1
    ensures n > size ==> (n + size - 1) / size == (n - size + size - 1) / size + 1
  {
    if n == 0 {
      DivModUnique(size - 1, size, 0, size - 1);
    } else if n <= size {
      DivModUnique(n + size - 1, size, 1, n - 1);
    } else {
      var q, r := (n - 1) / size, (n - 1) % size;
      assert n - 1 == q * size + r;
      assert (q + 1) * size == q * size + size;
      DivModUnique(n + size - 1, size, q + 1, r);
    }
  }

  lemma {:induction false} ChunksHold(queue: seq<int>, size: nat)
    requires size > 0
    ensures Flat(Chunks(queue, size)) == queue
    decreases |queue|
  {
    if |queue| > size {
      ChunksHold(queue[size..], size);
      FlatCons(Fired(queue[..size], true), Chunks(queue[size..], size));
    } else if queue != [] {
      FlatCons(Fired(queue, true), []);
    }
  }

  lemma {:induction false} FlatCons(f: Fired, log: seq<Fired>)
    ensures Flat([f] + log) == f.batch + Flat(log)
    decreases |log|
  {
    if log == [] {
      FlatSnoc([], f);
      assert [f] + [] == [] + [f];
    } else {
      var n := |log| - 1;
      FlatCons(f, log[..n]);
      assert [f] + log == ([f] + log[..n]) + [log[n]] && log == log[..n] + [log[n]];
      FlatSnoc([f] + log[..n], log[n]);
      FlatSnoc(log[..n], log[n]);
    }
  }

  /** The call in progress. */
  function Current(s: State): seq<Fired> {
    if s.worker.InHandler? then [Fired(s.worker.batch, true)] else []
  }

  /** The handler calls made, in progress and still to be made once nothing more is accepted. */
  function AllCalls(s: State): seq<Fired>
    requires s.maxBatch > 0
  {
    s.log + Current(s) + Chunks(s.pending, s.maxBatch)
  }

  lemma ChunksFirst(queue: seq<int>, size: nat)
    requires size > 0 && queue != []
    ensures var take := Min(|queue|, size);
            Chunks(queue, size) == [Fired(queue[..take], true)] + Chunks(queue[take..], size)
  {
    if |queue| <= size {
      assert queue[..|queue|] == queue && queue[|queue|..] == [];
    }
  }

  /** Only waking up and returning from the handler touch the queue, the call in progress or the log. */
  lemma QuietStep(s: State, a: Action)
    requires ControlOk(s) && s.stopping && Enabled(s, a) && a != Wake && a != EndHandler
    ensures var t := Apply(s, a);
            t.log == s.log && t.pending == s.pending && t.maxBatch == s.maxBatch && Current(t) == Current(s)
  {
    if a == FlushBatch { NoFlush(s); }
  }

  lemma WakeKeeps(s: State)
    requires s.worker == Waiting && s.maxBatch > 0
    ensures Woken(s).maxBatch == s.maxBatch && AllCalls(Woken(s)) == AllCalls(s)
  {
    hide Chunks, Min;
    if s.pending != [] { ChunksFirst(s.pending, s.maxBatch); }
  }

  lemma HandlerKeeps(s: State)
    requires s.worker.InHandler? && s.maxBatch > 0
    ensures Apply(s, EndHandler).maxBatch == s.maxBatch && AllCalls(Apply(s, EndHandler)) == AllCalls(s)
  {
    hide Chunks;
  }

  /** While draining no step changes which calls there will have been. */
  lemma CallsKept(s: State, a: Action)
    requires ControlOk(s) && s.stopping && Enabled(s, a)
    ensures ControlOk(Apply(s, a)) && AllCalls(Apply(s, a)) == AllCalls(s)
  {
    hide Chunks, Woken, Current;
    ControlKept(s, a);
    if a == Wake {
      WakeKeeps(s);
    } else if a == EndHandler {
      HandlerKeeps(s);
    } else {
      QuietStep(s, a);
    }
  }

  lemma {:induction false} CallsFixed(states: seq<State>, actions: seq<Action>, i: nat, j: nat)
    requires Runs(states, actions) && i <= j <= |actions| && Inv(states[0]) && states[i].stopping
    ensures ControlOk(states[i]) && ControlOk(states[j]) && states[j].stopping
    ensures states[j].maxBatch == states[i].maxBatch && AllCalls(states[j]) == AllCalls(states[i])
    decreases j
  {
    hide Apply, Enabled, AllCalls, ControlOk;
    RunInv(states, actions, i);
    InvControl(states[i]);
    if i < j {
      CallsFixed(states, actions, i, j - 1);
      assert Follows(states, actions, j - 1);
      CallsKept(states[j - 1], actions[j - 1]);
      StepAccepts(states[j - 1], actions[j - 1]);
    }
  }

  lemma InvControl(s: State)
    requires Inv(s)
    ensures ControlOk(s) && s.maxBatch > 0
  {
  }

  /** A drain that finds `n` requests waiting makes exactly ceil(n / maxBatch) handler calls after the one in progress
      before it returns; together they hold those requests in order, and all but the last are full. */
  lemma DrainCalls(maxBatch: int, states: seq<State>, actions: seq<Action>, i: nat, j: nat)
    requires Runs(states, actions) && states[0] == Initial(maxBatch) && i <= j <= |actions|
    requires states[i].stopping && states[j].drainer == Returned
    ensures var s, t := states[i], states[j];
            && s.maxBatch > 0 && s.log + Current(s) <= t.log
            && var calls := t.log[|s.log + Current(s)|..];
               && |calls| == (|s.pending| + s.maxBatch - 1) / s.maxBatch
               && Flat(calls) == s.pending
               && forall k | 0 <= k < |calls| - 1 :: |calls[k].batch| == s.maxBatch
  {
    hide Initial, Inv, Flat, Follows;
    InitialInv(maxBatch);
    CallsFixed(states, actions, i, j);
    var s, t := states[i], states[j];
    assert t.worker == Exited && t.pending == [];
    assert t.log == AllCalls(t) == s.log + Current(s) + Chunks(s.pending, s.maxBatch);
    assert t.log[|s.log + Current(s)|..] == Chunks(s.pending, s.maxBatch);
    ChunksHold(s.pending, s.maxBatch);
  }

  // ---------------------------------------------------------------- the largest batch

  /** `largest` is the size of some batch, and no batch is larger. */
  lemma {:induction false} LargestIs(log: seq<Fired>)
    ensures forall k | 0 <= k < |log| :: |log[k].batch| <= LargestOf(log)
    ensures log != [] ==> exists k :: 0 <= k < |log| && |log[k].batch| == LargestOf(log)
  {
    if log != [] {
      var n := |log| - 1;
      LargestIs(log[..n]);
      forall k | 0 <= k < |log|
        ensures |log[k].batch| <= LargestOf(log)
      {
        if k < n { assert log[..n][k] == log[k]; }
      }
      if LargestOf(log) == |log[n].batch| {
      } else {
        var k :| 0 <= k < n && |log[..n][k].batch| == LargestOf(log[..n]);
        assert |log[k].batch| == LargestOf(log);
      }
    }
  }
}
